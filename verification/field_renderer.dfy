/**
 * One field on a canvas: the move it requests when a drag ends or while it is
 * dragged by hand, the size it requests while a corner handle is dragged, the
 * icon of its type badge and how a label field previews its text.
 */
module FieldRenderer {
  import opened FieldModel
  import PdfService

  /** What the drag source records when a drag starts: the field's id and position. */
  datatype DragItem = DragItem(id: string, initialX: real, initialY: real)

  /** `monitor.getDifferenceFromInitialOffset()`, in screen pixels. */
  datatype Offset = Offset(x: real, y: real)

  /** An `onMove(id, x, y)` request to the canvas. */
  datatype Move = Move(id: string, x: real, y: real)

  /** The drag source's `item()`. */
  function DragItemOf(field: Field): (item: DragItem)
    ensures item.id == field.id && item.initialX == field.x && item.initialY == field.y
  {
    DragItem(field.id, field.x, field.y)
  }

  /**
   * The drag source's `end`: nothing when the field was not dropped on a target
   * or no offset is known; otherwise the start position moved by the offset
   * scaled back by the zoom, clamped to the page's top and left edges.
   */
  function DragEnd(field: Field, item: DragItem, didDrop: bool, delta: Option<Offset>, zoom: real): (m: Option<Move>)
    requires zoom > 0.0
    ensures m.None? <==> !didDrop || delta.None?
    ensures m.Some? ==> m.value.id == field.id && m.value.x >= 0.0 && m.value.y >= 0.0
    ensures m.Some? ==> var tx := item.initialX + delta.value.x / zoom;
                        (tx >= 0.0 ==> m.value.x == tx) && (tx < 0.0 ==> m.value.x == 0.0)
    ensures m.Some? ==> var ty := item.initialY + delta.value.y / zoom;
                        (ty >= 0.0 ==> m.value.y == ty) && (ty < 0.0 ==> m.value.y == 0.0)
  {
    if !didDrop then None
    else if delta.None? then None
    else Some(Move(field.id, Max(0.0, item.initialX + delta.value.x / zoom),
                             Max(0.0, item.initialY + delta.value.y / zoom)))
  }

  /** Dropping a field, at any zoom, where its drag started leaves it where it was. */
  lemma DragEndInPlace(field: Field, zoom: real)
    requires zoom > 0.0 && field.x >= 0.0 && field.y >= 0.0
    ensures DragEnd(field, DragItemOf(field), true, Some(Offset(0.0, 0.0)), zoom) == Some(Move(field.id, field.x, field.y))
  {
  }

  /** The manual drag's `dragStart`: the pointer and the field's position at mouse-down. */
  datatype DragStart = DragStart(x: real, y: real, fieldX: real, fieldY: real)

  /**
   * `handleMouseDown`: a manual drag starts on a left-button press that is not
   * on a resize handle, and records where the pointer and the field were.
   */
  function MouseDown(field: Field, button: int, onResizeHandle: bool, clientX: real, clientY: real): (d: Option<DragStart>)
    ensures d.Some? <==> button == 0 && !onResizeHandle
    ensures d.Some? ==> d.value == DragStart(clientX, clientY, field.x, field.y)
  {
    if button != 0 then None
    else if onResizeHandle then None
    else Some(DragStart(clientX, clientY, field.x, field.y))
  }

  /**
   * The manual drag's `mousemove`: the recorded field position moved by the
   * pointer's travel since mouse-down, scaled by the zoom, clamped as at drag-end.
   */
  function ManualDrag(field: Field, start: DragStart, clientX: real, clientY: real, zoom: real): (m: Move)
    requires zoom > 0.0
    ensures m.id == field.id && m.x >= 0.0 && m.y >= 0.0
    ensures var tx := start.fieldX + (clientX - start.x) / zoom;
            (tx >= 0.0 ==> m.x == tx) && (tx < 0.0 ==> m.x == 0.0)
    ensures var ty := start.fieldY + (clientY - start.y) / zoom;
            (ty >= 0.0 ==> m.y == ty) && (ty < 0.0 ==> m.y == 0.0)
  {
    var deltaX := (clientX - start.x) / zoom;
    var deltaY := (clientY - start.y) / zoom;
    Move(field.id, Max(0.0, start.fieldX + deltaX), Max(0.0, start.fieldY + deltaY))
  }

  /**
   * A manual drag and a drag-and-drop over the same distance request the same
   * move: both start from the field's position and scale the travel alike.
   */
  lemma ManualDragAgreesWithDragEnd(field: Field, button: int, clientX: real, clientY: real, dx: real, dy: real, zoom: real)
    requires zoom > 0.0 && button == 0
    ensures var start := MouseDown(field, button, false, clientX, clientY);
            start.Some? &&
            Some(ManualDrag(field, start.value, clientX + dx, clientY + dy, zoom)) ==
              DragEnd(field, DragItemOf(field), true, Some(Offset(dx, dy)), zoom)
  {
    var start := MouseDown(field, button, false, clientX, clientY).value;
    assert (clientX + dx) - start.x == dx && (clientY + dy) - start.y == dy;
  }

  /**
   * The `mousemove` of `handleResizeStart(e, direction)`: each direction letter
   * of the handle resizes one dimension from its start value, never below 20;
   * a later letter for the same dimension overrides an earlier one.
   */
  method ResizeDimensions(direction: string, startWidth: real, startHeight: real,
                          startX: real, startY: real, clientX: real, clientY: real, zoom: real)
    returns (newWidth: real, newHeight: real)
    requires zoom > 0.0
    ensures var deltaX := (clientX - startX) / zoom;
            ('w' in direction ==> newWidth == Max(20.0, startWidth - deltaX)) &&
            ('e' in direction && 'w' !in direction ==> newWidth == Max(20.0, startWidth + deltaX)) &&
            ('e' !in direction && 'w' !in direction ==> newWidth == startWidth)
    ensures var deltaY := (clientY - startY) / zoom;
            ('n' in direction ==> newHeight == Max(20.0, startHeight - deltaY)) &&
            ('s' in direction && 'n' !in direction ==> newHeight == Max(20.0, startHeight + deltaY)) &&
            ('s' !in direction && 'n' !in direction ==> newHeight == startHeight)
    ensures newWidth >= 20.0 || newWidth == startWidth
    ensures newHeight >= 20.0 || newHeight == startHeight
  {
    var deltaX := (clientX - startX) / zoom;
    var deltaY := (clientY - startY) / zoom;
    newWidth := startWidth;
    newHeight := startHeight;
    if 'e' in direction {
      newWidth := Max(20.0, startWidth + deltaX);
    }
    if 'w' in direction {
      newWidth := Max(20.0, startWidth - deltaX);
    }
    if 's' in direction {
      newHeight := Max(20.0, startHeight + deltaY);
    }
    if 'n' in direction {
      newHeight := Max(20.0, startHeight - deltaY);
    }
  }

  /** The four corner handles. */
  const Handles: seq<string> := ["nw", "ne", "sw", "se"]

  /** Every corner handle names one horizontal and one vertical letter, so it resizes both dimensions. */
  lemma HandlesResizeBothDimensions()
    ensures forall h :: h in Handles ==> ('e' in h || 'w' in h) && ('n' in h || 's' in h)
    ensures forall h :: h in Handles ==> !('e' in h && 'w' in h) && !('n' in h && 's' in h)
  {
    assert Handles == ["nw", "ne", "sw", "se"];
    assert "nw" == ['n', 'w'] && "ne" == ['n', 'e'] && "sw" == ['s', 'w'] && "se" == ['s', 'e'];
  }

  /** The badge icons (📝 📅 ☑ ✍ 🏷 and 📄 for any other type). */
  datatype Icon = Memo | Calendar | BallotBoxWithCheck | WritingHand | LabelTag | PageFacingUp

  /** `getFieldIcon` */
  function FieldIcon(kind: FieldType): (icon: Icon)
    ensures icon == PageFacingUp <==> kind.Unknown?
  {
    match kind
    case Text => Memo
    case Date => Calendar
    case Checkbox => BallotBoxWithCheck
    case Signature => WritingHand
    case Label => LabelTag
    case Unknown(_) => PageFacingUp
  }

  /** Each of the five palette types has its own icon. */
  lemma FieldIconDistinguishesTypes(a: FieldType, b: FieldType)
    requires !a.Unknown? && !b.Unknown? && a != b
    ensures FieldIcon(a) != FieldIcon(b)
  {
  }

  /** How a label field shows on the canvas: its text, its font size in pixels and its weight. */
  datatype LabelPreview = LabelPreview(text: string, size: int, bold: bool)

  /** The `label` case of `renderFieldContent`: `label || 'Label Text'` at `fontSize || 12`. */
  function LabelContent(field: Field): (v: LabelPreview)
    ensures v.size == FontSizeOrDefault(field.fontSize) && v.bold == field.bold
    ensures field.labelText != "" ==> v.text == field.labelText
    ensures field.labelText == "" ==> v.text == "Label Text"
  {
    LabelPreview(if field.labelText != "" then field.labelText else "Label Text",
                 FontSizeOrDefault(field.fontSize), field.bold)
  }

  /**
   * The canvas previews a label at the size and weight the built PDF draws it
   * with, and with the same text unless the label is empty: the canvas then
   * shows "Label Text" where the PDF draws "Label".
   */
  lemma LabelPreviewMatchesBuild(field: Field, page: int, pdfY: real)
    requires field.kind == Label
    ensures var v := LabelContent(field);
            var acts := PdfService.FieldActions(PdfService.BuildMode, field, page, pdfY);
            |acts| == 1 && acts[0].DrawText? &&
            acts[0].size == v.size && (acts[0].font == PdfService.HelveticaBold <==> v.bold) &&
            (acts[0].text == v.text <==> field.labelText != "")
  {
    PdfService.BuildLabelDrawsText(field, page, pdfY);
    assert "Label" != "Label Text" by { assert |"Label"| != |"Label Text"|; }
  }
}
