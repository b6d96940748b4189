/**
 * The two drop zones, the layout builder's canvas and the existing-PDF editor's
 * canvas. Their modelled parts are the same code: the record built for a field
 * type dropped from the palette, the move and resize handlers that turn a
 * child's request into an update call to the page, and the list of fields
 * shown for the current page.
 */
module Canvas {
  import opened FieldModel
  import opened FieldList
  import PdfService

  /** `toUpperCase` on one character; letters outside a-z are left out of the model and kept as they are. */
  function UpperChar(c: char): char {
    if 'a' <= c <= 'z' then (c as int - 32) as char else c
  }

  /** `s.charAt(0).toUpperCase() + s.slice(1)` */
  function Capitalize(s: string): (r: string)
    ensures |r| == |s|
    ensures s != [] ==> r[0] == UpperChar(s[0]) && r[1..] == s[1..]
  {
    if s == [] then [] else [UpperChar(s[0])] + s[1..]
  }

  /** The label a dropped field gets: its type name with the first letter upper-cased, then " Field". */
  function DefaultLabel(kind: FieldType): (r: string)
    ensures var name := TypeName(kind);
            |r| == |name| + 6 && r[|name|..] == " Field" &&
            (name != [] ==> r[0] == UpperChar(name[0]) && r[1..|name|] == name[1..])
  {
    Capitalize(TypeName(kind)) + " Field"
  }

  /** The pointer and the canvas's top-left corner, in screen pixels, at the drop. */
  datatype DropPoint = DropPoint(clientX: real, clientY: real, left: real, top: real)

  /**
   * The field built by the drop handler for a palette item of type `kind`.
   * `id` stands for the timestamp id. The box is centred 50 right and 15 below
   * its corner, so the corner sits left of and above the pointer, but never off
   * the page's top-left edges.
   */
  function DroppedField(id: string, kind: FieldType, drop: DropPoint, zoom: real, currentPage: int): (f: Field)
    requires zoom > 0.0
    ensures f.id == id && f.kind == kind
    ensures f.x >= 0.0 && f.y >= 0.0
    ensures var px := (drop.clientX - drop.left) / zoom;
            (px >= 50.0 ==> f.x == px - 50.0) && (px < 50.0 ==> f.x == 0.0)
    ensures var py := (drop.clientY - drop.top) / zoom;
            (py >= 15.0 ==> f.y == py - 15.0) && (py < 15.0 ==> f.y == 0.0)
    ensures kind == Checkbox ==> f.width == 20.0 && f.height == 20.0
    ensures kind != Checkbox ==> f.width == 200.0 && f.height == 30.0
    ensures f.page == Some(currentPage) && f.labelText == DefaultLabel(kind) &&
            f.fontSize == Some(12) && !f.bold
  {
    var x := (drop.clientX - drop.left) / zoom;
    var y := (drop.clientY - drop.top) / zoom;
    Field(id, kind, Max(0.0, x - 50.0), Max(0.0, y - 15.0),
          if kind == Checkbox then 20.0 else 200.0,
          if kind == Checkbox then 20.0 else 30.0,
          Some(currentPage), DefaultLabel(kind), Some(12), false)
  }

  /**
   * A type name starting with a lower-case letter gets that letter upper-cased:
   * "text" gives "Text Field", "checkbox" gives "Checkbox Field".
   */
  lemma LowerInitialLabel(kind: FieldType, c: char, rest: string)
    requires TypeName(kind) == [c] + rest && 'a' <= c <= 'z'
    ensures DefaultLabel(kind) == [(c as int - 32) as char] + rest + " Field"
  {
    assert TypeName(kind)[1..] == rest;
  }

  /**
   * `handleFieldMove(id, x, y)`: no call when no field has the id; otherwise the
   * first field with the id, at the new position, sent under that id.
   */
  function MoveCall(fields: seq<Field>, id: string, x: real, y: real): (c: Option<UpdateCall>)
    ensures c.None? <==> !HasId(fields, id)
    ensures c.Some? ==> c.value.id == Some(id) &&
                        exists k :: 0 <= k < |fields| && fields[k].id == id &&
                                    (forall j :: 0 <= j < k ==> fields[j].id != id) &&
                                    c.value.field == Some(fields[k].(x := x, y := y))
  {
    var field := FindById(fields, id);
    if field.Some? then Some(UpdateCall(Some(id), Some(field.value.(x := x, y := y)))) else None
  }

  /** `handleFieldResize(id, width, height)`: as a move, with the first field's size replaced. */
  function ResizeCall(fields: seq<Field>, id: string, width: real, height: real): (c: Option<UpdateCall>)
    ensures c.None? <==> !HasId(fields, id)
    ensures c.Some? ==> c.value.id == Some(id) &&
                        exists k :: 0 <= k < |fields| && fields[k].id == id &&
                                    (forall j :: 0 <= j < k ==> fields[j].id != id) &&
                                    c.value.field == Some(fields[k].(width := width, height := height))
  {
    var field := FindById(fields, id);
    if field.Some? then Some(UpdateCall(Some(id), Some(field.value.(width := width, height := height)))) else None
  }

  /** The list after the page applies a call (`handleFieldUpdate`), or as it was when no call is made. */
  function AfterCall(fields: seq<Field>, c: Option<UpdateCall>): seq<Field>
    requires c.Some? ==> c.value.field.Some?
  {
    if c.None? then fields else ApplyUpdate(fields, c.value.id, c.value.field)
  }

  /**
   * With unique ids, a move changes the position of the field with the id and
   * nothing else. An unknown id, or the empty id the page reads as null, changes nothing.
   */
  lemma MoveChangesOnlyPosition(fields: seq<Field>, id: string, x: real, y: real)
    requires UniqueIds(fields)
    ensures var after := AfterCall(fields, MoveCall(fields, id, x, y));
            |after| == |fields| &&
            forall i :: 0 <= i < |fields| ==>
              after[i] == if fields[i].id == id && id != "" then fields[i].(x := x, y := y) else fields[i]
  {
    var after := AfterCall(fields, MoveCall(fields, id, x, y));
    forall i | 0 <= i < |fields| && fields[i].id == id
      ensures FindById(fields, id) == Some(fields[i])
    {
      FindUniqueId(fields, id, i);
    }
    if !HasId(fields, id) {
      assert after == fields;
    }
  }

  /** With unique ids, a resize changes the size of the field with the id and nothing else. */
  lemma ResizeChangesOnlySize(fields: seq<Field>, id: string, width: real, height: real)
    requires UniqueIds(fields)
    ensures var after := AfterCall(fields, ResizeCall(fields, id, width, height));
            |after| == |fields| &&
            forall i :: 0 <= i < |fields| ==>
              after[i] == if fields[i].id == id && id != "" then fields[i].(width := width, height := height) else fields[i]
  {
    var after := AfterCall(fields, ResizeCall(fields, id, width, height));
    forall i | 0 <= i < |fields| && fields[i].id == id
      ensures FindById(fields, id) == Some(fields[i])
    {
      FindUniqueId(fields, id, i);
    }
    if !HasId(fields, id) {
      assert after == fields;
    }
  }

  /** The first field carrying an id is the one `find` returns. */
  lemma FindFirst(fields: seq<Field>, id: string, k: int)
    requires 0 <= k < |fields| && fields[k].id == id && forall j :: 0 <= j < k ==> fields[j].id != id
    ensures FindById(fields, id) == Some(fields[k])
  {
    var r := FindById(fields, id);
    var i :| 0 <= i < |fields| && fields[i] == r.value && r.value.id == id &&
             forall j :: 0 <= j < i ==> fields[j].id != id;
    assert i == k;
  }

  /**
   * Ids need not be unique (a loaded layout may repeat one): a move then
   * overwrites every field carrying the id with a moved copy of the first one.
   */
  lemma MoveCopiesFirstMatch(fields: seq<Field>, id: string, x: real, y: real, k: int)
    requires 0 <= k < |fields| && fields[k].id == id && forall j :: 0 <= j < k ==> fields[j].id != id
    requires id != ""
    ensures var after := AfterCall(fields, MoveCall(fields, id, x, y));
            |after| == |fields| &&
            forall i :: 0 <= i < |fields| ==>
              after[i] == if fields[i].id == id then fields[k].(x := x, y := y) else fields[i]
  {
    FindFirst(fields, id, k);
  }

  /** With repeated ids, a resize overwrites every field carrying the id with a resized copy of the first one. */
  lemma ResizeCopiesFirstMatch(fields: seq<Field>, id: string, width: real, height: real, k: int)
    requires 0 <= k < |fields| && fields[k].id == id && forall j :: 0 <= j < k ==> fields[j].id != id
    requires id != ""
    ensures var after := AfterCall(fields, ResizeCall(fields, id, width, height));
            |after| == |fields| &&
            forall i :: 0 <= i < |fields| ==>
              after[i] == if fields[i].id == id then fields[k].(width := width, height := height) else fields[i]
  {
    FindFirst(fields, id, k);
  }

  /** `fields.filter(f => f.page === currentPage)` */
  function CurrentPageFields(fields: seq<Field>, currentPage: int): (r: seq<Field>)
    ensures |r| <= |fields|
    ensures forall f :: f in r <==> f in fields && f.page == Some(currentPage)
  {
    if fields == [] then []
    else (if fields[0].page == Some(currentPage) then [fields[0]] else []) + CurrentPageFields(fields[1..], currentPage)
  }

  /** The filter keeps list order: it distributes over concatenation. */
  lemma {:induction false} CurrentPageFieldsKeepOrder(a: seq<Field>, b: seq<Field>, currentPage: int)
    ensures CurrentPageFields(a + b, currentPage) == CurrentPageFields(a, currentPage) + CurrentPageFields(b, currentPage)
  {
    if a == [] {
      assert a + b == b;
    } else {
      assert (a + b)[0] == a[0];
      assert (a + b)[1..] == a[1..] + b;
      CurrentPageFieldsKeepOrder(a[1..], b, currentPage);
    }
  }

  /** A field dropped on the current page is shown at once, after the fields already there. */
  lemma DroppedFieldIsShown(fields: seq<Field>, id: string, kind: FieldType, drop: DropPoint, zoom: real, currentPage: int)
    requires zoom > 0.0
    ensures var f := DroppedField(id, kind, drop, zoom, currentPage);
            CurrentPageFields(fields + [f], currentPage) == CurrentPageFields(fields, currentPage) + [f]
  {
    var f := DroppedField(id, kind, drop, zoom, currentPage);
    CurrentPageFieldsKeepOrder(fields, [f], currentPage);
    assert [f][1..] == [];
  }

  /**
   * The canvas and the PDF service disagree on a field without a page: the
   * service puts it on page 1, the canvas never shows it, not even on page 1.
   */
  lemma PagelessFieldIsNeverShown(fields: seq<Field>, f: Field, currentPage: int)
    requires f.page.None?
    ensures PdfService.PageKey(f) == 1 && f !in CurrentPageFields(fields, currentPage)
  {
  }
}
