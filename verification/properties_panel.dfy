/**
 * The properties sidebar of the selected field: the update call each input
 * makes, the fallback each numeric input applies to an unreadable or zero
 * entry, the values it shows for absent attributes, and the Duplicate and
 * Deselect buttons.
 */
module PropertiesPanel {
  import opened FieldModel
  import opened FieldList
  import FormBuilder
  import PdfService

  /** The attributes of a field record. */
  datatype Attr = IdAttr | KindAttr | XAttr | YAttr | WidthAttr | HeightAttr | PageAttr | LabelAttr | FontSizeAttr | BoldAttr

  /** The attributes on which two records differ. */
  function ChangedAttrs(a: Field, b: Field): (r: set<Attr>)
    ensures r == {} <==> a == b
  {
    (if a.id != b.id then {IdAttr} else {}) +
    (if a.kind != b.kind then {KindAttr} else {}) +
    (if a.x != b.x then {XAttr} else {}) +
    (if a.y != b.y then {YAttr} else {}) +
    (if a.width != b.width then {WidthAttr} else {}) +
    (if a.height != b.height then {HeightAttr} else {}) +
    (if a.page != b.page then {PageAttr} else {}) +
    (if a.labelText != b.labelText then {LabelAttr} else {}) +
    (if a.fontSize != b.fontSize then {FontSizeAttr} else {}) +
    (if a.bold != b.bold then {BoldAttr} else {})
  }

  /** One `handleChange(property, value)` argument pair: the editable attributes and their new value. */
  datatype Property =
    | LabelValue(text: string)
    | XValue(x: real)
    | YValue(y: real)
    | WidthValue(width: real)
    | HeightValue(height: real)
    | PageValue(page: int)
    | FontSizeValue(size: int)
    | BoldValue(bold: bool)

  function AttrOf(p: Property): Attr {
    match p
    case LabelValue(_) => LabelAttr
    case XValue(_) => XAttr
    case YValue(_) => YAttr
    case WidthValue(_) => WidthAttr
    case HeightValue(_) => HeightAttr
    case PageValue(_) => PageAttr
    case FontSizeValue(_) => FontSizeAttr
    case BoldValue(_) => BoldAttr
  }

  /** The record holds the property's value. */
  predicate HasValue(f: Field, p: Property) {
    match p
    case LabelValue(text) => f.labelText == text
    case XValue(x) => f.x == x
    case YValue(y) => f.y == y
    case WidthValue(width) => f.width == width
    case HeightValue(height) => f.height == height
    case PageValue(page) => f.page == Some(page)
    case FontSizeValue(size) => f.fontSize == Some(size)
    case BoldValue(bold) => f.bold == bold
  }

  /** `{ ...localField, [property]: value }`: the record holds the value and differs in that attribute at most. */
  function WithProperty(f: Field, p: Property): (r: Field)
    ensures HasValue(r, p)
    ensures ChangedAttrs(f, r) <= {AttrOf(p)}
  {
    match p
    case LabelValue(text) => f.(labelText := text)
    case XValue(x) => f.(x := x)
    case YValue(y) => f.(y := y)
    case WidthValue(width) => f.(width := width)
    case HeightValue(height) => f.(height := height)
    case PageValue(page) => f.(page := Some(page))
    case FontSizeValue(size) => f.(fontSize := Some(size))
    case BoldValue(bold) => f.(bold := bold)
  }

  /**
   * `handleChange`: the edited record holds the new value, differs from the
   * shown one in that attribute only, and is reported under the field's own id.
   */
  function HandleChange(localField: Field, p: Property): (c: UpdateCall)
    ensures c.id == Some(localField.id) && c.field.Some?
    ensures HasValue(c.field.value, p)
    ensures ChangedAttrs(localField, c.field.value) <= {AttrOf(p)}
  {
    UpdateCall(Some(localField.id), Some(WithProperty(localField, p)))
  }

  /**
   * Applied by a page to a list with unique ids that holds the shown record,
   * an edit replaces that record by the edited one and leaves the rest alone.
   */
  lemma HandleChangeReplacesRecord(fields: seq<Field>, i: int, p: Property)
    requires UniqueIds(fields) && 0 <= i < |fields| && fields[i].id != ""
    ensures var c := HandleChange(fields[i], p);
            ApplyUpdate(fields, c.id, c.field) == fields[i := WithProperty(fields[i], p)]
  {
    var c := HandleChange(fields[i], p);
    var after := ApplyUpdate(fields, c.id, c.field);
    forall j | 0 <= j < |fields| ensures after[j] == fields[i := WithProperty(fields[i], p)][j] {
      if j != i {
        assert fields[j].id != fields[i].id;
      }
    }
  }

  // ---------------------------------------------------------------------------
  // Numeric inputs

  /** `parseFloat(value) || fallback`, None standing for NaN: NaN and 0 both give the fallback. */
  function RealOr(parsed: Option<real>, fallback: real): (v: real)
    ensures parsed.Some? && parsed.value != 0.0 ==> v == parsed.value
    ensures parsed.None? || parsed.value == 0.0 ==> v == fallback
  {
    if parsed.Some? && parsed.value != 0.0 then parsed.value else fallback
  }

  /**
   * What the X, Y, Width, Height, Page and Font Size inputs pass to
   * `handleChange` for a parsed entry: positions fall back to 0, sizes to 20,
   * the page to 1 and the font size to 12.
   */
  function XInput(parsed: Option<real>): (p: Property)
    ensures p.XValue? && p.x == (if parsed.Some? then parsed.value else 0.0)
  {
    XValue(RealOr(parsed, 0.0))
  }

  function YInput(parsed: Option<real>): (p: Property)
    ensures p.YValue? && p.y == (if parsed.Some? then parsed.value else 0.0)
  {
    YValue(RealOr(parsed, 0.0))
  }

  function WidthInput(parsed: Option<real>): (p: Property)
    ensures p.WidthValue? && p.width != 0.0
    ensures parsed.Some? && parsed.value != 0.0 ==> p.width == parsed.value
  {
    WidthValue(RealOr(parsed, 20.0))
  }

  function HeightInput(parsed: Option<real>): (p: Property)
    ensures p.HeightValue? && p.height != 0.0
    ensures parsed.Some? && parsed.value != 0.0 ==> p.height == parsed.value
  {
    HeightValue(RealOr(parsed, 20.0))
  }

  function PageInput(parsed: Option<int>): (p: Property)
    ensures p.PageValue? && p.page != 0
    ensures parsed.Some? && parsed.value != 0 ==> p.page == parsed.value
  {
    PageValue(PageOrDefault(parsed))
  }

  function FontSizeInput(parsed: Option<int>): (p: Property)
    ensures p.FontSizeValue? && p.size != 0
    ensures parsed.Some? && parsed.value != 0 ==> p.size == parsed.value
  {
    FontSizeValue(FontSizeOrDefault(parsed))
  }

  /**
   * A readable position is taken as typed, 0 included, and an unreadable one
   * reads as 0; the size, page and font size inputs never store 0, an unreadable
   * or zero entry storing 20, 1 and 12.
   */
  lemma InputFallbacks(r: Option<real>, n: Option<int>)
    ensures XInput(r).x == (if r.Some? then r.value else 0.0)
    ensures YInput(r).y == (if r.Some? then r.value else 0.0)
    ensures WidthInput(r).width != 0.0 && HeightInput(r).height != 0.0
    ensures r.None? || r.value == 0.0 ==> WidthInput(r).width == 20.0 && HeightInput(r).height == 20.0
    ensures PageInput(n).page != 0 && FontSizeInput(n).size != 0
    ensures n.None? || n.value == 0 ==> PageInput(n).page == 1 && FontSizeInput(n).size == 12
  {
  }

  /** A page stored from the page input is the page the PDF service puts the field on. */
  lemma PageInputIsServerPage(f: Field, n: Option<int>)
    ensures var edited := WithProperty(f, PageInput(n));
            PdfService.PageKey(edited) == PageOrDefault(n) && edited.page == Some(PageOrDefault(n))
  {
  }

  // ---------------------------------------------------------------------------
  // Displayed values

  /** The values the inputs show for a record. */
  datatype Display = Display(labelText: string, page: int, fontSize: int, bold: bool)

  /** `label || ''`, `page || 1`, `fontSize || 12`, `bold || false`. */
  function Displayed(f: Field): (d: Display)
    ensures d.labelText == f.labelText && d.bold == f.bold
    ensures f.page.None? ==> d.page == 1
    ensures f.fontSize.None? ==> d.fontSize == 12
    ensures f.page.Some? && f.page.value != 0 ==> d.page == f.page.value
    ensures f.fontSize.Some? && f.fontSize.value != 0 ==> d.fontSize == f.fontSize.value
  {
    Display(f.labelText, PageOrDefault(f.page), FontSizeOrDefault(f.fontSize), f.bold)
  }

  /**
   * The panel shows the page the PDF service puts the field on, and for a
   * label field the size the built PDF draws it at.
   */
  lemma DisplayedMatchesServer(f: Field, page: int, pdfY: real)
    ensures Displayed(f).page == PdfService.PageKey(f)
    ensures f.kind == Label ==>
              PdfService.FieldActions(PdfService.BuildMode, f, page, pdfY)[0].size == Displayed(f).fontSize
  {
    if f.kind == Label {
      PdfService.BuildLabelDrawsText(f, page, pdfY);
    }
  }

  // ---------------------------------------------------------------------------
  // Duplicate and Deselect

  /**
   * `handleDuplicate`: a copy of the shown record with the new id `newId` (a
   * timestamp id in the page), 20 further right and 20 further down, reported
   * with a null id.
   */
  function HandleDuplicate(localField: Field, newId: string): (c: UpdateCall)
    ensures c.id.None? && c.field.Some?
    ensures c.field.value.id == newId && c.field.value.x == localField.x + 20.0 && c.field.value.y == localField.y + 20.0
    ensures ChangedAttrs(localField, c.field.value) <= {IdAttr, XAttr, YAttr}
  {
    UpdateCall(None, Some(localField.(id := newId, x := localField.x + 20.0, y := localField.y + 20.0)))
  }

  /** The Deselect button reports a null id and a null record. */
  const DeselectCall := UpdateCall(None, None)

  /** Deselect, through the builder page's update handler, clears the selection and changes nothing else. */
  lemma DeselectOnlyDeselects(s: FormBuilder.EditorState)
    requires FormBuilder.Valid(s)
    ensures FormBuilder.UpdateField(s, DeselectCall.id, DeselectCall.field) == s.(selected := None)
    ensures ApplyUpdate(s.fields, DeselectCall.id, DeselectCall.field) == s.fields
  {
  }

  /**
   * As written, Duplicate is lost: both pages read the null id as a deselect,
   * so the copy never reaches the list, whatever the state.
   */
  lemma DuplicateIsLost(s: FormBuilder.EditorState, localField: Field, newId: string)
    requires FormBuilder.Valid(s)
    ensures var c := HandleDuplicate(localField, newId);
            FormBuilder.UpdateField(s, c.id, c.field) == s.(selected := None) &&
            ApplyUpdate(s.fields, c.id, c.field) == s.fields
  {
  }

  /**
   * Duplicate as evidently intended: the copy goes to the page's add handler,
   * which appends it, records the new list and selects the copy.
   */
  function DuplicateIntended(s: FormBuilder.EditorState, localField: Field, newId: string): (r: FormBuilder.EditorState)
    requires FormBuilder.Valid(s)
    ensures FormBuilder.Valid(r)
    ensures var copy := localField.(id := newId, x := localField.x + 20.0, y := localField.y + 20.0);
            r.fields == s.fields + [copy] && r.selected == Some(newId) &&
            |r.fields| == |s.fields| + 1 && ChangedAttrs(localField, r.fields[|s.fields|]) <= {IdAttr, XAttr, YAttr}
  {
    FormBuilder.AddField(s, HandleDuplicate(localField, newId).field.value)
  }
}
