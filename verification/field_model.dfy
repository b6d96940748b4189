/**
 * The field-placement record shared by the editor pages, the canvas components
 * and the PDF service, together with the defaulting rules that every consumer
 * applies to its optional attributes.
 */
module FieldModel {

  datatype Option<+T> = None | Some(value: T) {
    function GetOr(default: T): T {
      match this
      case Some(v) => v
      case None => default
    }
  }

  /** The five palette types; any other type string is kept verbatim in Unknown. */
  datatype FieldType = Text | Date | Checkbox | Signature | Label | Unknown(name: string)

  /**
   * One placed field. Coordinates are in screen space (origin top-left, y down),
   * in page points. An absent `page` or `fontSize` is None; an absent label is ""
   * (the source attribute `label` is `labelText` here, `label` being a Dafny keyword).
   */
  datatype Field = Field(
    id: string,
    kind: FieldType,
    x: real,
    y: real,
    width: real,
    height: real,
    page: Option<int>,
    labelText: string,
    fontSize: Option<int>,
    bold: bool)

  datatype PageSize = PageSize(width: real, height: real)

  /** US Letter in points, the default page size of the builder and the service. */
  const Letter := PageSize(612.0, 792.0)

  /** The type string as it appears in a layout. */
  function TypeName(kind: FieldType): string {
    match kind
    case Text => "text"
    case Date => "date"
    case Checkbox => "checkbox"
    case Signature => "signature"
    case Label => "label"
    case Unknown(name) => name
  }

  /** Types for which the service creates an interactive form field. */
  predicate IsInteractive(kind: FieldType) {
    kind.Text? || kind.Date? || kind.Checkbox? || kind.Signature?
  }

  /** JavaScript `page || 1`: an absent page and page 0 both read as page 1. */
  function PageOrDefault(page: Option<int>): (p: int)
    ensures p != 0
    ensures page.Some? && page.value != 0 ==> p == page.value
    ensures page.None? || page.value == 0 ==> p == 1
  {
    if page.Some? && page.value != 0 then page.value else 1
  }

  /** JavaScript `fontSize || 12`: an absent size and size 0 both read as 12. */
  function FontSizeOrDefault(fontSize: Option<int>): (s: int)
    ensures s != 0
    ensures fontSize.Some? && fontSize.value != 0 ==> s == fontSize.value
    ensures fontSize.None? || fontSize.value == 0 ==> s == 12
  {
    if fontSize.Some? && fontSize.value != 0 then fontSize.value else 12
  }

  function Min(a: real, b: real): (m: real)
    ensures m <= a && m <= b && (m == a || m == b)
  {
    if a <= b then a else b
  }

  function Max(a: real, b: real): (m: real)
    ensures m >= a && m >= b && (m == a || m == b)
  {
    if a >= b then a else b
  }
}
