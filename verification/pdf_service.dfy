/**
 * The field-placement engine of the PDF service.
 *
 * The PDF library is abstract: instead of a document, the engine produces a
 * Plan, that is the page list of the document, the names registered in its
 * form, the fields placed in order (Placement, whose backend calls are given by
 * Calls) and one Outcome per field processed. The one backend failure modelled is the form rejecting a field
 * name it already holds; the per-field try/catch turns it into a Failed outcome
 * and the loop carries on with the next field.
 */
module PdfService {
  import opened FieldModel

  /** Opaque tags for the rgb(...) colours passed to the backend. */
  datatype Color = Gray | Black | SignatureBlue | PaleYellow | PaleBlue

  datatype Style = Style(borderWidth: int, borderColor: Color, background: Option<Color>)

  datatype Rect = Rect(x: real, y: real, width: real, height: real)

  datatype WidgetKind = TextWidget | CheckBoxWidget

  /** The two embedded standard fonts. */
  datatype Font = Helvetica | HelveticaBold

  /**
   * One backend call. CreateField is `createTextField`/`createCheckBox` followed
   * by `addToPage`; pages are numbered from 1. All drawn text is black.
   */
  datatype Action =
    | CreateField(kind: WidgetKind, name: string, page: int, rect: Rect, style: Style)
    | SetText(target: string, text: string)
    | AlignLeft(target: string)
    | EnableMultiline(target: string)
    | DrawText(text: string, page: int, x: real, y: real, size: int, font: Font)

  /** Build a new document from a layout, or augment an uploaded one. */
  datatype Mode = BuildMode | AugmentMode

  datatype Outcome = Placed(id: string) | Failed(id: string) | Skipped(id: string)

  datatype Plan = Plan(pages: seq<PageSize>, formNames: set<string>, placed: seq<Placement>, outcomes: seq<Outcome>)

  datatype PageInfo = PageInfo(pageNumber: int, width: real, height: real)

  datatype PdfInfo = PdfInfo(pageCount: int, pages: seq<PageInfo>)

  // ---------------------------------------------------------------------------
  // Page information and the coordinate transform

  /** `getPdfInfo` on a loaded document whose pages have the given sizes. */
  function GetPdfInfo(pages: seq<PageSize>): (info: PdfInfo)
    ensures info.pageCount == |pages| == |info.pages|
    ensures forall i :: 0 <= i < |pages| ==>
              info.pages[i] == PageInfo(i + 1, pages[i].width, pages[i].height)
  {
    PdfInfo(|pages|, seq(|pages|, i requires 0 <= i < |pages| => PageInfo(i + 1, pages[i].width, pages[i].height)))
  }

  /**
   * Screen y (origin top-left, y down) of a box to the PDF y (origin bottom-left,
   * y up) of the same box's bottom edge.
   */
  function ConvertCoordinates(htmlY: real, fieldHeight: real, pageHeight: real): (pdfY: real)
    ensures pdfY + fieldHeight + htmlY == pageHeight
    ensures 0.0 <= htmlY && htmlY + fieldHeight <= pageHeight ==>
              0.0 <= pdfY && pdfY + fieldHeight <= pageHeight
  {
    pageHeight - htmlY - fieldHeight
  }

  lemma ConvertCoordinatesInvolutive(htmlY: real, fieldHeight: real, pageHeight: real)
    ensures ConvertCoordinates(ConvertCoordinates(htmlY, fieldHeight, pageHeight), fieldHeight, pageHeight) == htmlY
  {
  }

  // ---------------------------------------------------------------------------
  // Page grouping

  /** The page a field goes to: `field.page || 1`. */
  function PageKey(f: Field): int {
    PageOrDefault(f.page)
  }

  /** The keys of `fieldsByPage`: one per page some field is on, never 0. */
  function Keys(fields: seq<Field>): (r: set<int>)
    ensures 0 !in r
  {
    set f | f in fields :: PageKey(f)
  }

  /** The bucket `fieldsByPage[key]`: the fields with that key, in input order. */
  function Bucket(fields: seq<Field>, key: int): (r: seq<Field>)
    ensures |r| <= |fields|
    ensures forall i :: 0 <= i < |r| ==> PageKey(r[i]) == key
  {
    if fields == [] then []
    else Bucket(fields[..|fields| - 1], key) + (if PageKey(fields[|fields| - 1]) == key then [fields[|fields| - 1]] else [])
  }

  /** The bucket of a key holds exactly the fields with that key. */
  lemma {:induction false} BucketMembers(fields: seq<Field>, key: int)
    ensures forall f :: f in Bucket(fields, key) <==> f in fields && PageKey(f) == key
  {
    if fields != [] {
      var init, last := fields[..|fields| - 1], fields[|fields| - 1];
      assert fields == init + [last];
      BucketMembers(init, key);
    }
  }

  /** A key no field carries has an empty bucket. */
  lemma {:induction false} BucketEmpty(fields: seq<Field>, key: int)
    requires key !in Keys(fields)
    ensures Bucket(fields, key) == []
  {
    if fields != [] {
      var init, last := fields[..|fields| - 1], fields[|fields| - 1];
      assert fields == init + [last];
      assert Keys(init) <= Keys(fields);
      BucketEmpty(init, key);
    }
  }

  /** `Math.max(...keys, 1)`: the number of pages build mode creates. */
  function MaxKey(fields: seq<Field>): (m: int)
    ensures m >= 1
    ensures forall f :: f in fields ==> PageKey(f) <= m
    ensures m == 1 || m in Keys(fields)
  {
    if fields == [] then 1
    else
      var init, last := fields[..|fields| - 1], fields[|fields| - 1];
      assert fields == init + [last];
      var m := MaxKey(init);
      if PageKey(last) > m then PageKey(last) else m
  }

  /** The order build mode visits fields: buckets 1..n in ascending key order. */
  function BuildOrder(fields: seq<Field>, n: int): (r: seq<Field>)
    ensures forall i :: 0 <= i < |r| ==> 1 <= PageKey(r[i]) <= n
    decreases n
  {
    if n <= 0 then [] else BuildOrder(fields, n - 1) + Bucket(fields, n)
  }

  /** The build order holds exactly the fields whose key is one of 1..n. */
  lemma {:induction false} BuildOrderMembers(fields: seq<Field>, n: int)
    ensures forall f :: f in BuildOrder(fields, n) <==> f in fields && 1 <= PageKey(f) <= n
    decreases n
  {
    if n > 0 {
      BuildOrderMembers(fields, n - 1);
      BucketMembers(fields, n);
    }
  }

  /** The pages `generatePdfFromLayout` creates: n pages of the given size. */
  function BlankPages(n: nat, size: PageSize): (pages: seq<PageSize>)
    ensures |pages| == n && forall i :: 0 <= i < n ==> pages[i] == size
  {
    seq(n, _ => size)
  }

  // ---------------------------------------------------------------------------
  // Per-type placement policy, shared by both modes

  function CaptionSize(mode: Mode): int {
    if mode == BuildMode then 10 else 9
  }

  function CaptionFont(mode: Mode): Font {
    if mode == BuildMode then Helvetica else HelveticaBold
  }

  /**
   * The caption: for a non-label field with a label, one text call drawing the
   * label 5 points above the top of the box; nothing otherwise.
   */
  function Caption(mode: Mode, f: Field, page: int, pdfY: real): (r: seq<Action>)
    ensures |r| <= 1 && NoCreation(r)
    ensures r != [] <==> f.labelText != "" && !f.kind.Label?
    ensures forall i :: 0 <= i < |r| ==>
              r[i].DrawText? && r[i].text == f.labelText && r[i].page == page &&
              r[i].x == f.x && r[i].y == pdfY + f.height + 5.0
  {
    if f.labelText != "" && !f.kind.Label? then
      [DrawText(f.labelText, page, f.x, pdfY + f.height + 5.0, CaptionSize(mode), CaptionFont(mode))]
    else []
  }

  /**
   * The `switch (field.type)` of each generator. An interactive type first
   * creates its form field, named by the field's id, on the field's page with
   * its corner at (x, pdfY): a checkbox for `checkbox`, a text field for the
   * others (signatures included); nothing after that creates a field. A label
   * draws at most one text, and an unknown type, or a label when augmenting,
   * does nothing.
   */
  function Widget(mode: Mode, f: Field, page: int, pdfY: real): (r: seq<Action>)
    ensures IsInteractive(f.kind) ==>
              |r| > 0 && r[0].CreateField? && r[0].name == f.id && r[0].page == page &&
              r[0].rect.x == f.x && r[0].rect.y == pdfY &&
              (r[0].kind == CheckBoxWidget <==> f.kind == Checkbox) && NoCreation(r[1..])
    ensures !IsInteractive(f.kind) ==> NoCreation(r) && |r| <= 1
    ensures f.kind.Unknown? || (f.kind == Label && mode == AugmentMode) ==> r == []
  {
    var rect := Rect(f.x, pdfY, f.width, f.height);
    var tint := if mode == AugmentMode then Some(PaleYellow) else None;
    match f.kind
    case Text =>
      [CreateField(TextWidget, f.id, page, rect, Style(1, Gray, tint))]
      + (if mode == BuildMode && f.labelText != "" then [SetText(f.id, ""), AlignLeft(f.id)] else [])
      + [EnableMultiline(f.id)]
    case Date =>
      [CreateField(TextWidget, f.id, page, rect, Style(1, Gray, tint))]
      + (if mode == BuildMode then [SetText(f.id, "")] else [])
    case Checkbox =>
      var side := Min(f.width, f.height);
      [CreateField(CheckBoxWidget, f.id, page, Rect(f.x, pdfY, side, side), Style(1, Black, None))]
    case Signature =>
      if mode == BuildMode then
        [CreateField(TextWidget, f.id, page, rect, Style(1, SignatureBlue, None)), SetText(f.id, "")]
      else
        [CreateField(TextWidget, f.id, page, rect, Style(2, SignatureBlue, Some(PaleBlue)))]
    case Label =>
      if mode == BuildMode then
        [DrawText(if f.labelText != "" then f.labelText else "Label", page, f.x, pdfY + f.height / 2.0 - 5.0,
                  FontSizeOrDefault(f.fontSize), if f.bold then HelveticaBold else Helvetica)]
      else []
    case Unknown(_) => []
  }

  /**
   * Everything the try block of one field asks the backend to do, in order.
   * The calls of an interactive field start with the creation of a form field
   * named by the field's id and create nothing after it; the calls of any other
   * field create nothing.
   */
  function FieldActions(mode: Mode, f: Field, page: int, pdfY: real): (r: seq<Action>)
    ensures IsInteractive(f.kind) ==>
              |r| > 0 && r[0].CreateField? && r[0].name == f.id && NoCreation(r[1..])
    ensures !IsInteractive(f.kind) ==> NoCreation(r)
  {
    var widget, caption := Widget(mode, f, page, pdfY), Caption(mode, f, page, pdfY);
    assert widget != [] ==> (widget + caption)[1..] == widget[1..] + caption;
    widget + caption
  }

  // ---------------------------------------------------------------------------
  // Running the calls of one field against the form

  datatype Performed = Performed(names: set<string>, done: seq<Action>, ok: bool)

  /** The names of the form fields a sequence of calls creates. */
  function CreatedNames(actions: seq<Action>): set<string> {
    if actions == [] then {}
    else (if actions[0].CreateField? then {actions[0].name} else {}) + CreatedNames(actions[1..])
  }

  /**
   * Issues the calls in order until one creates a field under a name the form
   * already holds; that call throws, and the calls after it are not made.
   */
  function Perform(names: set<string>, acts: seq<Action>): (r: Performed)
    decreases |acts|
    ensures r.names == names + CreatedNames(r.done)
    ensures r.ok ==> r.done == acts
    ensures !r.ok ==> |r.done| < |acts| && r.done == acts[..|r.done|] &&
                      acts[|r.done|].CreateField? && acts[|r.done|].name in r.names
  {
    if acts == [] then Performed(names, [], true)
    else if acts[0].CreateField? && acts[0].name in names then Performed(names, [], false)
    else
      var next := if acts[0].CreateField? then names + {acts[0].name} else names;
      var r := Perform(next, acts[1..]);
      assert ([acts[0]] + r.done)[1..] == r.done;
      Performed(r.names, [acts[0]] + r.done, r.ok)
  }

  /** No call of the sequence creates a form field, so none of them can throw. */
  predicate NoCreation(acts: seq<Action>) {
    forall i :: 0 <= i < |acts| ==> !acts[i].CreateField?
  }

  lemma {:induction false} PerformNoCreation(names: set<string>, acts: seq<Action>)
    requires NoCreation(acts)
    ensures Perform(names, acts) == Performed(names, acts, true)
    decreases |acts|
  {
    if acts != [] {
      assert NoCreation(acts[1..]) by {
        forall i | 0 <= i < |acts[1..]| ensures !acts[1..][i].CreateField? {
          assert acts[1..][i] == acts[i + 1];
        }
      }
      PerformNoCreation(names, acts[1..]);
      assert [acts[0]] + acts[1..] == acts;
    }
  }

  /** Running one field's calls one by one agrees with the closed form used by `Step`. */
  lemma PerformFieldActions(names: set<string>, mode: Mode, f: Field, page: int, pdfY: real)
    ensures var acts := FieldActions(mode, f, page, pdfY);
            var r := Perform(names, acts);
            (r.ok <==> !(IsInteractive(f.kind) && f.id in names)) &&
            (r.ok ==> r.done == acts && r.names == names + (if IsInteractive(f.kind) then {f.id} else {})) &&
            (!r.ok ==> r.done == [] && r.names == names)
  {
    var acts := FieldActions(mode, f, page, pdfY);
    if IsInteractive(f.kind) {
      if f.id !in names {
        PerformNoCreation(names + {f.id}, acts[1..]);
        assert [acts[0]] + acts[1..] == acts;
      }
    } else {
      PerformNoCreation(names, acts);
    }
  }

  // ---------------------------------------------------------------------------
  // The loop over fields, as a specification

  /** A field whose try block ran to completion: its type's calls, then its caption. */
  datatype Placement = Placement(mode: Mode, field: Field, page: int, pdfY: real)

  function Calls(p: Placement): seq<Action> {
    FieldActions(p.mode, p.field, p.page, p.pdfY)
  }

  predicate OnExistingPage(f: Field, pages: seq<PageSize>) {
    1 <= PageKey(f) <= |pages|
  }

  /**
   * One iteration of either generator's field loop. The only call of a try
   * block that can throw is its first, the creation of the form field; when
   * it throws, nothing of the field reaches the document.
   */
  function Step(mode: Mode, plan: Plan, f: Field): (next: Plan)
    ensures next.pages == plan.pages
  {
    if !OnExistingPage(f, plan.pages) then
      plan.(outcomes := plan.outcomes + [Skipped(f.id)])
    else if IsInteractive(f.kind) && f.id in plan.formNames then
      plan.(outcomes := plan.outcomes + [Failed(f.id)])
    else
      var page := PageKey(f);
      var pdfY := ConvertCoordinates(f.y, f.height, plan.pages[page - 1].height);
      Plan(plan.pages, plan.formNames + (if IsInteractive(f.kind) then {f.id} else {}),
           plan.placed + [Placement(mode, f, page, pdfY)], plan.outcomes + [Placed(f.id)])
  }

  /** The field loop of either generator, one `Step` per field in order. */
  function PlaceAll(mode: Mode, plan: Plan, fields: seq<Field>): (r: Plan)
    ensures r.pages == plan.pages
  {
    if fields == [] then plan
    else Step(mode, PlaceAll(mode, plan, fields[..|fields| - 1]), fields[|fields| - 1])
  }

  /** Every field's page key is positive: otherwise the page lookup throws outside the try. */
  predicate BuildPagesValid(fields: seq<Field>) {
    forall f :: f in fields ==> PageKey(f) >= 1
  }

  /** `generatePdfFromLayout(fields, pageSize)`. */
  function BuildSpec(fields: seq<Field>, pageSize: PageSize): (r: Plan)
    requires BuildPagesValid(fields)
    ensures r.pages == BlankPages(MaxKey(fields), pageSize)
    ensures r.formNames == PlacedIds(r.placed)
  {
    var n := MaxKey(fields);
    var start := Plan(BlankPages(n, pageSize), {}, [], []);
    assert PlacedIds([]) == {};
    PlaceAllTracksNames(BuildMode, start, {}, BuildOrder(fields, n));
    PlaceAll(BuildMode, start, BuildOrder(fields, n))
  }

  /** `addFieldsToExistingPdf` on a document with the given pages and form field names. */
  function AugmentSpec(pages: seq<PageSize>, existingNames: set<string>, fields: seq<Field>): (r: Plan)
    ensures r.pages == pages
    ensures r.formNames == existingNames + PlacedIds(r.placed)
  {
    var start := Plan(pages, existingNames, [], []);
    assert PlacedIds([]) == {};
    PlaceAllTracksNames(AugmentMode, start, existingNames, fields);
    PlaceAll(AugmentMode, start, fields)
  }

  // ---------------------------------------------------------------------------
  // Lemmas about one step

  /** `Step` on a field whose page exists, with the page and the converted y named. */
  lemma StepOnPage(mode: Mode, plan: Plan, f: Field, p: Placement)
    requires OnExistingPage(f, plan.pages)
    requires p == Placement(mode, f, PageKey(f), ConvertCoordinates(f.y, f.height, plan.pages[PageKey(f) - 1].height))
    ensures IsInteractive(f.kind) && f.id in plan.formNames ==>
              Step(mode, plan, f) == plan.(outcomes := plan.outcomes + [Failed(f.id)])
    ensures !(IsInteractive(f.kind) && f.id in plan.formNames) ==>
              Step(mode, plan, f) == Plan(plan.pages, plan.formNames + (if IsInteractive(f.kind) then {f.id} else {}),
                                          plan.placed + [p], plan.outcomes + [Placed(f.id)])
  {
  }

  /**
   * `Step` on a field whose page exists is the try block: the field's calls run
   * one by one until one throws. When none throws, the field is placed with all
   * of its calls made, and the form gains exactly the names those calls create.
   */
  lemma StepPlaces(mode: Mode, plan: Plan, f: Field)
    requires OnExistingPage(f, plan.pages)
    ensures var page := PageKey(f);
            var p := Placement(mode, f, page, ConvertCoordinates(f.y, f.height, plan.pages[page - 1].height));
            var r := Perform(plan.formNames, Calls(p));
            r.ok ==> r.done == Calls(p) &&
                     Step(mode, plan, f) == Plan(plan.pages, r.names, plan.placed + [p], plan.outcomes + [Placed(f.id)])
  {
    var page := PageKey(f);
    var pdfY := ConvertCoordinates(f.y, f.height, plan.pages[page - 1].height);
    var p := Placement(mode, f, page, pdfY);
    StepOnPage(mode, plan, f, p);
    PerformFieldActions(plan.formNames, mode, f, page, pdfY);
  }

  /**
   * When a call of the try block throws (the form already holds the name), the
   * field is reported as failed, none of its calls reaches the document and
   * the form is unchanged.
   */
  lemma StepFails(mode: Mode, plan: Plan, f: Field)
    requires OnExistingPage(f, plan.pages)
    ensures var page := PageKey(f);
            var p := Placement(mode, f, page, ConvertCoordinates(f.y, f.height, plan.pages[page - 1].height));
            var r := Perform(plan.formNames, Calls(p));
            !r.ok ==> r.done == [] && r.names == plan.formNames &&
                      Step(mode, plan, f) == plan.(outcomes := plan.outcomes + [Failed(f.id)])
  {
    var page := PageKey(f);
    var pdfY := ConvertCoordinates(f.y, f.height, plan.pages[page - 1].height);
    StepOnPage(mode, plan, f, Placement(mode, f, page, pdfY));
    PerformFieldActions(plan.formNames, mode, f, page, pdfY);
  }

  /** A field off the page range is skipped: it leaves the form and the document as they were. */
  lemma StepSkipsOffPage(mode: Mode, plan: Plan, f: Field)
    requires !OnExistingPage(f, plan.pages)
    ensures var next := Step(mode, plan, f);
            next.formNames == plan.formNames && next.placed == plan.placed &&
            next.outcomes == plan.outcomes + [Skipped(f.id)]
  {
  }

  /** In augment mode a label field registers no name, and if placed, it has no call to make. */
  lemma AugmentLabelIsInert(plan: Plan, f: Field)
    requires f.kind == Label
    ensures var next := Step(AugmentMode, plan, f);
            next.formNames == plan.formNames &&
            |plan.placed| <= |next.placed| &&
            forall i :: |plan.placed| <= i < |next.placed| ==> Calls(next.placed[i]) == []
  {
  }

  // ---------------------------------------------------------------------------
  // Lemmas about the loop

  lemma PlaceAllSnoc(mode: Mode, plan: Plan, fields: seq<Field>, f: Field)
    ensures PlaceAll(mode, plan, fields + [f]) == Step(mode, PlaceAll(mode, plan, fields), f)
  {
    assert (fields + [f])[..|fields|] == fields;
  }

  lemma {:induction false} PlaceAllAppend(mode: Mode, plan: Plan, a: seq<Field>, b: seq<Field>)
    ensures PlaceAll(mode, plan, a + b) == PlaceAll(mode, PlaceAll(mode, plan, a), b)
    decreases |b|
  {
    if b == [] {
      assert a + b == a;
    } else {
      var init, last := b[..|b| - 1], b[|b| - 1];
      assert a + b == (a + init) + [last];
      assert b == init + [last];
      PlaceAllSnoc(mode, plan, a + init, last);
      PlaceAllSnoc(mode, PlaceAll(mode, plan, a), init, last);
      PlaceAllAppend(mode, plan, a, init);
    }
  }

  /**
   * The placements a run over `fields` with outcomes `outs` records: one for
   * each field whose outcome is `Placed`, in input order, on the page its key
   * names, with its y flipped against that page's height.
   */
  function PlacementsOf(mode: Mode, pages: seq<PageSize>, fields: seq<Field>, outs: seq<Outcome>): (r: seq<Placement>)
    requires |outs| == |fields|
    ensures |r| <= |fields|
  {
    if fields == [] then []
    else
      var k := |fields| - 1;
      PlacementsOf(mode, pages, fields[..k], outs[..k]) + PlacementOf(mode, pages, fields[k], outs[k])
  }

  /** The placement one field's outcome records: none unless it is `Placed`. */
  function PlacementOf(mode: Mode, pages: seq<PageSize>, f: Field, o: Outcome): seq<Placement> {
    if o.Placed? && OnExistingPage(f, pages)
    then [Placement(mode, f, PageKey(f), ConvertCoordinates(f.y, f.height, pages[PageKey(f) - 1].height))]
    else []
  }

  /** Each recorded placement is of a listed field, on the page its key names, with its y flipped against that page. */
  lemma {:induction false} PlacementsOfPages(mode: Mode, pages: seq<PageSize>, fields: seq<Field>, outs: seq<Outcome>)
    requires |outs| == |fields|
    ensures forall p :: p in PlacementsOf(mode, pages, fields, outs) ==>
              p.mode == mode && p.field in fields && OnExistingPage(p.field, pages) && p.page == PageKey(p.field) &&
              p.pdfY == ConvertCoordinates(p.field.y, p.field.height, pages[p.page - 1].height)
    decreases |fields|
  {
    if fields != [] {
      var k := |fields| - 1;
      PlacementsOfPages(mode, pages, fields[..k], outs[..k]);
      forall p | p in PlacementsOf(mode, pages, fields[..k], outs[..k]) ensures p.field in fields {
        assert p.field in fields[..k];
      }
    }
  }

  /**
   * The loop appends to `placed` exactly the placements of the fields it
   * reports as `Placed`, in input order, each on the page its key names.
   */
  lemma {:induction false} PlaceAllPlacements(mode: Mode, plan: Plan, fields: seq<Field>)
    ensures var r := PlaceAll(mode, plan, fields);
            |r.outcomes| == |plan.outcomes| + |fields| &&
            r.placed == plan.placed + PlacementsOf(mode, plan.pages, fields, r.outcomes[|plan.outcomes|..])
    decreases |fields|
  {
    if fields == [] {
      assert plan.placed + [] == plan.placed;
    } else {
      var k := |fields| - 1;
      var init, last := fields[..k], fields[k];
      PlaceAllPlacements(mode, plan, init);
      var prev := PlaceAll(mode, plan, init);
      var r := PlaceAll(mode, plan, fields);
      assert r == Step(mode, prev, last);
      StepPlacement(mode, prev, last);
      var outs := r.outcomes[|plan.outcomes|..];
      assert outs[..k] == prev.outcomes[|plan.outcomes|..];
    }
  }

  /** From a plan with nothing placed or reported yet, `placed` is exactly the placements the outcomes record. */
  lemma PlaceAllFromStart(mode: Mode, start: Plan, fields: seq<Field>)
    requires start.placed == [] && start.outcomes == []
    ensures var r := PlaceAll(mode, start, fields);
            |r.outcomes| == |fields| && r.placed == PlacementsOf(mode, start.pages, fields, r.outcomes)
  {
    PlaceAllPlacements(mode, start, fields);
    var r := PlaceAll(mode, start, fields);
    assert r.outcomes[0..] == r.outcomes;
  }

  /** One step appends one outcome, and to `placed` the placement that outcome records. */
  lemma StepPlacement(mode: Mode, plan: Plan, f: Field)
    ensures var next := Step(mode, plan, f);
            |next.outcomes| == |plan.outcomes| + 1 && next.outcomes[..|plan.outcomes|] == plan.outcomes &&
            next.placed == plan.placed + PlacementOf(mode, plan.pages, f, next.outcomes[|plan.outcomes|])
  {
    if OnExistingPage(f, plan.pages) {
      StepOnPage(mode, plan, f, Placement(mode, f, PageKey(f),
                 ConvertCoordinates(f.y, f.height, plan.pages[PageKey(f) - 1].height)));
    }
  }

  /**
   * Every field gets exactly one outcome, in input order, under its own id; a
   * field is skipped exactly when its page does not exist, and neither a skip
   * nor a failure stops the loop. Earlier outcomes and placements are kept.
   */
  lemma {:induction false} PlaceAllOutcomes(mode: Mode, plan: Plan, fields: seq<Field>)
    ensures var r := PlaceAll(mode, plan, fields);
            |r.outcomes| == |plan.outcomes| + |fields| && r.outcomes[..|plan.outcomes|] == plan.outcomes &&
            |plan.placed| <= |r.placed| && r.placed[..|plan.placed|] == plan.placed &&
            plan.formNames <= r.formNames
    ensures var r := PlaceAll(mode, plan, fields);
            forall i :: 0 <= i < |fields| ==>
              r.outcomes[|plan.outcomes| + i].id == fields[i].id &&
              (r.outcomes[|plan.outcomes| + i].Skipped? <==> !OnExistingPage(fields[i], plan.pages))
    decreases |fields|
  {
    if fields != [] {
      var init, last := fields[..|fields| - 1], fields[|fields| - 1];
      PlaceAllOutcomes(mode, plan, init);
      var prev := PlaceAll(mode, plan, init);
      var r := PlaceAll(mode, plan, fields);
      assert r == Step(mode, prev, last);
      assert r.outcomes[..|prev.outcomes|] == prev.outcomes;
      assert r.outcomes[..|plan.outcomes|] == prev.outcomes[..|plan.outcomes|];
      assert r.placed[..|plan.placed|] == prev.placed[..|plan.placed|] by {
        assert r.placed[..|prev.placed|] == prev.placed;
      }
      forall i | 0 <= i < |fields|
        ensures r.outcomes[|plan.outcomes| + i].id == fields[i].id &&
                (r.outcomes[|plan.outcomes| + i].Skipped? <==> !OnExistingPage(fields[i], plan.pages))
      {
        if i < |init| {
          assert r.outcomes[|plan.outcomes| + i] == prev.outcomes[|plan.outcomes| + i];
          assert fields[i] == init[i];
        }
      }
    }
  }

  /** The ids of the interactive fields among the placed ones. */
  function PlacedIds(placed: seq<Placement>): set<string> {
    set p | p in placed && IsInteractive(p.field.kind) :: p.field.id
  }

  /**
   * The form holds the names it started with plus the ids of the interactive
   * fields placed: by `CallsCreate`, exactly the names the placed fields' calls create.
   */
  predicate FormHoldsPlacedIds(plan: Plan, base: set<string>) {
    plan.formNames == base + PlacedIds(plan.placed)
  }

  lemma {:induction false} NoCreationNames(acts: seq<Action>)
    requires NoCreation(acts)
    ensures CreatedNames(acts) == {}
  {
    if acts != [] {
      assert NoCreation(acts[1..]) by {
        forall i | 0 <= i < |acts[1..]| ensures !acts[1..][i].CreateField? {
          assert acts[1..][i] == acts[i + 1];
        }
      }
      NoCreationNames(acts[1..]);
    }
  }

  /** The calls of an interactive field create exactly its id; those of any other field create nothing. */
  lemma CallsCreate(mode: Mode, f: Field, page: int, pdfY: real)
    ensures CreatedNames(FieldActions(mode, f, page, pdfY)) == if IsInteractive(f.kind) then {f.id} else {}
  {
    var acts := FieldActions(mode, f, page, pdfY);
    if IsInteractive(f.kind) {
      NoCreationNames(acts[1..]);
    } else {
      NoCreationNames(acts);
    }
  }

  lemma StepTracksNames(mode: Mode, plan: Plan, base: set<string>, f: Field)
    requires FormHoldsPlacedIds(plan, base)
    ensures FormHoldsPlacedIds(Step(mode, plan, f), base)
  {
    if OnExistingPage(f, plan.pages) && !(IsInteractive(f.kind) && f.id in plan.formNames) {
      var page := PageKey(f);
      var p := Placement(mode, f, page, ConvertCoordinates(f.y, f.height, plan.pages[page - 1].height));
      assert Step(mode, plan, f).placed == plan.placed + [p];
      assert PlacedIds(plan.placed + [p]) == PlacedIds(plan.placed) + (if IsInteractive(f.kind) then {f.id} else {});
    }
  }

  lemma {:induction false} PlaceAllTracksNames(mode: Mode, plan: Plan, base: set<string>, fields: seq<Field>)
    requires FormHoldsPlacedIds(plan, base)
    ensures FormHoldsPlacedIds(PlaceAll(mode, plan, fields), base)
    decreases |fields|
  {
    if fields != [] {
      PlaceAllTracksNames(mode, plan, base, fields[..|fields| - 1]);
      StepTracksNames(mode, PlaceAll(mode, plan, fields[..|fields| - 1]), base, fields[|fields| - 1]);
    }
  }

  /** The ids of the interactive fields of a list. */
  function InteractiveIds(fields: seq<Field>): set<string> {
    set f | f in fields && IsInteractive(f.kind) :: f.id
  }

  /** The loop registers no name other than the ids of the interactive fields it is given. */
  lemma {:induction false} PlaceAllNamesBound(mode: Mode, plan: Plan, fields: seq<Field>)
    ensures PlaceAll(mode, plan, fields).formNames <= plan.formNames + InteractiveIds(fields)
    decreases |fields|
  {
    if fields != [] {
      var init, last := fields[..|fields| - 1], fields[|fields| - 1];
      PlaceAllNamesBound(mode, plan, init);
      assert fields == init + [last];
      assert InteractiveIds(init) <= InteractiveIds(fields);
    }
  }

  /**
   * Interactive fields whose ids are pairwise distinct and new to the form are
   * never rejected: with such a list no outcome is a failure.
   */
  predicate FreshIds(names: set<string>, fields: seq<Field>) {
    forall i :: 0 <= i < |fields| && IsInteractive(fields[i].kind) ==>
      fields[i].id !in names &&
      forall j :: 0 <= j < i && IsInteractive(fields[j].kind) ==> fields[j].id != fields[i].id
  }

  lemma {:induction false} PlaceAllNeverFails(mode: Mode, plan: Plan, fields: seq<Field>)
    requires FreshIds(plan.formNames, fields)
    ensures var r := PlaceAll(mode, plan, fields);
            forall i :: |plan.outcomes| <= i < |r.outcomes| ==> !r.outcomes[i].Failed?
    decreases |fields|
  {
    PlaceAllOutcomes(mode, plan, fields);
    if fields != [] {
      var init, last := fields[..|fields| - 1], fields[|fields| - 1];
      assert FreshIds(plan.formNames, init) by {
        forall i | 0 <= i < |init| && IsInteractive(init[i].kind)
          ensures init[i].id !in plan.formNames &&
                  forall j :: 0 <= j < i && IsInteractive(init[j].kind) ==> init[j].id != init[i].id
        {
          assert init[i] == fields[i];
          forall j | 0 <= j < i ensures init[j] == fields[j] { }
        }
      }
      PlaceAllNeverFails(mode, plan, init);
      PlaceAllOutcomes(mode, plan, init);
      var prev := PlaceAll(mode, plan, init);
      PlaceAllNamesBound(mode, plan, init);
      assert last.id !in InteractiveIds(init) || !IsInteractive(last.kind) by {
        if IsInteractive(last.kind) {
          forall f | f in init && IsInteractive(f.kind) ensures f.id != last.id {
            var j :| 0 <= j < |init| && init[j] == f;
            assert fields[j] == f;
          }
        }
      }
      var r := PlaceAll(mode, plan, fields);
      assert r == Step(mode, prev, last);
      forall i | |plan.outcomes| <= i < |r.outcomes| ensures !r.outcomes[i].Failed? {
        if i < |prev.outcomes| {
          assert r.outcomes[..|prev.outcomes|] == prev.outcomes;
          assert r.outcomes[i] == prev.outcomes[i];
        }
      }
    }
  }

  // ---------------------------------------------------------------------------
  // Build mode: grouping, ordering and pages

  lemma KeysSnoc(init: seq<Field>, f: Field)
    ensures Keys(init + [f]) == Keys(init) + {PageKey(f)}
  {
  }

  lemma BucketSnoc(init: seq<Field>, f: Field, key: int)
    ensures Bucket(init + [f], key) == Bucket(init, key) + (if PageKey(f) == key then [f] else [])
  {
    assert (init + [f])[..|init|] == init;
  }

  /** Grouping keeps input order: the bucket of a concatenation is the concatenation of the buckets. */
  lemma {:induction false} BucketAppend(a: seq<Field>, b: seq<Field>, key: int)
    ensures Bucket(a + b, key) == Bucket(a, key) + Bucket(b, key)
    decreases |b|
  {
    if b == [] {
      assert a + b == a;
    } else {
      var init, last := b[..|b| - 1], b[|b| - 1];
      assert a + b == (a + init) + [last];
      assert b == init + [last];
      BucketAppend(a, init, key);
      BucketSnoc(a + init, last, key);
      BucketSnoc(init, last, key);
    }
  }

  /** A bucket holds every copy of the fields with its key and nothing else. */
  lemma {:induction false} BucketCount(fields: seq<Field>, key: int, x: Field)
    ensures multiset(Bucket(fields, key))[x] == if PageKey(x) == key then multiset(fields)[x] else 0
  {
    if fields != [] {
      var init, last := fields[..|fields| - 1], fields[|fields| - 1];
      assert fields == init + [last];
      BucketCount(init, key, x);
      assert multiset(fields) == multiset(init) + multiset{last};
    }
  }

  lemma {:induction false} BuildOrderCount(fields: seq<Field>, n: int, x: Field)
    ensures multiset(BuildOrder(fields, n))[x] == if 1 <= PageKey(x) <= n then multiset(fields)[x] else 0
    decreases n
  {
    if n <= 0 {
      assert BuildOrder(fields, n) == [];
    } else {
      var before, bucket := BuildOrder(fields, n - 1), Bucket(fields, n);
      BuildOrderCount(fields, n - 1, x);
      BucketCount(fields, n, x);
      assert BuildOrder(fields, n) == before + bucket;
      assert multiset(before + bucket)[x] == multiset(before)[x] + multiset(bucket)[x];
    }
  }

  /** When every key lies in 1..n, the build order is a permutation of the input. */
  lemma BuildOrderPermutes(fields: seq<Field>, n: int)
    requires forall f :: f in fields ==> 1 <= PageKey(f) <= n
    ensures multiset(BuildOrder(fields, n)) == multiset(fields)
  {
    forall x ensures multiset(BuildOrder(fields, n))[x] == multiset(fields)[x] {
      BuildOrderCount(fields, n, x);
    }
  }

  /** Buckets are visited in ascending key order. */
  lemma {:induction false} BuildOrderSorted(fields: seq<Field>, n: int)
    ensures forall i, j :: 0 <= i < j < |BuildOrder(fields, n)| ==>
              PageKey(BuildOrder(fields, n)[i]) <= PageKey(BuildOrder(fields, n)[j])
    decreases n
  {
    if n > 0 {
      var before, bucket := BuildOrder(fields, n - 1), Bucket(fields, n);
      BuildOrderSorted(fields, n - 1);
      var order := BuildOrder(fields, n);
      assert order == before + bucket;
      forall i, j | 0 <= i < j < |order| ensures PageKey(order[i]) <= PageKey(order[j]) {
        if j < |before| {
          assert order[i] == before[i] && order[j] == before[j];
          assert PageKey(before[i]) <= PageKey(before[j]);
        } else {
          assert order[j] == bucket[j - |before|];
          if i < |before| {
            assert order[i] == before[i];
          } else {
            assert order[i] == bucket[i - |before|];
          }
        }
      }
    }
  }

  /**
   * Build mode creates `MaxKey` pages of the requested size, including pages no
   * field is on, and gives every input field exactly one outcome, none of them
   * a skip: it visits a permutation of the input, in ascending page order.
   */
  lemma BuildPlacesEveryField(fields: seq<Field>, pageSize: PageSize)
    requires BuildPagesValid(fields)
    ensures var plan := BuildSpec(fields, pageSize);
            var order := BuildOrder(fields, MaxKey(fields));
            |plan.pages| == MaxKey(fields) && (forall i :: 0 <= i < |plan.pages| ==> plan.pages[i] == pageSize) &&
            multiset(order) == multiset(fields) && |plan.outcomes| == |order| == |fields| &&
            forall i :: 0 <= i < |order| ==> plan.outcomes[i].id == order[i].id && !plan.outcomes[i].Skipped?
    ensures var plan := BuildSpec(fields, pageSize);
            plan.placed == PlacementsOf(BuildMode, plan.pages, BuildOrder(fields, MaxKey(fields)), plan.outcomes)
  {
    var n := MaxKey(fields);
    var start := Plan(BlankPages(n, pageSize), {}, [], []);
    var order := BuildOrder(fields, n);
    BuildOrderPermutes(fields, n);
    BuildOrderMembers(fields, n);
    PlaceAllOutcomes(BuildMode, start, order);
    PlaceAllFromStart(BuildMode, start, order);
    assert |order| == |multiset(order)| == |multiset(fields)| == |fields|;
    forall i | 0 <= i < |order| ensures OnExistingPage(order[i], start.pages) {
      assert order[i] in order;
    }
  }

  /**
   * Augment mode gives every field one outcome, in input order, skipping exactly
   * the fields whose page the document lacks; the form ends up holding its old
   * names plus the ids of the interactive fields placed, and fresh distinct ids
   * are never rejected.
   */
  lemma AugmentReport(pages: seq<PageSize>, existingNames: set<string>, fields: seq<Field>)
    ensures var plan := AugmentSpec(pages, existingNames, fields);
            plan.pages == pages && |plan.outcomes| == |fields| &&
            (forall i :: 0 <= i < |fields| ==>
               plan.outcomes[i].id == fields[i].id &&
               (plan.outcomes[i].Skipped? <==> !OnExistingPage(fields[i], pages))) &&
            plan.formNames == existingNames + PlacedIds(plan.placed)
    ensures var plan := AugmentSpec(pages, existingNames, fields);
            FreshIds(existingNames, fields) ==> forall i :: 0 <= i < |plan.outcomes| ==> !plan.outcomes[i].Failed?
    ensures var plan := AugmentSpec(pages, existingNames, fields);
            plan.placed == PlacementsOf(AugmentMode, pages, fields, plan.outcomes)
  {
    var start := Plan(pages, existingNames, [], []);
    PlaceAllOutcomes(AugmentMode, start, fields);
    PlaceAllFromStart(AugmentMode, start, fields);
    assert PlacedIds([]) == {};
    PlaceAllTracksNames(AugmentMode, start, existingNames, fields);
    if FreshIds(existingNames, fields) {
      PlaceAllNeverFails(AugmentMode, start, fields);
    }
  }

  // ---------------------------------------------------------------------------
  // Per-type calls

  /** A checkbox is a square of side min(width, height) with its corner at (x, pdfY), in both modes. */
  lemma CheckboxIsSquare(mode: Mode, f: Field, page: int, pdfY: real)
    requires f.kind == Checkbox
    ensures var acts := FieldActions(mode, f, page, pdfY);
            acts[0].CreateField? && acts[0].kind == CheckBoxWidget && acts[0].name == f.id && acts[0].page == page &&
            acts[0].rect.x == f.x && acts[0].rect.y == pdfY &&
            acts[0].rect.width == acts[0].rect.height <= f.width && acts[0].rect.height <= f.height &&
            (acts[0].rect.width == f.width || acts[0].rect.width == f.height)
  {
  }

  /**
   * A build-mode label creates no form field: it draws its label, or "Label"
   * when it has none, halfway up its box less 5, at `fontSize || 12`, bold iff `bold`.
   */
  lemma BuildLabelDrawsText(f: Field, page: int, pdfY: real)
    requires f.kind == Label
    ensures var acts := FieldActions(BuildMode, f, page, pdfY);
            |acts| == 1 && NoCreation(acts) && acts[0].DrawText? &&
            acts[0].page == page && acts[0].x == f.x && acts[0].y == pdfY + f.height / 2.0 - 5.0 &&
            (f.labelText != "" ==> acts[0].text == f.labelText) && (f.labelText == "" ==> acts[0].text == "Label") &&
            acts[0].size == FontSizeOrDefault(f.fontSize) && (acts[0].font == HelveticaBold <==> f.bold)
  {
  }

  /**
   * Any field that is not a label and has a label text, unknown types included,
   * ends with its caption 5 points above its box: size 10 regular when building,
   * size 9 bold when augmenting. Other fields get no caption.
   */
  lemma CaptionRule(mode: Mode, f: Field, page: int, pdfY: real)
    ensures var acts := FieldActions(mode, f, page, pdfY);
            var widget := Widget(mode, f, page, pdfY);
            (f.labelText != "" && !f.kind.Label? ==>
               acts == widget + [DrawText(f.labelText, page, f.x, pdfY + f.height + 5.0,
                                          if mode == BuildMode then 10 else 9,
                                          if mode == BuildMode then Helvetica else HelveticaBold)]) &&
            (f.labelText == "" || f.kind.Label? ==> acts == widget)
  {
  }

  /** A field of an unknown type creates no form field; at most its caption is drawn. */
  lemma UnknownTypeGetsOnlyCaption(mode: Mode, f: Field, page: int, pdfY: real)
    requires f.kind.Unknown?
    ensures var acts := FieldActions(mode, f, page, pdfY);
            NoCreation(acts) && |acts| <= 1 && (acts == [] <==> f.labelText == "")
  {
  }

  /** x=50, y=40, height=30, fontSize 14 on a 792-point page: the label is drawn at (50, 732). */
  lemma LabelPositionExample()
    ensures var f := Field("title", Label, 50.0, 40.0, 200.0, 30.0, Some(1), "", Some(14), false);
            FieldActions(BuildMode, f, 1, ConvertCoordinates(f.y, f.height, 792.0)) ==
              [DrawText("Label", 1, 50.0, 732.0, 14, Helvetica)]
  {
  }

  // ---------------------------------------------------------------------------
  // The generators

  /** One `push` of the grouping loop keeps the dictionary equal to the buckets of the prefix. */
  lemma GroupStep(m: map<int, seq<Field>>, prefix: seq<Field>, field: Field)
    requires m.Keys == Keys(prefix)
    requires forall k :: k in m ==> m[k] == Bucket(prefix, k)
    ensures var key := PageKey(field);
            var m' := m[key := (if key in m then m[key] else []) + [field]];
            m'.Keys == Keys(prefix + [field]) &&
            forall k :: k in m' ==> m'[k] == Bucket(prefix + [field], k)
  {
    var key := PageKey(field);
    KeysSnoc(prefix, field);
    if key !in m {
      BucketEmpty(prefix, key);
    }
    forall k ensures Bucket(prefix + [field], k) == Bucket(prefix, k) + (if key == k then [field] else []) {
      BucketSnoc(prefix, field, k);
    }
  }

  /** The `forEach` that fills `fieldsByPage`. */
  method GroupByPage(fields: seq<Field>) returns (fieldsByPage: map<int, seq<Field>>)
    ensures fieldsByPage.Keys == Keys(fields)
    ensures forall k :: k in fieldsByPage ==> fieldsByPage[k] == Bucket(fields, k)
  {
    fieldsByPage := map[];
    var i := 0;
    while i < |fields|
      invariant 0 <= i <= |fields|
      invariant fieldsByPage.Keys == Keys(fields[..i])
      invariant forall k :: k in fieldsByPage ==> fieldsByPage[k] == Bucket(fields[..i], k)
    {
      var field := fields[i];
      var pageNum := PageKey(field);
      GroupStep(fieldsByPage, fields[..i], field);
      if pageNum !in fieldsByPage {
        fieldsByPage := fieldsByPage[pageNum := []];
      }
      fieldsByPage := fieldsByPage[pageNum := fieldsByPage[pageNum] + [field]];
      assert fields[..i + 1] == fields[..i] + [field];
      i := i + 1;
    }
    assert fields[..i] == fields;
  }

  /**
   * `Math.max(...Object.keys(fieldsByPage).map(Number), 1)`. The dictionary's
   * keys are exactly the fields' page keys, so the maximum is taken over those.
   */
  method MaxPage(fields: seq<Field>) returns (maxPage: int)
    ensures maxPage == MaxKey(fields)
  {
    maxPage := 1;
    var i := 0;
    while i < |fields|
      invariant 0 <= i <= |fields|
      invariant maxPage == MaxKey(fields[..i])
    {
      assert fields[..i + 1][..i] == fields[..i];
      if PageKey(fields[i]) > maxPage {
        maxPage := PageKey(fields[i]);
      }
      i := i + 1;
    }
    assert fields[..i] == fields;
  }

  /** The counting loop that adds `maxPage` pages of `pageSize`. */
  method CreatePages(maxPage: int, pageSize: PageSize) returns (pages: seq<PageSize>)
    requires maxPage >= 1
    ensures pages == BlankPages(maxPage, pageSize)
  {
    pages := [];
    var i := 1;
    while i <= maxPage
      invariant 1 <= i <= maxPage + 1
      invariant pages == BlankPages(i - 1, pageSize)
    {
      pages := pages + [pageSize];
      i := i + 1;
    }
  }

  /**
   * The try block of either generator for one field whose page exists: the
   * calls of the field's type, then its caption, run one by one; a throwing
   * call ends the block and the field is reported as failed.
   */
  method PlaceField(mode: Mode, plan: Plan, pageNum: int, pageHeight: real, field: Field) returns (next: Plan)
    requires OnExistingPage(field, plan.pages) && pageNum == PageKey(field)
    requires pageHeight == plan.pages[pageNum - 1].height
    ensures next == Step(mode, plan, field)
  {
    var pdfY := ConvertCoordinates(field.y, field.height, pageHeight);
    var placement := Placement(mode, field, pageNum, pdfY);
    var r := Perform(plan.formNames, Calls(placement));
    StepOnPage(mode, plan, field, placement);
    PerformFieldActions(plan.formNames, mode, field, pageNum, pdfY);
    if r.ok {
      next := Plan(plan.pages, r.names, plan.placed + [placement], plan.outcomes + [Placed(field.id)]);
    } else {
      next := plan.(outcomes := plan.outcomes + [Failed(field.id)]);
    }
  }

  /** The inner `for (const field of pageFields)` loop of build mode. */
  method PlacePageFields(plan: Plan, pageNum: int, pageHeight: real, pageFields: seq<Field>) returns (next: Plan)
    requires 1 <= pageNum <= |plan.pages| && pageHeight == plan.pages[pageNum - 1].height
    requires forall f :: f in pageFields ==> PageKey(f) == pageNum
    ensures next == PlaceAll(BuildMode, plan, pageFields)
  {
    next := plan;
    var j := 0;
    while j < |pageFields|
      invariant 0 <= j <= |pageFields|
      invariant next == PlaceAll(BuildMode, plan, pageFields[..j])
    {
      var field := pageFields[j];
      PlaceAllSnoc(BuildMode, plan, pageFields[..j], field);
      next := PlaceField(BuildMode, next, pageNum, pageHeight, field);
      assert pageFields[..j + 1] == pageFields[..j] + [field];
      j := j + 1;
    }
    assert pageFields[..j] == pageFields;
  }

  /** One iteration of the loop over `Object.entries(fieldsByPage)`: the bucket of `pageNum`, if any. */
  method PlaceBucket(start: Plan, plan: Plan, fields: seq<Field>, fieldsByPage: map<int, seq<Field>>, pageNum: int)
    returns (next: Plan)
    requires 1 <= pageNum <= |start.pages|
    requires fieldsByPage.Keys == Keys(fields)
    requires forall k :: k in fieldsByPage ==> fieldsByPage[k] == Bucket(fields, k)
    requires plan == PlaceAll(BuildMode, start, BuildOrder(fields, pageNum - 1))
    ensures next == PlaceAll(BuildMode, start, BuildOrder(fields, pageNum))
  {
    ghost var before, bucket := BuildOrder(fields, pageNum - 1), Bucket(fields, pageNum);
    assert BuildOrder(fields, pageNum) == before + bucket;
    PlaceAllAppend(BuildMode, start, before, bucket);
    if pageNum in fieldsByPage {
      BucketMembers(fields, pageNum);
      var pageHeight := plan.pages[pageNum - 1].height;
      next := PlacePageFields(plan, pageNum, pageHeight, fieldsByPage[pageNum]);
    } else {
      BucketEmpty(fields, pageNum);
      assert before + bucket == before;
      next := plan;
    }
  }

  /**
   * The `for (const [pageNum, pageFields] of Object.entries(fieldsByPage))` loop.
   * `Object.entries` visits integer keys in ascending order, so the buckets are
   * walked by page number; numbers with no bucket are passed over.
   */
  method PlaceBuckets(start: Plan, fields: seq<Field>, fieldsByPage: map<int, seq<Field>>, maxPage: int)
    returns (plan: Plan)
    requires 1 <= maxPage <= |start.pages|
    requires fieldsByPage.Keys == Keys(fields)
    requires forall k :: k in fieldsByPage ==> fieldsByPage[k] == Bucket(fields, k)
    ensures plan == PlaceAll(BuildMode, start, BuildOrder(fields, maxPage))
  {
    plan := start;
    var pageNum := 1;
    while pageNum <= maxPage
      invariant 1 <= pageNum <= maxPage + 1
      invariant plan == PlaceAll(BuildMode, start, BuildOrder(fields, pageNum - 1))
    {
      plan := PlaceBucket(start, plan, fields, fieldsByPage, pageNum);
      pageNum := pageNum + 1;
    }
  }

  method GeneratePdfFromLayout(fields: seq<Field>, pageSize: PageSize) returns (plan: Plan)
    requires BuildPagesValid(fields)
    ensures plan == BuildSpec(fields, pageSize)
  {
    var fieldsByPage := GroupByPage(fields);
    var maxPage := MaxPage(fields);
    var pages := CreatePages(maxPage, pageSize);
    plan := PlaceBuckets(Plan(pages, {}, [], []), fields, fieldsByPage, maxPage);
  }

  method AddFieldsToExistingPdf(pages: seq<PageSize>, existingNames: set<string>, fields: seq<Field>)
    returns (plan: Plan)
    ensures plan == AugmentSpec(pages, existingNames, fields)
  {
    var start := Plan(pages, existingNames, [], []);
    plan := start;
    var i := 0;
    while i < |fields|
      invariant 0 <= i <= |fields|
      invariant plan == PlaceAll(AugmentMode, start, fields[..i])
    {
      var field := fields[i];
      assert fields[..i + 1] == fields[..i] + [field];
      PlaceAllSnoc(AugmentMode, start, fields[..i], field);
      var pageIndex := PageOrDefault(field.page) - 1;
      if pageIndex < 0 || pageIndex >= |pages| {
        // console.warn, then continue with the next field
        plan := plan.(outcomes := plan.outcomes + [Skipped(field.id)]);
        i := i + 1;
        continue;
      }
      var pageHeight := pages[pageIndex].height;
      plan := PlaceField(AugmentMode, plan, pageIndex + 1, pageHeight, field);
      i := i + 1;
    }
    assert fields[..i] == fields;
  }
}
