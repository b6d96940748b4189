/**
 * The layout builder page: its field list, its selection and its linear undo
 * history (a list of snapshots and the index of the current one).
 *
 * The page's handlers are the methods of `FormBuilderPage`; each is specified
 * by a function on `EditorState`, the page's whole state as a value, and the
 * history's promises are proved about those functions.
 */
module FormBuilder {
  import opened FieldModel
  import opened FieldList

  datatype EditorState = EditorState(
    fields: seq<Field>,
    selected: Option<string>,
    history: seq<seq<Field>>,
    index: int)

  /** The state the page mounts with: no fields, nothing selected, an empty history at index -1. */
  const Initial := EditorState([], None, [], -1)

  /**
   * The index points into the history, or is -1 only before the first
   * snapshot; once there is one, the fields shown are the current snapshot.
   */
  predicate Valid(s: EditorState) {
    -1 <= s.index < |s.history| &&
    (s.index == -1 ==> s.history == [] && s.fields == []) &&
    (s.index >= 0 ==> s.fields == s.history[s.index])
  }

  /**
   * `addToHistory(newFields)`: drop every snapshot after the current one, append
   * the new one and make it current. Nothing else of the state changes.
   */
  function Record(s: EditorState, newFields: seq<Field>): (r: EditorState)
    requires -1 <= s.index < |s.history|
    ensures r.fields == s.fields && r.selected == s.selected
    ensures |r.history| == s.index + 2 && r.index == |r.history| - 1
    ensures r.history[..s.index + 1] == s.history[..s.index + 1]
    ensures r.history[r.index] == newFields
  {
    var newHistory := s.history[..s.index + 1] + [newFields];
    s.(history := newHistory, index := |newHistory| - 1)
  }

  /** `handleFieldAdd(field)`: append, record, select the new field. */
  function AddField(s: EditorState, field: Field): (r: EditorState)
    requires Valid(s)
    ensures Valid(r)
    ensures r.fields == s.fields + [field] && r.selected == Some(field.id)
    ensures r.index == s.index + 1 && r.history[..s.index + 1] == s.history[..s.index + 1]
  {
    var newFields := s.fields + [field];
    Record(s.(fields := newFields, selected := Some(field.id)), newFields)
  }

  /**
   * `handleFieldUpdate(id, updatedField)`: a null or empty id only clears the
   * selection; otherwise every field with the id is replaced and the new list recorded.
   */
  function UpdateField(s: EditorState, id: Option<string>, updated: Option<Field>): (r: EditorState)
    requires Valid(s) && (!IsNullId(id) ==> updated.Some?)
    ensures Valid(r)
    ensures IsNullId(id) ==> r == s.(selected := None)
    ensures !IsNullId(id) ==>
              r.selected == s.selected && |r.fields| == |s.fields| &&
              (forall i :: 0 <= i < |s.fields| ==>
                 r.fields[i] == if s.fields[i].id == id.value then updated.value else s.fields[i]) &&
              r.index == s.index + 1 && r.history[..s.index + 1] == s.history[..s.index + 1] &&
              |r.history| == r.index + 1
  {
    if IsNullId(id) then s.(selected := None)
    else
      var newFields := ReplaceById(s.fields, id.value, updated.value);
      Record(s.(fields := newFields), newFields)
  }

  /** `handleFieldDelete(id)`: drop every field with the id, record, clear the selection. */
  function DeleteField(s: EditorState, id: string): (r: EditorState)
    requires Valid(s)
    ensures Valid(r) && r.selected == None
    ensures forall f :: f in r.fields <==> f in s.fields && f.id != id
    ensures r.index == s.index + 1 && r.history[..s.index + 1] == s.history[..s.index + 1] &&
            |r.history| == r.index + 1
    ensures r.fields == RemoveById(s.fields, id) && r.history[r.index] == r.fields
  {
    var newFields := RemoveById(s.fields, id);
    Record(s.(fields := newFields, selected := None), newFields)
  }

  /** `handleUndo`: step back one snapshot when there is an earlier one. */
  function Undo(s: EditorState): (r: EditorState)
    requires Valid(s)
    ensures Valid(r) && r.history == s.history && r.selected == s.selected
    ensures s.index > 0 ==> r.index == s.index - 1 && r.fields == s.history[s.index - 1]
    ensures s.index <= 0 ==> r == s
  {
    if s.index > 0 then s.(index := s.index - 1, fields := s.history[s.index - 1]) else s
  }

  /** `handleRedo`: step forward one snapshot when there is a later one. */
  function Redo(s: EditorState): (r: EditorState)
    requires Valid(s)
    ensures Valid(r) && r.history == s.history && r.selected == s.selected
    ensures s.index < |s.history| - 1 ==> r.index == s.index + 1 && r.fields == s.history[s.index + 1]
    ensures s.index >= |s.history| - 1 ==> r == s
  {
    if s.index < |s.history| - 1 then s.(index := s.index + 1, fields := s.history[s.index + 1]) else s
  }

  /** `handleClear`: when the user confirms, empty the list, clear the selection and record the empty list. */
  function Clear(s: EditorState, confirmed: bool): (r: EditorState)
    requires Valid(s)
    ensures Valid(r)
    ensures !confirmed ==> r == s
    ensures confirmed ==> r.fields == [] && r.selected == None &&
                          r.index == s.index + 1 && r.history[..s.index + 1] == s.history[..s.index + 1] &&
                          |r.history| == r.index + 1
  {
    if confirmed then Record(s.(fields := [], selected := None), []) else s
  }

  /**
   * The list update of `handleLoadLayout`. `parsed` is None when no file was
   * chosen, its text does not parse, or it parses to `null` (the page then only
   * alerts). Any other JSON value gives `Some`, holding the value's `fields`,
   * or None when it has none (a number, a string or an array has none).
   * The list becomes `layout.fields || []` and is recorded; the selection stays.
   */
  function LoadLayout(s: EditorState, parsed: Option<Option<seq<Field>>>): (r: EditorState)
    requires Valid(s)
    ensures Valid(r)
    ensures parsed.None? ==> r == s
    ensures parsed.Some? ==> r.fields == parsed.value.GetOr([]) && r.selected == s.selected &&
                             r.index == s.index + 1 && r.history[..s.index + 1] == s.history[..s.index + 1] &&
                             |r.history| == r.index + 1
  {
    if parsed.None? then s
    else
      var newFields := parsed.value.GetOr([]);
      Record(s.(fields := newFields), newFields)
  }

  /** The body posted by `handleExport`. */
  datatype ExportRequest = ExportRequest(fields: seq<Field>, pageSize: PageSize)

  // ---------------------------------------------------------------------------
  // The history's promises

  /** The page mounts in a valid state, where neither undo nor redo has anything to do. */
  lemma InitialIsValid()
    ensures Valid(Initial) && Undo(Initial) == Initial && Redo(Initial) == Initial
  {
  }

  /** An allowed undo followed by redo restores the index and the fields. */
  lemma UndoThenRedo(s: EditorState)
    requires Valid(s) && s.index > 0
    ensures Redo(Undo(s)) == s
  {
  }

  /** An allowed redo followed by undo restores the index and the fields. */
  lemma RedoThenUndo(s: EditorState)
    requires Valid(s) && s.index < |s.history| - 1
    ensures Undo(Redo(s)) == s
  {
  }

  /** An edit discards the redo branch: right after an add, redo does nothing. */
  lemma AddEndsRedo(s: EditorState, field: Field)
    requires Valid(s)
    ensures Redo(AddField(s, field)) == AddField(s, field)
  {
  }

  /** Once a snapshot has been recorded, undo right after an add shows the list as it was before the add. */
  lemma UndoRevertsAdd(s: EditorState, field: Field)
    requires Valid(s) && s.index >= 0
    ensures Undo(AddField(s, field)).fields == s.fields
  {
    var r := AddField(s, field);
    assert r.history[s.index] == r.history[..s.index + 1][s.index];
  }

  /**
   * The history starts empty, so the first add records the first snapshot at
   * index 0, where undo does nothing: the first field added to an empty
   * builder cannot be undone.
   */
  lemma FirstAddCannotBeUndone(field: Field)
    ensures Undo(AddField(Initial, field)) == AddField(Initial, field)
    ensures Undo(AddField(Initial, field)).fields == [field]
  {
    InitialIsValid();
  }

  /** Undo right after a delete shows the list as it was before the delete. */
  lemma UndoRevertsDelete(s: EditorState, id: string)
    requires Valid(s) && s.index >= 0
    ensures Undo(DeleteField(s, id)).fields == s.fields
  {
    var r := DeleteField(s, id);
    assert r.history[s.index] == r.history[..s.index + 1][s.index];
  }

  /** A click on the Undo or the Redo button. */
  datatype Nav = UndoClick | RedoClick

  function Navigate(s: EditorState, clicks: seq<Nav>): (r: EditorState)
    requires Valid(s)
    ensures Valid(r)
    decreases |clicks|
  {
    if clicks == [] then s
    else Navigate(if clicks[0] == UndoClick then Undo(s) else Redo(s), clicks[1..])
  }

  /**
   * Any run of undo and redo clicks leaves the snapshots and the selection as
   * they were and shows one of the snapshots: it only moves the index.
   */
  lemma {:induction false} NavigateKeepsSnapshots(s: EditorState, clicks: seq<Nav>)
    requires Valid(s)
    ensures var r := Navigate(s, clicks);
            r.history == s.history && r.selected == s.selected && (s.index >= 0 ==> r.index >= 0)
    decreases |clicks|
  {
    if clicks != [] {
      var next := if clicks[0] == UndoClick then Undo(s) else Redo(s);
      NavigateKeepsSnapshots(next, clicks[1..]);
    }
  }

  /** Undoing k times from index i, with k <= i, lands on snapshot i - k. */
  lemma {:induction false} UndoRepeatedly(s: EditorState, k: nat)
    requires Valid(s) && k <= s.index
    ensures var r := Navigate(s, seq(k, _ => UndoClick));
            r.index == s.index - k && r.fields == s.history[s.index - k]
    decreases k
  {
    if k > 0 {
      var clicks := seq(k, _ => UndoClick);
      assert clicks[0] == UndoClick && clicks[1..] == seq(k - 1, _ => UndoClick);
      UndoRepeatedly(Undo(s), k - 1);
    }
  }

  // ---------------------------------------------------------------------------
  // The page

  class FormBuilderPage {
    var fields: seq<Field>
    var selectedFieldId: Option<string>
    var history: seq<seq<Field>>
    var historyIndex: int
    /** The page size is never changed from US Letter. */
    const pageSize: PageSize

    function State(): EditorState
      reads this
    {
      EditorState(fields, selectedFieldId, history, historyIndex)
    }

    constructor()
      ensures State() == Initial && pageSize == Letter
    {
      fields := [];
      selectedFieldId := None;
      history := [];
      historyIndex := -1;
      pageSize := Letter;
    }

    /** `addToHistory`: slice up to the current index, push the snapshot, point at it. */
    method AddToHistory(newFields: seq<Field>)
      requires -1 <= historyIndex < |history|
      modifies this
      ensures State() == Record(old(State()), newFields)
    {
      var newHistory := history[..historyIndex + 1];
      newHistory := newHistory + [newFields];
      history := newHistory;
      historyIndex := |newHistory| - 1;
    }

    method HandleFieldAdd(field: Field)
      requires Valid(State())
      modifies this
      ensures State() == AddField(old(State()), field)
    {
      var newFields := fields + [field];
      fields := newFields;
      AddToHistory(newFields);
      selectedFieldId := Some(field.id);
    }

    method HandleFieldUpdate(id: Option<string>, updatedField: Option<Field>)
      requires Valid(State()) && (!IsNullId(id) ==> updatedField.Some?)
      modifies this
      ensures State() == UpdateField(old(State()), id, updatedField)
    {
      if IsNullId(id) {
        selectedFieldId := None;
        return;
      }
      var newFields := ReplaceById(fields, id.value, updatedField.value);
      fields := newFields;
      AddToHistory(newFields);
    }

    method HandleFieldDelete(id: string)
      requires Valid(State())
      modifies this
      ensures State() == DeleteField(old(State()), id)
    {
      var newFields := RemoveById(fields, id);
      fields := newFields;
      AddToHistory(newFields);
      selectedFieldId := None;
    }

    method HandleUndo()
      requires Valid(State())
      modifies this
      ensures State() == Undo(old(State()))
    {
      if historyIndex > 0 {
        fields := history[historyIndex - 1];
        historyIndex := historyIndex - 1;
      }
    }

    method HandleRedo()
      requires Valid(State())
      modifies this
      ensures State() == Redo(old(State()))
    {
      if historyIndex < |history| - 1 {
        fields := history[historyIndex + 1];
        historyIndex := historyIndex + 1;
      }
    }

    /** `confirmed` is the user's answer to the confirmation dialog. */
    method HandleClear(confirmed: bool)
      requires Valid(State())
      modifies this
      ensures State() == Clear(old(State()), confirmed)
    {
      if confirmed {
        fields := [];
        selectedFieldId := None;
        AddToHistory([]);
      }
    }

    method HandleLoadLayout(parsed: Option<Option<seq<Field>>>)
      requires Valid(State())
      modifies this
      ensures State() == LoadLayout(old(State()), parsed)
    {
      if parsed.None? {
        return;
      }
      var layoutFields := parsed.value.GetOr([]);
      fields := layoutFields;
      AddToHistory(layoutFields);
    }

    /** The guard of `handleExport`: nothing is posted while the list is empty. */
    method HandleExport() returns (request: Option<ExportRequest>)
      ensures request.None? <==> fields == []
      ensures request.Some? ==> request.value.fields == fields && request.value.pageSize == pageSize
    {
      if |fields| == 0 {
        return None;
      }
      return Some(ExportRequest(fields, pageSize));
    }
  }
}
