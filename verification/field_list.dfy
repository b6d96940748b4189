/**
 * The field-list transforms both editor pages apply to their `fields` state:
 * replace-by-id (`map`), delete-by-id (`filter`), first-match lookup (`find`)
 * and the update handler's rule that a null id only deselects.
 */
module FieldList {
  import opened FieldModel

  /** JavaScript `!id` for an id that may be null: null and "" are both falsy. */
  predicate IsNullId(id: Option<string>) {
    id.None? || id.value == ""
  }

  /**
   * The `(id, updatedField)` pair a component passes to its page's
   * `onFieldUpdate`; either part may be null.
   */
  datatype UpdateCall = UpdateCall(id: Option<string>, field: Option<Field>)

  /** No two fields of the list share an id. */
  predicate UniqueIds(fields: seq<Field>) {
    forall i, j :: 0 <= i < j < |fields| ==> fields[i].id != fields[j].id
  }

  predicate HasId(fields: seq<Field>, id: string) {
    exists i :: 0 <= i < |fields| && fields[i].id == id
  }

  /** `fields.map(f => f.id === id ? updated : f)` */
  function ReplaceById(fields: seq<Field>, id: string, updated: Field): (r: seq<Field>)
    ensures |r| == |fields|
    ensures forall i :: 0 <= i < |fields| && fields[i].id == id ==> r[i] == updated
    ensures forall i :: 0 <= i < |fields| && fields[i].id != id ==> r[i] == fields[i]
  {
    if fields == [] then []
    else [if fields[0].id == id then updated else fields[0]] + ReplaceById(fields[1..], id, updated)
  }

  /** `fields.filter(f => f.id !== id)` */
  function RemoveById(fields: seq<Field>, id: string): (r: seq<Field>)
    ensures |r| <= |fields|
    ensures forall f :: f in r <==> f in fields && f.id != id
  {
    if fields == [] then []
    else (if fields[0].id != id then [fields[0]] else []) + RemoveById(fields[1..], id)
  }

  /** `fields.find(f => f.id === id)`: the first field carrying the id. */
  function FindById(fields: seq<Field>, id: string): (r: Option<Field>)
    ensures r.None? <==> !HasId(fields, id)
    ensures r.Some? ==> exists i :: 0 <= i < |fields| && fields[i] == r.value && r.value.id == id &&
                                    forall j :: 0 <= j < i ==> fields[j].id != id
  {
    if fields == [] then None
    else if fields[0].id == id then Some(fields[0])
    else
      var r := FindById(fields[1..], id);
      assert r.Some? ==> exists i :: 1 <= i < |fields| && fields[i] == r.value && r.value.id == id &&
                                    forall j :: 1 <= j < i ==> fields[j].id != id;
      assert !HasId(fields[1..], id) <==> !HasId(fields, id) by {
        if HasId(fields, id) {
          var i :| 0 <= i < |fields| && fields[i].id == id;
          assert fields[1..][i - 1].id == id;
        }
      }
      r
  }

  /**
   * `fields.find(f => f.id === selectedFieldId)`, the `selectedField` of both
   * pages: nothing when no id is selected or no field carries it.
   */
  function SelectedField(fields: seq<Field>, selected: Option<string>): (r: Option<Field>)
    ensures r.Some? ==> selected.Some? && r.value in fields && r.value.id == selected.value
    ensures r.None? <==> selected.None? || !HasId(fields, selected.value)
  {
    if selected.None? then None else FindById(fields, selected.value)
  }

  /** With unique ids, the field `find` returns is the one at any index carrying the id. */
  lemma FindUniqueId(fields: seq<Field>, id: string, i: int)
    requires UniqueIds(fields) && 0 <= i < |fields| && fields[i].id == id
    ensures FindById(fields, id) == Some(fields[i])
  {
    var r := FindById(fields, id);
    var k :| 0 <= k < |fields| && fields[k] == r.value && r.value.id == id &&
             forall j :: 0 <= j < k ==> fields[j].id != id;
    assert k == i;
  }

  /**
   * The `handleFieldUpdate(id, updatedField)` rule of both pages on the list:
   * a null id leaves the list alone, otherwise every field with the id is replaced.
   */
  function ApplyUpdate(fields: seq<Field>, id: Option<string>, updated: Option<Field>): (r: seq<Field>)
    requires !IsNullId(id) ==> updated.Some?
    ensures IsNullId(id) ==> r == fields
    ensures !IsNullId(id) ==> |r| == |fields|
    ensures !IsNullId(id) ==>
              forall i :: 0 <= i < |fields| ==> r[i] == (if fields[i].id == id.value then updated.value else fields[i])
  {
    if IsNullId(id) then fields else ReplaceById(fields, id.value, updated.value)
  }

  /** Deleting keeps the survivors in their original order: removal distributes over concatenation. */
  lemma {:induction false} RemoveByIdKeepsOrder(a: seq<Field>, b: seq<Field>, id: string)
    ensures RemoveById(a + b, id) == RemoveById(a, id) + RemoveById(b, id)
  {
    if a == [] {
      assert a + b == b;
    } else {
      assert (a + b)[0] == a[0];
      assert (a + b)[1..] == a[1..] + b;
      RemoveByIdKeepsOrder(a[1..], b, id);
    }
  }

  /** Deleting an id that no field carries leaves the list as it was. */
  lemma {:induction false} RemoveAbsentId(fields: seq<Field>, id: string)
    requires !HasId(fields, id)
    ensures RemoveById(fields, id) == fields
  {
    if fields != [] {
      assert fields[0].id != id;
      assert !HasId(fields[1..], id) by {
        forall i | 0 <= i < |fields[1..]| ensures fields[1..][i].id != id {
          assert fields[1..][i] == fields[i + 1];
        }
      }
      RemoveAbsentId(fields[1..], id);
      assert fields == [fields[0]] + fields[1..];
    }
  }

  /** With unique ids, deleting a present id removes exactly one field. */
  lemma {:induction false} RemoveUniqueIdRemovesOne(fields: seq<Field>, id: string)
    requires UniqueIds(fields) && HasId(fields, id)
    ensures |RemoveById(fields, id)| == |fields| - 1
  {
    assert fields != [];
    assert UniqueIds(fields[1..]) by {
      forall i, j | 0 <= i < j < |fields[1..]| ensures fields[1..][i].id != fields[1..][j].id {
        assert fields[1..][i] == fields[i + 1] && fields[1..][j] == fields[j + 1];
      }
    }
    if fields[0].id == id {
      assert !HasId(fields[1..], id) by {
        forall i | 0 <= i < |fields[1..]| ensures fields[1..][i].id != id {
          assert fields[1..][i] == fields[i + 1];
        }
      }
      RemoveAbsentId(fields[1..], id);
    } else {
      assert HasId(fields[1..], id) by {
        var i :| 0 <= i < |fields| && fields[i].id == id;
        assert i > 0 && fields[1..][i - 1].id == id;
      }
      RemoveUniqueIdRemovesOne(fields[1..], id);
    }
  }
}
