/** The key/value table editor used for parameters, headers and
    environment variables: editing a cell, ticking a row on or off, and
    deleting a row. The table keeps an empty row at its end to type into,
    and never loses its last row. */
module KeyValueEditor {
  import opened Wrappers
  import opened Seqs
  import opened Types

  /** The cell being edited: `'key' | 'value'`. */
  datatype Field = KeyField | ValueField

  function SetField(item: KeyValueItem, field: Field, text: string): KeyValueItem {
    match field
    case KeyField => item.(key := text)
    case ValueField => item.(value := text)
  }

  /** The `map` of `handleChange`: each row with id `id` takes `text` in
      the edited cell. */
  function Edited(items: seq<KeyValueItem>, id: string, field: Field, text: string): (r: seq<KeyValueItem>)
    ensures |r| == |items|
  {
    seq(|items|, i requires 0 <= i < |items| => if items[i].id == id then SetField(items[i], field, text) else items[i])
  }

  /** `handleChange`. `newId` is the id drawn when a row is added. On an
      empty table the read of the last row's `key` throws. */
  function Change(items: seq<KeyValueItem>, id: string, field: Field, text: string, newId: string): (r: Outcome<seq<KeyValueItem>>)
    ensures r.Threw? <==> items == []
  {
    var edited := Edited(items, id, field, text);
    if edited == [] then Threw
    else
      var last := edited[|edited| - 1];
      if last.key != "" || last.value != "" then Done(edited + [EmptyRow(newId)]) else Done(edited)
  }

  /** An edit writes only the chosen cell of the rows with the given id:
      every row keeps its id, its enabled flag and its other cell, and a
      row with another id is unchanged. */
  lemma ChangeWritesOneCell(items: seq<KeyValueItem>, id: string, field: Field, text: string, newId: string)
    requires items != []
    ensures var r := Change(items, id, field, text, newId).value;
      && |items| <= |r|
      && (forall i :: 0 <= i < |items| ==> r[i].id == items[i].id && r[i].enabled == items[i].enabled)
      && (forall i :: 0 <= i < |items| && items[i].id != id ==> r[i] == items[i])
      && (forall i :: 0 <= i < |items| && items[i].id == id ==>
            if field == KeyField then r[i].key == text && r[i].value == items[i].value
            else r[i].value == text && r[i].key == items[i].key)
  {
    var r := Change(items, id, field, text, newId).value;
    assert forall i :: 0 <= i < |items| ==> r[i] == Edited(items, id, field, text)[i];
  }

  /** After an edit exactly one empty enabled row is added when the last
      row has a key or a value, and none otherwise; either way the table
      ends with a row whose key and value are empty. */
  lemma ChangeKeepsTrailingRow(items: seq<KeyValueItem>, id: string, field: Field, text: string, newId: string)
    requires items != []
    ensures var edited := Edited(items, id, field, text);
      var last := edited[|edited| - 1];
      var r := Change(items, id, field, text, newId).value;
      && (last.key != "" || last.value != "" ==> r == edited + [EmptyRow(newId)] && IsEmptyRow(r[|r| - 1]))
      && (last.key == "" && last.value == "" ==> r == edited)
      && r[|r| - 1].key == "" && r[|r| - 1].value == ""
  {
  }

  /** Editing a row other than the trailing empty one leaves the table's
      length unchanged. */
  lemma ChangeAboveTrailingRow(items: seq<KeyValueItem>, id: string, field: Field, text: string, newId: string)
    requires items != [] && items[|items| - 1].id != id
    requires items[|items| - 1].key == "" && items[|items| - 1].value == ""
    ensures Change(items, id, field, text, newId) == Done(Edited(items, id, field, text))
  {
  }

  /** `handleToggle`: the rows with id `id` switch between enabled and
      disabled; nothing else changes. */
  function Toggle(items: seq<KeyValueItem>, id: string): (r: seq<KeyValueItem>)
    ensures |r| == |items|
    ensures forall i :: 0 <= i < |r| ==> r[i].enabled == (items[i].enabled != (items[i].id == id))
    ensures forall i :: 0 <= i < |r| ==> r[i].(enabled := items[i].enabled) == items[i]
  {
    seq(|items|, i requires 0 <= i < |items| => if items[i].id == id then items[i].(enabled := !items[i].enabled) else items[i])
  }

  /** Toggling twice restores the table. */
  lemma ToggleTwice(items: seq<KeyValueItem>, id: string)
    ensures Toggle(Toggle(items, id), id) == items
  {
    var r := Toggle(Toggle(items, id), id);
    assert forall i :: 0 <= i < |items| ==> r[i] == items[i];
  }

  function OtherRow(id: string): KeyValueItem -> bool {
    (item: KeyValueItem) => item.id != id
  }

  /** `handleDelete`: a table of one row (or none) is kept; otherwise the
      rows with id `id` are removed. */
  function Delete(items: seq<KeyValueItem>, id: string): (r: seq<KeyValueItem>)
    ensures |items| <= 1 ==> r == items
    ensures |items| > 1 ==> forall i :: 0 <= i < |r| ==> r[i].id != id
    ensures |items| > 1 ==> forall i :: 0 <= i < |items| && items[i].id != id ==> items[i] in r
    ensures |items| > 1 ==> forall item :: multiset(r)[item] == if item.id != id then multiset(items)[item] else 0
    ensures IsSubsequence(r, items)
  {
    if |items| <= 1 then
      assert IsSubsequence(items, items) by {
        if items != [] {
          assert items[1..] == [];
        }
      }
      items
    else
      var r := Filter(items, OtherRow(id));
      FilterCounts(items, OtherRow(id));
      assert forall i :: 0 <= i < |r| ==> OtherRow(id)(r[i]);
      assert forall i :: 0 <= i < |items| && items[i].id != id ==> OtherRow(id)(items[i]);
      r
  }

  /** With distinct ids a deletion removes at most one row, so a table of
      two rows or more is never emptied. */
  lemma DeleteRemovesAtMostOne(items: seq<KeyValueItem>, id: string)
    requires DistinctIds(items)
    ensures |Delete(items, id)| >= |items| - 1
    ensures items != [] ==> Delete(items, id) != []
  {
    if |items| > 1 {
      FilterOneOut(items, id);
    }
  }

  lemma {:induction false} FilterOneOut(items: seq<KeyValueItem>, id: string)
    requires DistinctIds(items)
    ensures |Filter(items, OtherRow(id))| >= |items| - 1
  {
    if items != [] {
      var rest := items[1..];
      assert DistinctIds(rest) by {
        forall i, j | 0 <= i < j < |rest| ensures rest[i].id != rest[j].id {
          assert rest[i] == items[i + 1] && rest[j] == items[j + 1];
        }
      }
      if items[0].id == id {
        assert forall i :: 0 <= i < |rest| ==> OtherRow(id)(rest[i]) by {
          forall i | 0 <= i < |rest| ensures rest[i].id != id {
            assert rest[i] == items[i + 1];
          }
        }
        FilterAll(rest, OtherRow(id));
      } else {
        FilterOneOut(rest, id);
      }
    }
  }
}
