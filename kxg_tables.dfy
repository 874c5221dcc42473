/** The id -> token table of a world, seen as a value: what a batch of
    insertions and deletions does to it, and the fact that undoing a
    message's insertions and deletions gives back the table it started
    from (kxg/messages.py, `_execute` and `_handle_hard_sync_error`). */
module Tables {

  /** The ids of a sequence, as a set. */
  function Ids(ids: seq<int>): (s: set<int>)
    ensures forall k :: k in s <==> k in ids
  {
    set k | k in ids
  }

  /** No id occurs twice. */
  predicate Distinct(ids: seq<int>)
  {
    forall i, j :: 0 <= i < j < |ids| ==> ids[i] != ids[j]
  }

  /** `table[ids[0]] = vs[0]`, then `table[ids[1]] = vs[1]`, and so on. */
  function InsertAll<V>(table: map<int, V>, ids: seq<int>, vs: seq<V>): map<int, V>
    requires |ids| == |vs|
  {
    if ids == [] then table
    else InsertAll(table, ids[..|ids| - 1], vs[..|vs| - 1])[ids[|ids| - 1] := vs[|vs| - 1]]
  }

  /** `del table[ids[0]]`, then `del table[ids[1]]`, and so on (each id
      is present when it is deleted). */
  function DeleteAll<V>(table: map<int, V>, ids: seq<int>): map<int, V>
  {
    if ids == [] then table
    else DeleteAll(table, ids[..|ids| - 1]) - {ids[|ids| - 1]}
  }

  /** Inserting distinct ids: the keys grow by exactly those ids, each
      inserted id holds its value, and every other entry is kept. */
  lemma {:induction false} InsertAllSpec<V>(table: map<int, V>, ids: seq<int>, vs: seq<V>)
    requires |ids| == |vs| && Distinct(ids)
    ensures InsertAll(table, ids, vs).Keys == table.Keys + Ids(ids)
    ensures forall i :: 0 <= i < |ids| ==> InsertAll(table, ids, vs)[ids[i]] == vs[i]
    ensures forall k :: k in table && k !in ids ==> InsertAll(table, ids, vs)[k] == table[k]
  {
    if ids != [] {
      var n := |ids| - 1;
      InsertAllSpec(table, ids[..n], vs[..n]);
      assert ids == ids[..n] + [ids[n]];
      forall i | 0 <= i < n
        ensures InsertAll(table, ids, vs)[ids[i]] == vs[i]
      {
        assert ids[..n][i] == ids[i] && vs[..n][i] == vs[i];
      }
    }
  }

  /** Deleting a batch of ids removes exactly those keys and keeps every
      other entry. */
  lemma {:induction false} DeleteAllSpec<V>(table: map<int, V>, ids: seq<int>)
    ensures DeleteAll(table, ids) == table - Ids(ids)
  {
    if ids != [] {
      var n := |ids| - 1;
      DeleteAllSpec(table, ids[..n]);
      assert ids == ids[..n] + [ids[n]];
      assert Ids(ids) == Ids(ids[..n]) + {ids[n]};
    }
  }

  /** The undo of a hard sync error restores the table: inserting fresh,
      distinct ids `added`, deleting present, distinct ids `removed`, then
      deleting `added` again and re-inserting every removed id with the
      token it held gives back the original table. */
  lemma UndoRestoresTable<V>(table: map<int, V>, added: seq<int>, addedValues: seq<V>,
                             removed: seq<int>, removedValues: seq<V>)
    requires |added| == |addedValues| && Distinct(added)
    requires forall i :: 0 <= i < |added| ==> added[i] !in table
    requires |removed| == |removedValues| && Distinct(removed)
    requires forall i :: 0 <= i < |removed| ==> removed[i] in table && table[removed[i]] == removedValues[i]
    ensures InsertAll(DeleteAll(DeleteAll(InsertAll(table, added, addedValues), removed), added),
                      removed, removedValues) == table
  {
    var t1 := InsertAll(table, added, addedValues);
    var t2 := DeleteAll(t1, removed);
    var t3 := DeleteAll(t2, added);
    var t4 := InsertAll(t3, removed, removedValues);
    InsertAllSpec(table, added, addedValues);
    DeleteAllSpec(t1, removed);
    DeleteAllSpec(t2, added);
    InsertAllSpec(t3, removed, removedValues);
    forall k | k in t3
      ensures k in table && k !in removed && t3[k] == table[k]
    {
    }
    forall k | k in table && k !in removed
      ensures k in t3
    {
    }
    forall k | k in t4
      ensures k in table && t4[k] == table[k]
    {
      if k in removed {
        var i :| 0 <= i < |removed| && removed[i] == k;
      }
    }
    forall k | k in table
      ensures k in t4
    {
    }
  }
}
