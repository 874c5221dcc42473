/** The id factory of the older engine (kxg/engine/forum_and_actor.py).
    Its `next()` and `get()` are those of the current factory (modelled by
    `IdFactories.IdFactory`), and its forum assigns offsets the same way;
    only its membership test differs: `id % spacing == offset`, which
    compares a residue with the offset itself. */
module LegacyIds {
  import opened IdFactories

  /** `IdFactory.__contains__` of the older engine, as written.  Python
      raises ZeroDivisionError for a zero spacing; for a positive divisor
      Python's floored and Dafny's Euclidean `%` agree. */
  predicate ContainsAsWritten(offset: int, spacing: nat, id: int)
    requires spacing > 0
    ensures ContainsAsWritten(offset, spacing, id) ==> 0 <= offset < spacing
  {
    id % spacing == offset
  }

  /** The ids a factory hands out are members of it, by the test as
      written, exactly when its offset is already a residue: `0 <= offset <
      spacing`. */
  lemma GeneratedIdsMemberIff(offset: int, spacing: nat, k: nat)
    requires spacing > 0
    ensures ContainsAsWritten(offset, spacing, NthId(offset, spacing, k)) <==> 0 <= offset < spacing
  {
    NthIdIsMember(offset, spacing, k);
    if 0 <= offset < spacing {
      DivModUnique(offset, spacing, 0, offset);
    }
  }

  /** The forum gives its n actors the offsets `last_id + 1 .. last_id + n`
      with spacing n, so on any world (`last_id >= 0`) the actor placed last
      gets the offset `last_id + n >= n`, and none of the ids its factory
      hands out is a member of that factory by the test as written. */
  lemma LastActorsIdsNotMembers(isReferee: seq<bool>, lastId: int, offsets: seq<int>, k: nat)
    requires IsAssignment(isReferee, lastId, offsets)
    requires lastId >= 0 && |offsets| > 0
    ensures exists a :: 0 <= a < |offsets| && offsets[a] >= |offsets| &&
                        !ContainsAsWritten(offsets[a], |offsets|, NthId(offsets[a], |offsets|, k))
  {
    var n := |offsets|;
    var a := LastPlaced(isReferee);
    GeneratedIdsMemberIff(offsets[a], n, k);
  }

  /** The actor that the stable sort places last. */
  function LastPlaced(isReferee: seq<bool>): (a: nat)
    requires |isReferee| > 0
    ensures a < |isReferee| && SortedPosition(isReferee, a) == |isReferee| - 1
  {
    var n := |isReferee|;
    CountFlagSplit(isReferee, n);
    if CountFlag(isReferee, false, n) > 0 then
      LastWith(isReferee, false, n)
    else
      LastWith(isReferee, true, n)
  }

  /** The last position below `c` whose flag is `b`, when there is one. */
  function LastWith(s: seq<bool>, b: bool, c: nat): (a: nat)
    requires c <= |s| && CountFlag(s, b, c) > 0
    ensures a < c && s[a] == b && CountFlag(s, b, a) == CountFlag(s, b, c) - 1
  {
    if s[c - 1] == b then c - 1
    else
      LastWith(s, b, c - 1)
  }
}
