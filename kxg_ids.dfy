/** Token-id generation of the current engine (kxg/forums.py): every actor
    gets an `IdFactory(offset, spacing)` that hands out
    `offset, offset + spacing, offset + 2*spacing, ...`, and
    `Forum._assign_id_factories` gives the n actors of a game the consecutive
    offsets `last_id + 1 .. last_id + n` (referees first) with spacing n, so
    that tokens created on different machines never share an id. */
module IdFactories {

  /** The id that the k-th call of `next()` (k from 0) returns. */
  function NthId(offset: int, spacing: nat, k: nat): int
  {
    k * spacing + offset
  }

  class IdFactory {
    const offset: int
    const spacing: nat
    var numIdsAssigned: nat

    constructor (offset: int, spacing: nat)
      ensures this.offset == offset && this.spacing == spacing
      ensures numIdsAssigned == 0
    {
      this.offset := offset;
      this.spacing := spacing;
      numIdsAssigned := 0;
    }

    /** `id in factory`.  Python evaluates `id % spacing` and raises
        ZeroDivisionError for a zero spacing; the divisor is positive here,
        where Python's floored and Dafny's Euclidean `%` agree. */
    predicate Contains(id: int)
      requires spacing > 0
    {
      id % spacing == offset % spacing
    }

    /** `get()`: the factory's offset, which is also its actor's id. */
    function Get(): (r: int)
      ensures r == offset
    {
      offset
    }

    /** `next()`: the next id of the stride; the counter moves on by one. */
    method Next() returns (id: int)
      modifies this
      ensures id == NthId(offset, spacing, old(numIdsAssigned))
      ensures numIdsAssigned == old(numIdsAssigned) + 1
    {
      id := numIdsAssigned * spacing + offset;
      numIdsAssigned := numIdsAssigned + 1;
    }
  }

  /** Euclidean division is unique: a quotient/remainder pair with the
      remainder in range is the one `/` and `%` compute. */
  lemma DivModUnique(a: int, n: int, q: int, r: int)
    requires n > 0 && 0 <= r < n && a == q * n + r
    ensures a % n == r && a / n == q
  {
    var q0, r0 := a / n, a % n;
    assert a == q0 * n + r0;
    assert (q - q0) * n == r0 - r by {
      assert q * n - q0 * n == (q - q0) * n;
    }
    SmallMultipleIsZero(q - q0, n, r0 - r);
  }

  lemma SmallMultipleIsZero(d: int, n: int, e: int)
    requires n > 0 && d * n == e && -n < e < n
    ensures d == 0
  {
    if d > 0 {
      MultipleAtLeast(d, n);
      assert false;
    } else if d < 0 {
      MultipleAtLeast(-d, n);
      assert false;
    }
  }

  lemma {:induction false} MultipleAtLeast(d: int, n: int)
    requires d >= 1 && n > 0
    ensures d * n >= n
  {
    if d > 1 {
      MultipleAtLeast(d - 1, n);
      assert d * n == (d - 1) * n + n;
    }
  }

  /** Every id a factory hands out is a member of that factory. */
  lemma NthIdIsMember(offset: int, spacing: nat, k: nat)
    requires spacing > 0
    ensures NthId(offset, spacing, k) % spacing == offset % spacing
  {
    var q, r := offset / spacing, offset % spacing;
    assert NthId(offset, spacing, k) == (k + q) * spacing + r by {
      assert offset == q * spacing + r;
      assert (k + q) * spacing == k * spacing + q * spacing;
    }
    DivModUnique(NthId(offset, spacing, k), spacing, k + q, r);
  }

  /** Ids handed out by one factory strictly increase, so they never repeat. */
  lemma {:induction false} NthIdIncreasing(offset: int, spacing: nat, j: nat, k: nat)
    requires spacing > 0 && j < k
    ensures NthId(offset, spacing, j) < NthId(offset, spacing, k)
  {
    if j < k - 1 {
      NthIdIncreasing(offset, spacing, j, k - 1);
    }
    assert NthId(offset, spacing, k) == NthId(offset, spacing, k - 1) + spacing;
  }

  /** Two offsets less than one spacing apart have different residues. */
  lemma DistinctResidues(x: int, y: int, n: nat)
    requires n > 0 && x < y < x + n
    ensures x % n != y % n
  {
    var q, r := x / n, x % n;
    assert x == q * n + r;
    if r + (y - x) < n {
      DivModUnique(y, n, q, r + (y - x));
    } else {
      assert y == (q + 1) * n + (r + (y - x) - n) by {
        assert (q + 1) * n == q * n + n;
      }
      DivModUnique(y, n, q + 1, r + (y - x) - n);
    }
  }

  /** Number of positions below `a` whose flag is `b`. */
  function CountFlag(s: seq<bool>, b: bool, a: nat): (c: nat)
    requires a <= |s|
    ensures c <= a
  {
    if a == 0 then 0 else CountFlag(s, b, a - 1) + (if s[a - 1] == b then 1 else 0)
  }

  lemma {:induction false} CountFlagSplit(s: seq<bool>, a: nat)
    requires a <= |s|
    ensures CountFlag(s, true, a) + CountFlag(s, false, a) == a
  {
    if a > 0 {
      CountFlagSplit(s, a - 1);
    }
  }

  lemma {:induction false} CountFlagGrows(s: seq<bool>, b: bool, a: nat, c: nat)
    requires a < c <= |s| && s[a] == b
    ensures CountFlag(s, b, a) < CountFlag(s, b, c)
  {
    if c > a + 1 {
      CountFlagGrows(s, b, a, c - 1);
    }
  }

  /** Position of actor `a` in `sorted(actors, key=lambda x: not x.is_referee())`:
      Python's sort is stable, so referees come first, each group keeping
      the original order. */
  function SortedPosition(isReferee: seq<bool>, a: nat): nat
    requires a < |isReferee|
  {
    if isReferee[a] then CountFlag(isReferee, true, a)
    else CountFlag(isReferee, true, |isReferee|) + CountFlag(isReferee, false, a)
  }

  /** The offsets `_assign_id_factories` hands out: the actor at sorted
      position p gets `last_id + 1 + p`. */
  ghost predicate IsAssignment(isReferee: seq<bool>, lastId: int, offsets: seq<int>)
  {
    |offsets| == |isReferee| &&
    forall a :: 0 <= a < |offsets| ==> offsets[a] == lastId + 1 + SortedPosition(isReferee, a)
  }

  /** The stable sort puts the actors at distinct positions 0..n-1, referees
      before everyone else, each group in its original order. */
  lemma SortedPositionFacts(isReferee: seq<bool>, a: nat, b: nat)
    requires a < |isReferee| && b < |isReferee| && a != b
    ensures SortedPosition(isReferee, a) < |isReferee|
    ensures SortedPosition(isReferee, a) != SortedPosition(isReferee, b)
    ensures isReferee[a] && !isReferee[b] ==> SortedPosition(isReferee, a) < SortedPosition(isReferee, b)
    ensures a < b && isReferee[a] == isReferee[b] ==> SortedPosition(isReferee, a) < SortedPosition(isReferee, b)
  {
    var n := |isReferee|;
    CountFlagSplit(isReferee, n);
    CountFlagGrows(isReferee, isReferee[a], a, n);
    CountFlagGrows(isReferee, isReferee[b], b, n);
    if a < b && isReferee[a] == isReferee[b] {
      CountFlagGrows(isReferee, isReferee[a], a, b);
    } else if b < a && isReferee[a] == isReferee[b] {
      CountFlagGrows(isReferee, isReferee[a], b, a);
    }
  }

  /** `Forum._assign_id_factories`: the offsets given to the actors, indexed
      like `isReferee` (one flag per actor, `actor.is_referee()`); every
      factory gets the spacing `|isReferee|`. */
  method AssignIdFactories(isReferee: seq<bool>, lastId: int) returns (offsets: seq<int>)
    ensures IsAssignment(isReferee, lastId, offsets)
  {
    var n := |isReferee|;
    offsets := seq(n, _ => lastId);
    var next := lastId + 1;
    var i := 0;
    while i < n
      invariant 0 <= i <= n && |offsets| == n
      invariant next == lastId + 1 + CountFlag(isReferee, true, i)
      invariant forall a :: 0 <= a < i && isReferee[a] ==> offsets[a] == lastId + 1 + SortedPosition(isReferee, a)
    {
      if isReferee[i] {
        offsets := offsets[i := next];
        next := next + 1;
      }
      i := i + 1;
    }
    i := 0;
    while i < n
      invariant 0 <= i <= n && |offsets| == n
      invariant next == lastId + 1 + CountFlag(isReferee, true, n) + CountFlag(isReferee, false, i)
      invariant forall a :: 0 <= a < n && isReferee[a] ==> offsets[a] == lastId + 1 + SortedPosition(isReferee, a)
      invariant forall a :: 0 <= a < i && !isReferee[a] ==> offsets[a] == lastId + 1 + SortedPosition(isReferee, a)
    {
      if !isReferee[i] {
        offsets := offsets[i := next];
        next := next + 1;
      }
      i := i + 1;
    }
  }

  /** What an assignment means: offsets `last_id + 1 .. last_id + n`, all
      distinct, referees before everyone else, each group in list order. */
  lemma AssignmentFacts(isReferee: seq<bool>, lastId: int, offsets: seq<int>)
    requires IsAssignment(isReferee, lastId, offsets)
    ensures forall a :: 0 <= a < |offsets| ==> lastId < offsets[a] <= lastId + |offsets|
    ensures forall a, b :: 0 <= a < b < |offsets| ==> offsets[a] != offsets[b]
    ensures forall a, b :: 0 <= a < |offsets| && 0 <= b < |offsets| && isReferee[a] && !isReferee[b] ==> offsets[a] < offsets[b]
    ensures forall a, b :: 0 <= a < b < |offsets| && isReferee[a] == isReferee[b] ==> offsets[a] < offsets[b]
  {
    var n := |offsets|;
    forall a, b | 0 <= a < n && 0 <= b < n && a != b
      ensures lastId < offsets[a] <= lastId + n && offsets[a] != offsets[b]
      ensures isReferee[a] && !isReferee[b] ==> offsets[a] < offsets[b]
      ensures a < b && isReferee[a] == isReferee[b] ==> offsets[a] < offsets[b]
    {
      SortedPositionFacts(isReferee, a, b);
    }
    if n == 1 {
      CountFlagSplit(isReferee, 1);
    }
  }

  /** Two different actors' factories never produce the same id, and no id
      is a member of both. */
  lemma AssignedFactoriesDisjoint(isReferee: seq<bool>, lastId: int, offsets: seq<int>,
                                  a: nat, b: nat, j: nat, k: nat)
    requires IsAssignment(isReferee, lastId, offsets)
    requires a < |offsets| && b < |offsets| && a != b
    ensures NthId(offsets[a], |offsets|, j) != NthId(offsets[b], |offsets|, k)
    ensures offsets[a] % |offsets| != offsets[b] % |offsets|
  {
    var n := |offsets|;
    SortedPositionFacts(isReferee, a, b);
    SortedPositionFacts(isReferee, b, a);
    if offsets[a] < offsets[b] {
      DistinctResidues(offsets[a], offsets[b], n);
    } else {
      DistinctResidues(offsets[b], offsets[a], n);
    }
    NthIdIsMember(offsets[a], n, j);
    NthIdIsMember(offsets[b], n, k);
  }

  /** On a fresh world (`get_last_id() == 0`) a game whose only referee is
      actor r gives that referee the id 1, which is what the Referee's
      `_set_forum` asserts (kxg/actors.py). */
  lemma RefereeGetsIdOne(isReferee: seq<bool>, offsets: seq<int>, r: nat)
    requires IsAssignment(isReferee, 0, offsets)
    requires r < |isReferee| && isReferee[r]
    requires forall a :: 0 <= a < r ==> !isReferee[a]
    ensures offsets[r] == 1
  {
    assert CountFlag(isReferee, true, r) == 0 by {
      CountNoneBelow(isReferee, r);
    }
  }

  lemma {:induction false} CountNoneBelow(s: seq<bool>, r: nat)
    requires r <= |s|
    requires forall a :: 0 <= a < r ==> !s[a]
    ensures CountFlag(s, true, r) == 0
  {
    if r > 0 {
      CountNoneBelow(s, r - 1);
    }
  }
}
