// The lookup tables at the bottom of modules/gui.py: each forward table
// (`key_to_string`, `type_to_string`, `mouse_to_string`) is a dict literal
// from a pygame code to its name, and the module inverts each one with a
// loop that walks the forward table in insertion order and stores
// `string_to_X[name] = code`.

module GuiTables {

  /** A dict literal, as its entries in insertion order. */
  type Entries<K> = seq<(K, string)>

  /** A dict literal never repeats a key: a repeated key would be one entry. */
  predicate DistinctKeys<K(==)>(t: Entries<K>) {
    forall i, j :: 0 <= i < j < |t| ==> t[i].0 != t[j].0
  }

  /** No two codes share a name. */
  predicate UniqueNames<K>(t: Entries<K>) {
    forall i, j :: 0 <= i < j < |t| ==> t[i].1 != t[j].1
  }

  /** The forward dict `X_to_string` built from its entries. */
  function Forward<K(==)>(t: Entries<K>): (m: map<K, string>)
    ensures m.Keys == set i | 0 <= i < |t| :: t[i].0
  {
    if t == [] then map[]
    else
      var m0 := Forward(t[..|t| - 1]);
      assert forall i :: 0 <= i < |t| - 1 ==> t[..|t| - 1][i] == t[i];
      m0[t[|t| - 1].0 := t[|t| - 1].1]
  }

  /** The dict `string_to_X` after the loop has stored every entry: a later
    * entry with the same name overwrites an earlier one. */
  function Inverse<K(==)>(t: Entries<K>): (m: map<string, K>)
    ensures m.Keys == set i | 0 <= i < |t| :: t[i].1
  {
    if t == [] then map[]
    else
      var m0 := Inverse(t[..|t| - 1]);
      assert forall i :: 0 <= i < |t| - 1 ==> t[..|t| - 1][i] == t[i];
      m0[t[|t| - 1].1 := t[|t| - 1].0]
  }

  /** The inverting loop of modules/gui.py. */
  method Invert<K(==)>(t: Entries<K>) returns (r: map<string, K>)
    ensures r == Inverse(t)
    ensures r.Keys == set i | 0 <= i < |t| :: t[i].1
  {
    r := map[];
    var n := 0;
    while n < |t|
      invariant 0 <= n <= |t|
      invariant r == Inverse(t[..n])
    {
      assert t[..n + 1][..n] == t[..n];
      r := r[t[n].1 := t[n].0];
      n := n + 1;
    }
    assert t[..n] == t;
  }

  /** The code stored under a name is the code of the LAST entry with that
    * name.  modules/gui.py is Python 2 code: it iterates over the dict
    * `key_to_string`, whose order is the hash order, not the order the
    * entries are written in.  The entries here are in iteration order, so
    * which entry is last, for a name that two codes share, is an order the
    * source does not fix; for a name held by one code only, the order does
    * not matter (ForwardThenInverse). */
  lemma {:induction false} InverseIsLastWriter<K>(t: Entries<K>, i: int)
    requires 0 <= i < |t|
    requires forall j :: i < j < |t| ==> t[j].1 != t[i].1
    ensures t[i].1 in Inverse(t) && Inverse(t)[t[i].1] == t[i].0
  {
    if i < |t| - 1 {
      var p := t[..|t| - 1];
      assert forall j :: i < j < |p| ==> p[j] == t[j];
      InverseIsLastWriter(p, i);
    }
  }

  /** The same for the forward dict: the value at a key is its entry's name. */
  lemma {:induction false} ForwardAt<K>(t: Entries<K>, i: int)
    requires DistinctKeys(t)
    requires 0 <= i < |t|
    ensures t[i].0 in Forward(t) && Forward(t)[t[i].0] == t[i].1
  {
    if i < |t| - 1 {
      var p := t[..|t| - 1];
      assert forall j :: 0 <= j < |p| ==> p[j] == t[j];
      ForwardAt(p, i);
    }
  }

  /** `X_to_string[string_to_X[s]] == s` for every name `s`, unique or not:
    * the inverse always picks a code whose name is `s`. */
  lemma InverseThenForward<K>(t: Entries<K>, s: string)
    requires DistinctKeys(t)
    requires s in Inverse(t)
    ensures Inverse(t)[s] in Forward(t) && Forward(t)[Inverse(t)[s]] == s
  {
    var i :| 0 <= i < |t| && t[i].1 == s;
    while exists j :: i < j < |t| && t[j].1 == s
      invariant 0 <= i < |t| && t[i].1 == s
      decreases |t| - i
    {
      var j :| i < j < |t| && t[j].1 == s;
      i := j;
    }
    InverseIsLastWriter(t, i);
    ForwardAt(t, i);
  }

  /** The round trip `string_to_X[X_to_string[k]] == k` holds for every
    * code exactly when the names are unique. */
  lemma ForwardThenInverse<K>(t: Entries<K>)
    requires DistinctKeys(t)
    ensures UniqueNames(t) <==>
      forall k :: k in Forward(t) ==> Forward(t)[k] in Inverse(t) && Inverse(t)[Forward(t)[k]] == k
  {
    if UniqueNames(t) {
      forall k | k in Forward(t)
        ensures Forward(t)[k] in Inverse(t) && Inverse(t)[Forward(t)[k]] == k
      {
        var i :| 0 <= i < |t| && t[i].0 == k;
        ForwardAt(t, i);
        InverseIsLastWriter(t, i);
      }
    } else {
      var i, j :| 0 <= i < j < |t| && t[i].1 == t[j].1;
      ForwardAt(t, i);
      ForwardAt(t, j);
      InverseThenForward(t, t[i].1);
    }
  }

  /** `mouse_to_string`, whose codes are plain integers. */
  const MouseToString: Entries<int> := [
    (1, "LEFTBUTTON"), (2, "MIDDLEBUTTON"), (3, "RIGHTBUTTON"), (4, "ROLLUP"),
    (5, "ROLLDOWN"), (6, "LEFTEXTRABUTTON"), (7, "RIGHTEXTRABUTTON")
  ]

  lemma MouseNamesUnique()
    ensures UniqueNames(MouseToString)
  {
    forall i, j | 0 <= i < j < |MouseToString|
      ensures MouseToString[i].1 != MouseToString[j].1
    {
      assert MouseToString[i].1[..|MouseToString[i].1|] == MouseToString[i].1;
    }
  }

  /** `string_to_mouse` undoes `mouse_to_string` for all seven buttons. */
  lemma MouseRoundTrip()
    ensures forall k :: k in Forward(MouseToString) <==> 1 <= k <= 7
    ensures forall k :: k in Forward(MouseToString) ==>
      Forward(MouseToString)[k] in Inverse(MouseToString) &&
      Inverse(MouseToString)[Forward(MouseToString)[k]] == k
  {
    var t := MouseToString;
    assert forall i :: 0 <= i < |t| ==> t[i].0 == i + 1;
    forall k | 1 <= k <= 7 ensures k in Forward(t) {
      assert t[k - 1].0 == k;
    }
    MouseNamesUnique();
    ForwardThenInverse(t);
  }
}
