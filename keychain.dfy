/** The key-sequence trie of modules/keychain.py.  A `KeyChain` owns a
    tree of `Node`s, each linking keys to child nodes and holding the
    callbacks of the sequence that ends there.  Inputs are fed one at a
    time: the name of a registered lens toggles that lens; any other input
    is first mapped through the active lenses, then appended to the current
    sequence and checked against the links of the active node.  A match
    moves down the tree (or, at a leaf, back to the root) and runs the
    callbacks of the node reached; a miss resets the chain to the root.
    Callbacks are recorded in the order they run rather than run. */
module KeyChains {
  import opened Wrappers
  import ModulesEngine

  /** Inputs and lens names: any hashable value, strings here. */
  type Key = string

  /** A callback with the arguments it was registered with. */
  datatype Action = Action(callback: string, args: string)

  /** The failures of the keychain's methods. */
  datatype KeyError =
    | NotSetUp          // AttributeError: `None` has no `links`/`check` before `setup`
    | EmptySequence     // IndexError: `sequence[-1]` of an empty chain
    | KeyAlreadyLinked  // `assert key not in self.links`

  /** A lens is the dictionary it was registered with; a `Lense` compares
      equal to any lens with the same entries. */
  type Lens = map<Key, Key>

  /** The callback a node gets: none when `callback` is `None`. */
  function Optional(action: Option<Action>): seq<Action>
  {
    if action.Some? then [action.value] else []
  }

  /** The input after the lenses, applied in activation order, each to the
      image of the ones before. */
  function ThroughLenses(lenses: seq<Lens>, input: Key): (r: Key)
    ensures lenses == [] ==> r == input
  {
    if lenses == [] then input
    else
      var last := lenses[|lenses| - 1];
      var before := ThroughLenses(lenses[..|lenses| - 1], input);
      if before in last then last[before] else before
  }

  /** A lens that maps nothing the input can become leaves the input
      alone. */
  lemma {:induction false} UntouchedByLenses(lenses: seq<Lens>, input: Key)
    requires forall i :: 0 <= i < |lenses| ==> input !in lenses[i]
    ensures ThroughLenses(lenses, input) == input
  {
    if lenses != [] {
      UntouchedByLenses(lenses[..|lenses| - 1], input);
      assert input !in lenses[|lenses| - 1];
    }
  }

  /** Toggling a lens: the first equal active lens is dropped, or the lens
      joins the end. */
  function Toggle(active: seq<Lens>, lens: Lens): (r: seq<Lens>)
    ensures lens in active ==> |r| == |active| - 1 && multiset(r) == multiset(active) - multiset{lens}
    ensures lens !in active ==> r == active + [lens]
  {
    if lens in active then ModulesEngine.RemoveFirst(active, lens) else active + [lens]
  }

  /** Toggling a lens that was off twice leaves the active lenses as they
      were. */
  lemma ToggleTwice(active: seq<Lens>, lens: Lens)
    requires lens !in active
    ensures Toggle(Toggle(active, lens), lens) == active
  {
    ModulesEngine.RegisterUnregister(active, lens);
  }

  /** The links of the trie's nodes, as a value: the model's record of
      the trie, which the keychain keeps equal to the nodes' `links`. */
  type Graph = map<Node, map<Key, Node>>

  /** Every link of every node leads to a node of the trie. */
  ghost predicate Closed(g: Graph)
  {
    forall n :: n in g ==> forall k :: k in g[n] ==> g[n][k] in g
  }

  /** The node reached by following `keys` from `n`, if every key is
      linked. */
  ghost function Follow(g: Graph, n: Node, keys: seq<Key>): Option<Node>
    decreases |keys|
  {
    if keys == [] then Some(n)
    else if n in g && keys[0] in g[n] then Follow(g, g[n][keys[0]], keys[1..])
    else None
  }

  /** Following one key more is following the links of the node reached. */
  lemma {:induction false} FollowAppend(g: Graph, n: Node, keys: seq<Key>, k: Key)
    ensures Follow(g, n, keys + [k]) ==
            match Follow(g, n, keys)
            case None => None
            case Some(m) => if m in g && k in g[m] then Some(g[m][k]) else None
    decreases |keys|
  {
    if keys == [] {
      assert [] + [k] == [k];
    } else if n in g && keys[0] in g[n] {
      assert (keys + [k])[1..] == keys[1..] + [k];
      FollowAppend(g, g[n][keys[0]], keys[1..], k);
    } else {
      assert (keys + [k])[0] == keys[0];
    }
  }

  /** Links are only ever added: every link of `g0` is in `g1`, to the
      same node. */
  ghost predicate Extends(g0: Graph, g1: Graph)
  {
    forall m :: m in g0 ==> m in g1 && forall k :: k in g0[m] ==> k in g1[m] && g1[m][k] == g0[m][k]
  }

  /** Growing the trie leaves every existing path where it was. */
  lemma {:induction false} FollowKept(g0: Graph, g1: Graph, n: Node, keys: seq<Key>)
    requires Extends(g0, g1)
    ensures Follow(g0, n, keys).Some? ==> Follow(g1, n, keys) == Follow(g0, n, keys)
    decreases |keys|
  {
    if keys != [] && n in g0 && keys[0] in g0[n] {
      FollowKept(g0, g1, g0[n][keys[0]], keys[1..]);
    }
  }

  /** Linking a new, childless node under a node of the trie keeps links
      inside the trie and only adds to them. */
  lemma NewLinkKeepsShape(g: Graph, parent: Node, key: Key, node: Node)
    requires Closed(g) && parent in g && key !in g[parent] && node !in g
    ensures var g' := g[node := map[]][parent := g[parent][key := node]];
            Closed(g') && Extends(g, g') && g.Keys <= g'.Keys
  {
  }

  lemma ExtendsTrans(g0: Graph, g1: Graph, g2: Graph)
    requires Extends(g0, g1) && Extends(g1, g2)
    ensures Extends(g0, g2)
  {
  }

  lemma PrefixAll<T>(s: seq<T>)
    ensures s[..|s|] == s
  {
  }

  lemma PrefixSnoc<T>(s: seq<T>, i: nat)
    requires i < |s|
    ensures s[..i + 1] == s[..i] + [s[i]]
  {
  }

  class Node {
    var manager: KeyChain?
    var key: Option<Key>
    var callbacks: seq<Action>
    var links: map<Key, Node>

    /** `__init__`: no manager, no key, no callbacks, no links. */
    constructor ()
      ensures manager == null && key.None? && callbacks == [] && links == map[]
    {
      manager := null;
      key := None;
      callbacks := [];
      links := map[];
    }

    /** `setup`: the node learns its keychain and key, and gets the
        callback if there is one. */
    method Setup(manager: KeyChain, key: Option<Key>, action: Option<Action>)
      modifies this
      ensures this.manager == manager && this.key == key
      ensures callbacks == old(callbacks) + Optional(action) && links == old(links)
    {
      this.manager := manager;
      this.key := key;
      AddCallback(action);
    }

    /** `add_callback`: a callback other than `None` joins the end. */
    method AddCallback(action: Option<Action>)
      modifies this
      ensures callbacks == old(callbacks) + Optional(action)
      ensures links == old(links) && manager == old(manager) && key == old(key)
    {
      if action.Some? {
        callbacks := callbacks + [action.value];
      }
    }

    /** `add_link`: a key may be linked once. */
    method AddLink(key: Key, node: Node) returns (r: Outcome<KeyError>)
      modifies this
      ensures r.Fail? <==> key in old(links)
      ensures r.Fail? ==> r.error == KeyAlreadyLinked && links == old(links)
      ensures r.Pass? ==> links == old(links)[key := node]
      ensures callbacks == old(callbacks) && manager == old(manager) && this.key == old(this.key)
    {
      if key in links {
        return Fail(KeyAlreadyLinked);
      }
      links := links[key := node];
      r := Pass;
    }

    /** `check`: the input is matched against this node's links; a match
        executes the linked node, a miss breaks the sequence. */
    method Check(input: Key)
      requires manager != null
      modifies manager
      ensures input in links ==> Executed(links[input], manager)
      ensures input !in links ==> manager.active == manager.root && manager.sequence == [] && manager.fired == old(manager.fired)
      ensures manager.root == old(manager.root) && manager.graph == old(manager.graph)
      ensures manager.lenses == old(manager.lenses) && manager.activeLenses == old(manager.activeLenses)
    {
      if input in links {
        links[input].Execute(manager);
      } else {
        BreakSequence();
      }
    }

    /** What executing `next` does to the keychain: a node with links
        becomes active, a leaf resets the chain; then its callbacks run in
        order. */
    twostate predicate Executed(next: Node, chain: KeyChain)
      reads next, chain
    {
      chain.fired == old(chain.fired) + next.callbacks &&
      (next.links != map[] ==> chain.active == next && chain.sequence == old(chain.sequence)) &&
      (next.links == map[] ==> chain.active == chain.root && chain.sequence == [])
    }

    /** `execute`.  The node's own manager is the keychain it was set up
        for, passed here explicitly. */
    method Execute(chain: KeyChain)
      modifies chain
      ensures Executed(this, chain)
      ensures chain.root == old(chain.root) && chain.graph == old(chain.graph)
      ensures chain.lenses == old(chain.lenses) && chain.activeLenses == old(chain.activeLenses)
    {
      if |links| > 0 {
        chain.Activate(this);
      } else {
        chain.Reset();
      }
      for i := 0 to |callbacks|
        invariant chain.fired == old(chain.fired) + callbacks[..i]
        invariant (links != map[] ==> chain.active == this && chain.sequence == old(chain.sequence))
        invariant (links == map[] ==> chain.active == chain.root && chain.sequence == [])
        invariant chain.root == old(chain.root) && chain.graph == old(chain.graph)
        invariant chain.lenses == old(chain.lenses) && chain.activeLenses == old(chain.activeLenses)
      {
        chain.Fire(callbacks[i]);
        assert callbacks[..i + 1] == callbacks[..i] + [callbacks[i]];
      }
      assert callbacks[..|callbacks|] == callbacks;
    }

    /** `break_sequence`: the keychain starts over. */
    method BreakSequence()
      requires manager != null
      modifies manager
      ensures manager.active == manager.root && manager.sequence == [] && manager.fired == old(manager.fired)
      ensures manager.root == old(manager.root) && manager.graph == old(manager.graph)
      ensures manager.lenses == old(manager.lenses) && manager.activeLenses == old(manager.activeLenses)
    {
      manager.Reset();
    }
  }

  class KeyChain {
    var active: Node?
    var sequence: seq<Key>
    var root: Node?
    var activeLenses: seq<Lens>
    var lenses: map<Key, Lens>
    /** The callbacks run so far, in order. */
    var fired: seq<Action>
    /** The nodes of the trie under `root`, with their links. */
    ghost var graph: Graph

    /** The trie's shape: set up or not, the root and the active node are
        nodes of the trie, every node is managed by this keychain, the
        record of the links is the nodes' own, and links stay inside the
        trie. */
    ghost predicate Valid()
      reads this, graph.Keys
    {
      (root == null <==> active == null) &&
      (root == null ==> graph == map[]) &&
      (root != null ==> root in graph && active in graph) &&
      (forall n :: n in graph ==> n.manager == this && n.links == graph[n]) &&
      Closed(graph)
    }

    /** The invariant the handling of inputs keeps: following the current
        sequence from the root leads to the active node. */
    ghost predicate Consistent()
      reads this, graph.Keys
    {
      Valid() && root != null && Follow(graph, root, sequence) == Some(active)
    }

    /** `__init__`: not set up, nothing registered. */
    constructor ()
      ensures Valid() && root == null && active == null
      ensures sequence == [] && activeLenses == [] && lenses == map[] && fired == []
    {
      active := null;
      sequence := [];
      root := null;
      activeLenses := [];
      lenses := map[];
      fired := [];
      graph := map[];
    }

    /** `setup`: a new, empty root node becomes the trie and the active
        node.  The sequence is kept, so the invariant holds exactly when
        it is empty. */
    method Setup()
      requires Valid()
      modifies this
      ensures Valid() && root != null && fresh(root) && active == root && graph == map[root := map[]]
      ensures root.callbacks == [] && root.key.None?
      ensures sequence == old(sequence) && lenses == old(lenses) && activeLenses == old(activeLenses) && fired == old(fired)
      ensures Consistent() <==> sequence == []
    {
      var node := new Node();
      node.Setup(this, None, None);
      root := node;
      graph := map[node := map[]];
      Activate(node);
      assert sequence != [] ==> Follow(graph, root, sequence).None?;
    }

    /** `register_lens`: the name now stands for (a copy of) the lens. */
    method RegisterLens(name: Key, lens: Lens)
      modifies this
      ensures lenses == old(lenses)[name := lens]
      ensures active == old(active) && sequence == old(sequence) && root == old(root)
      ensures activeLenses == old(activeLenses) && fired == old(fired) && graph == old(graph)
    {
      lenses := lenses[name := lens];
    }

    /** `activate`. */
    method Activate(node: Node?)
      modifies this
      ensures active == node
      ensures sequence == old(sequence) && root == old(root) && lenses == old(lenses)
      ensures activeLenses == old(activeLenses) && fired == old(fired) && graph == old(graph)
    {
      active := node;
    }

    /** `reset`: the sequence is emptied and the root becomes active. */
    method Reset()
      modifies this
      ensures sequence == [] && active == root
      ensures root == old(root) && lenses == old(lenses)
      ensures activeLenses == old(activeLenses) && fired == old(fired) && graph == old(graph)
    {
      sequence := [];
      Activate(root);
    }

    /** A callback being run. */
    method Fire(action: Action)
      modifies this
      ensures fired == old(fired) + [action]
      ensures active == old(active) && sequence == old(sequence) && root == old(root)
      ensures lenses == old(lenses) && activeLenses == old(activeLenses) && graph == old(graph)
    {
      fired := fired + [action];
    }

    /** `place_node`: the child of `parent` under `key`, reused when the
        link exists and created otherwise; the callback, if any, goes to
        that child and to no other node. */
    method PlaceNode(parent: Node, key: Key, action: Option<Action>) returns (node: Node)
      requires Valid() && root != null && parent in graph
      modifies this, graph.Keys
      ensures Valid() && node in graph
      ensures key in old(graph[parent]) ==> node == old(graph[parent][key]) && graph == old(graph) &&
                                            node.callbacks == old(node.callbacks) + Optional(action)
      ensures key !in old(graph[parent]) ==> fresh(node) && node.callbacks == Optional(action) && node.key == Some(key) &&
                                             graph == old(graph)[node := map[]][parent := old(graph[parent])[key := node]]
      ensures forall m :: m in old(graph) && m != node ==> m.callbacks == old(m.callbacks)
      ensures Extends(old(graph), graph) && old(graph).Keys <= graph.Keys
      ensures active == old(active) && sequence == old(sequence) && root == old(root)
      ensures lenses == old(lenses) && activeLenses == old(activeLenses) && fired == old(fired)
    {
      if key in parent.links {
        node := parent.links[key];
        node.AddCallback(action);
      } else {
        node := PlaceNew(parent, key, action);
      }
    }

    /** The `else` branch of `place_node`: a new node, set up with the key
        and the callback, is linked under `parent`. */
    method PlaceNew(parent: Node, key: Key, action: Option<Action>) returns (node: Node)
      requires Valid() && root != null && parent in graph && key !in graph[parent]
      modifies this, parent
      ensures Valid() && fresh(node) && node.callbacks == Optional(action) && node.key == Some(key)
      ensures graph == old(graph)[node := map[]][parent := old(graph[parent])[key := node]]
      ensures parent.callbacks == old(parent.callbacks)
      ensures active == old(active) && sequence == old(sequence) && root == old(root)
      ensures lenses == old(lenses) && activeLenses == old(activeLenses) && fired == old(fired)
    {
      node := new Node();
      node.Setup(this, Some(key), action);
      var linked := parent.AddLink(key, node);
      NewLinkKeepsShape(graph, parent, key, node);
      graph := graph[node := map[]][parent := parent.links];
    }

    /** `register_chain`: every key but the last is placed without a
        callback, the last with it.  Existing links are reused and never
        changed, so the trie only grows and the invariant is kept; the
        callback lands on the node the whole sequence leads to and on no
        other, and the nodes created on the way have none. */
    method RegisterChain(keys: seq<Key>, action: Option<Action>) returns (r: Outcome<KeyError>, ghost last: Node?)
      requires Valid()
      modifies this, graph.Keys
      ensures Valid()
      ensures r.Fail? <==> keys == [] || old(root) == null
      ensures r.Fail? ==> r.error == (if keys == [] then EmptySequence else NotSetUp) && graph == old(graph)
      ensures r.Pass? ==> root != null && last != null && Follow(graph, root, keys) == Some(last) &&
                          last.callbacks == (if last in old(graph) then old(last.callbacks) else []) + Optional(action)
      ensures r.Pass? ==> forall m :: m in graph && m != last ==> m.callbacks == (if m in old(graph) then old(m.callbacks) else [])
      ensures Extends(old(graph), graph)
      ensures old(Consistent()) ==> Consistent()
      ensures active == old(active) && sequence == old(sequence) && root == old(root)
      ensures lenses == old(lenses) && activeLenses == old(activeLenses) && fired == old(fired)
    {
      if keys == [] {
        return Fail(EmptySequence), null;
      }
      if root == null {
        return Fail(NotSetUp), null;
      }
      ghost var g0 := graph;
      ghost var cb0 := map m | m in graph :: m.callbacks;
      var node: Node := root;
      var i := 0;
      while i < |keys| - 1
        invariant 0 <= i <= |keys| - 1 && node in graph
        invariant GrownFrom(g0, cb0) && root == old(root)
        invariant Follow(graph, root, keys[..i]) == Some(node)
        invariant forall m :: m in graph && m !in old(graph) ==> fresh(m)
        invariant active == old(active) && sequence == old(sequence)
        invariant lenses == old(lenses) && activeLenses == old(activeLenses) && fired == old(fired)
      {
        node := PlaceStep(node, keys, i, None, g0, cb0);
        i := i + 1;
      }
      last := PlaceStep(node, keys, i, action, g0, cb0);
      PrefixAll(keys);
      r := Pass;
      FollowKept(g0, graph, root, sequence);
    }

    /** The trie has grown from `g0`, whose nodes had the callbacks `cb0`:
        links were only added, and no callback was. */
    ghost predicate GrownFrom(g0: Graph, cb0: map<Node, seq<Action>>)
      reads this, graph.Keys
    {
      Valid() && root != null && Extends(g0, graph) && g0.Keys <= cb0.Keys &&
      forall m :: m in graph ==> m.callbacks == (if m in g0 then cb0[m] else [])
    }

    /** One key of `register_chain`: places `keys[i]` under the node the
        first `i` keys lead to. */
    method PlaceStep(parent: Node, keys: seq<Key>, i: nat, action: Option<Action>, ghost g0: Graph, ghost cb0: map<Node, seq<Action>>)
      returns (node: Node)
      requires i < |keys| && GrownFrom(g0, cb0) && parent in graph
      requires Follow(graph, root, keys[..i]) == Some(parent)
      modifies this, graph.Keys
      ensures Valid() && root == old(root) && root != null && node in graph && Extends(g0, graph) && g0.Keys <= cb0.Keys
      ensures Follow(graph, root, keys[..i + 1]) == Some(node)
      ensures node.callbacks == (if node in g0 then cb0[node] else []) + Optional(action)
      ensures forall m :: m in graph && m != node ==> m.callbacks == (if m in g0 then cb0[m] else [])
      ensures forall m :: m in graph && m !in old(graph) ==> fresh(m)
      ensures active == old(active) && sequence == old(sequence)
      ensures lenses == old(lenses) && activeLenses == old(activeLenses) && fired == old(fired)
    {
      node := PlaceNode(parent, keys[i], action);
      ExtendsTrans(g0, old(graph), graph);
      FollowKept(old(graph), graph, root, keys[..i]);
      FollowAppend(graph, root, keys[..i], keys[i]);
      PrefixSnoc(keys, i);
    }

    /** `handle`: a lens name toggles its lens and changes nothing else;
        with `lens_only` any other input is ignored; otherwise the input
        goes through the active lenses, joins the sequence, and is checked
        by the active node.  The invariant that the sequence leads from the
        root to the active node is kept. */
    method Handle(input: Key, lensOnly: bool) returns (r: Outcome<KeyError>)
      requires Valid()
      modifies this
      ensures Valid() && root == old(root) && graph == old(graph) && lenses == old(lenses)
      ensures r.Fail? <==> input !in old(lenses) && !lensOnly && old(root) == null
      ensures r.Fail? ==> r.error == NotSetUp && sequence == old(sequence) + [ThroughLenses(old(activeLenses), input)] &&
                          active == old(active) && fired == old(fired) && activeLenses == old(activeLenses)
      ensures input in old(lenses) ==> activeLenses == Toggle(old(activeLenses), old(lenses)[input]) &&
                                       sequence == old(sequence) && active == old(active) && fired == old(fired)
      ensures input !in old(lenses) && lensOnly ==> activeLenses == old(activeLenses) &&
                                                    sequence == old(sequence) && active == old(active) && fired == old(fired)
      ensures input !in old(lenses) && !lensOnly && old(root) != null ==>
                activeLenses == old(activeLenses) &&
                var x := ThroughLenses(old(activeLenses), input);
                if x in old(active).links then
                  var next := old(active).links[x];
                  fired == old(fired) + next.callbacks &&
                  (next.links != map[] ==> active == next && sequence == old(sequence) + [x]) &&
                  (next.links == map[] ==> active == root && sequence == [])
                else
                  active == root && sequence == [] && fired == old(fired)
      ensures old(Consistent()) ==> Consistent()
    {
      if input in lenses {
        var lens := lenses[input];
        if lens in activeLenses {
          activeLenses := ModulesEngine.RemoveFirst(activeLenses, lens);
        } else {
          activeLenses := activeLenses + [lens];
        }
        return Pass;
      }
      if lensOnly {
        return Pass;
      }
      var x := input;
      for i := 0 to |activeLenses|
        invariant x == ThroughLenses(activeLenses[..i], input)
      {
        assert activeLenses[..i + 1][..i] == activeLenses[..i];
        if x in activeLenses[i] {
          x := activeLenses[i][x];
        }
      }
      assert activeLenses[..|activeLenses|] == activeLenses;
      sequence := sequence + [x];
      if active == null {
        return Fail(NotSetUp);
      }
      if old(Consistent()) {
        FollowAppend(graph, root, old(sequence), x);
      }
      active.Check(x);
      r := Pass;
    }
  }
}
