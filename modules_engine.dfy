/** The single-file engine of modules/engine.py: messages named by their
    class, a per-actor `Messenger` buffer, a sequential `IdFactory`, a
    `Forum` that numbers its actors and runs every buffered message through
    check, setup, dispatch, world handling and notification, a `Publisher`,
    and a world whose `add_token`/`remove_token` also keep an optional
    list. */
module ModulesEngine {
  import opened Wrappers
  import LegacyTokens

  // ---------------------------------------------------------------------
  // Message.type: the class name in snake case

  predicate IsUpper(c: char) { 'A' <= c <= 'Z' }
  predicate IsLower(c: char) { 'a' <= c <= 'z' }

  function ToLower(c: char): (r: char)
    ensures !IsUpper(r)
    ensures IsUpper(c) ==> IsLower(r)
  {
    if IsUpper(c) then (c as int + 32) as char else c
  }

  function Lowered(w: string): (r: string)
    ensures |r| == |w| && forall i :: 0 <= i < |w| ==> r[i] == ToLower(w[i])
  {
    seq(|w|, i requires 0 <= i < |w| => ToLower(w[i]))
  }

  /** The length of the run of lower-case letters `[a-z]*` that starts
      `s`. */
  function LowerRun(s: string): (n: nat)
    ensures n <= |s|
    ensures forall i :: 0 <= i < n ==> IsLower(s[i])
    ensures n < |s| ==> !IsLower(s[n])
  {
    if s == [] || !IsLower(s[0]) then 0 else 1 + LowerRun(s[1..])
  }

  /** The matches of `[A-Z][a-z]*` in `s`, left to right, each lower-cased;
      characters outside a match are skipped. */
  function Words(s: string): seq<string>
    decreases |s|
  {
    if s == [] then []
    else if IsUpper(s[0]) then
      var n := 1 + LowerRun(s[1..]);
      [Lowered(s[..n])] + Words(s[n..])
    else Words(s[1..])
  }

  /** `sep.join(ws)`. */
  function Join(ws: seq<string>, sep: string): string
  {
    if ws == [] then []
    else if |ws| == 1 then ws[0]
    else ws[0] + sep + Join(ws[1..], sep)
  }

  /** `Message.type()`: the class name's words, lower-cased, joined by
      underscores. */
  function TypeName(className: string): string
  {
    Join(Words(className), "_")
  }

  /** A capitalised word: one upper-case letter followed by lower-case
      ones. */
  predicate CapWord(w: string)
  {
    |w| >= 1 && IsUpper(w[0]) && forall i :: 1 <= i < |w| ==> IsLower(w[i])
  }

  function Concat(ws: seq<string>): string
  {
    if ws == [] then [] else ws[0] + Concat(ws[1..])
  }

  function LoweredAll(ws: seq<string>): (r: seq<string>)
    ensures |r| == |ws| && forall i :: 0 <= i < |ws| ==> r[i] == Lowered(ws[i])
  {
    seq(|ws|, i requires 0 <= i < |ws| => Lowered(ws[i]))
  }

  /** A camel-case name made of capitalised words splits back into exactly
      those words, lower-cased. */
  lemma {:induction false} WordsOfCamelCase(ws: seq<string>)
    requires forall i :: 0 <= i < |ws| ==> CapWord(ws[i])
    ensures Words(Concat(ws)) == LoweredAll(ws)
    decreases |ws|
  {
    if ws != [] {
      var w, rest := ws[0], Concat(ws[1..]);
      var s := w + rest;
      assert s[0] == w[0];
      assert s[1..] == w[1..] + rest;
      LowerRunOfWord(w[1..], ws[1..]);
      assert s[..|w|] == w;
      assert s[|w|..] == rest;
      WordsOfCamelCase(ws[1..]);
      assert LoweredAll(ws) == [Lowered(w)] + LoweredAll(ws[1..]);
    }
  }

  /** The lower-case run after a word's capital stops where the next
      capitalised word begins. */
  lemma LowerRunOfWord(tail: string, ws: seq<string>)
    requires forall i :: 0 <= i < |tail| ==> IsLower(tail[i])
    requires forall i :: 0 <= i < |ws| ==> CapWord(ws[i])
    ensures LowerRun(tail + Concat(ws)) == |tail|
  {
    var s := tail + Concat(ws);
    if ws != [] {
      assert s[|tail|] == ws[0][0];
    }
  }

  /** No upper-case letter survives in a type name. */
  lemma {:induction false} TypeNameHasNoUpper(className: string)
    ensures forall i :: 0 <= i < |TypeName(className)| ==> !IsUpper(TypeName(className)[i])
  {
    WordsHaveNoUpper(className);
    JoinHasNoUpper(Words(className), "_");
  }

  lemma {:induction false} WordsHaveNoUpper(s: string)
    ensures forall k, i :: 0 <= k < |Words(s)| && 0 <= i < |Words(s)[k]| ==> !IsUpper(Words(s)[k][i])
    decreases |s|
  {
    if s != [] {
      if IsUpper(s[0]) {
        WordsHaveNoUpper(s[1 + LowerRun(s[1..])..]);
      } else {
        WordsHaveNoUpper(s[1..]);
      }
    }
  }

  lemma {:induction false} JoinHasNoUpper(ws: seq<string>, sep: string)
    requires forall k, i :: 0 <= k < |ws| && 0 <= i < |ws[k]| ==> !IsUpper(ws[k][i])
    requires forall i :: 0 <= i < |sep| ==> !IsUpper(sep[i])
    ensures forall i :: 0 <= i < |Join(ws, sep)| ==> !IsUpper(Join(ws, sep)[i])
  {
    if |ws| > 1 {
      JoinHasNoUpper(ws[1..], sep);
      var j := Join(ws, sep);
      forall i | 0 <= i < |j|
        ensures !IsUpper(j[i])
      {
        if i < |ws[0]| {
          assert j[i] == ws[0][i];
        } else if i < |ws[0]| + |sep| {
          assert j[i] == sep[i - |ws[0]|];
        } else {
          assert j[i] == Join(ws[1..], sep)[i - |ws[0]| - |sep|];
        }
      }
    }
  }

  /** The test suite's example: `CreatePlayer` is `create_player`. */
  lemma CreatePlayerType()
    ensures TypeName("CreatePlayer") == "create_player"
  {
    CreatePlayerWords();
    JoinTwo("create", "player", "_");
    SnakeLiteral();
  }

  lemma CreatePlayerWords()
    ensures Words("CreatePlayer") == ["create", "player"]
  {
    var c, p := "Create", "Player";
    assert CapWord(c) && CapWord(p);
    ConcatTwo(c, p);
    assert c + p == "CreatePlayer";
    WordsOfCamelCase([c, p]);
    LoweredCreatePlayer();
    assert LoweredAll([c, p]) == ["create", "player"];
  }

  lemma SnakeLiteral()
    ensures "create" + "_" + "player" == "create_player"
  {
  }

  lemma ConcatTwo(a: string, b: string)
    ensures Concat([a, b]) == a + b
  {
    assert [a, b][1..] == [b];
    assert Concat([b]) == b + Concat([]);
  }

  lemma JoinTwo(a: string, b: string, sep: string)
    ensures Join([a, b], sep) == a + sep + b
  {
    assert [a, b][1..] == [b];
  }

  lemma LoweredCreatePlayer()
    ensures Lowered("Create") == "create" && Lowered("Player") == "player"
  {
    assert ToLower('C') == 'c' && ToLower('P') == 'p';
    assert forall c :: IsLower(c) ==> ToLower(c) == c;
  }

  // ---------------------------------------------------------------------
  // Messages and messengers

  /** What a message's `check` returned: `True`, `False`, or anything
      else. */
  datatype CheckResult = IsTrue | IsFalse | Other

  /** A message, as the forum sees it: its class name and the result of
      its check against the world. */
  datatype Msg = Msg(className: string, check: CheckResult)

  /** `was_accepted`: the status is `True` itself, so an accepted message
      is never also rejected. */
  predicate WasAccepted(status: CheckResult)
    ensures WasAccepted(status) ==> !WasRejected(status)
  {
    status == IsTrue
  }

  /** `was_rejected`: the status is `False` itself, which `True` is not. */
  predicate WasRejected(status: CheckResult)
    ensures WasRejected(status) ==> status != IsTrue
  {
    status == IsFalse
  }

  /** A status that is neither `True` nor `False` is neither accepted nor
      rejected. */
  lemma StatusIsAtMostOne(status: CheckResult)
    ensures !(WasAccepted(status) && WasRejected(status))
    ensures status == Other ==> !WasAccepted(status) && !WasRejected(status)
  {
  }

  /** `Messenger`: the buffer of the messages its actor has sent. */
  class Messenger {
    var messages: seq<Msg>

    constructor ()
      ensures messages == []
    {
      messages := [];
    }

    /** `send_message`: buffered at the end. */
    method SendMessage(m: Msg)
      modifies this
      ensures messages == old(messages) + [m]
    {
      messages := messages + [m];
    }

    /** `deliver_messages`: hand over the buffer and start a new one. */
    method DeliverMessages() returns (buffer: seq<Msg>)
      modifies this
      ensures buffer == old(messages) && messages == []
    {
      buffer := messages;
      messages := [];
    }
  }

  /** Messages come out of a messenger in the order they were sent, and
      only once. */
  method SendTwiceDeliver(a: Msg, b: Msg) returns (first: seq<Msg>, second: seq<Msg>)
    ensures first == [a, b] && second == []
  {
    var messenger := new Messenger();
    messenger.SendMessage(a);
    messenger.SendMessage(b);
    assert [] + [a] + [b] == [a, b];
    first := messenger.DeliverMessages();
    second := messenger.DeliverMessages();
  }

  // ---------------------------------------------------------------------
  // IdFactory

  /** `IdFactory`: ids from the world's id plus one, counting up. */
  class IdFactory {
    var nextId: int
    /** The ids handed out so far. */
    ghost var issued: set<int>
    ghost const start: int

    ghost predicate Valid()
      reads this
    {
      start < nextId && forall i :: i in issued ==> start < i < nextId
    }

    constructor (worldId: int)
      ensures Valid() && start == worldId && nextId == worldId + 1 && issued == {}
    {
      nextId := worldId + 1;
      start := worldId;
      issued := {};
    }

    /** `next`: an id above every id handed out before, and above the
        world's. */
    method Next() returns (id: int)
      requires Valid()
      modifies this
      ensures Valid()
      ensures id == old(nextId) && nextId == old(nextId) + 1 && id > start
      ensures id !in old(issued) && issued == old(issued) + {id}
      ensures forall i :: i in old(issued) ==> i < id
    {
      id := nextId;
      nextId := nextId + 1;
      issued := issued + {id};
    }
  }

  datatype EngineError =
    | ActorHasId         // "Actor already has id."
    | ActorHasNoId       // "Actor does not have id."
    | TokenHasId         // "Token already has an id."
    | TokenNotBeforeSetup
    | NullId             // "Can't register/remove a token with a null id."
    | IdReused           // "Can't reuse %d as an id number."
    | NotRegistered      // "Can't remove an unregistered token."
    | UnknownId          // KeyError from `del self._tokens[id]`
    | NotInList          // ValueError from `list.remove(token)`
    | NotSubscribed      // ValueError from `subscribers.remove(subscriber)`

  // ---------------------------------------------------------------------
  // Actors and the forum

  /** `Actor`: its id and its messenger. */
  class Actor {
    var id: Option<int>
    const messenger: Messenger

    constructor ()
      ensures id.None? && fresh(messenger) && messenger.messages == []
    {
      id := None;
      messenger := new Messenger();
    }

    /** `give_id`: only once. */
    method GiveId(id: int) returns (r: Outcome<EngineError>)
      modifies this
      ensures r.Fail? <==> old(this.id).Some?
      ensures r.Fail? ==> r.error == ActorHasId && this.id == old(this.id)
      ensures r.Pass? ==> this.id == Some(id)
    {
      if this.id.Some? {
        return Fail(ActorHasId);
      }
      this.id := Some(id);
      r := Pass;
    }

    /** `get_id`. */
    function GetId(): (r: Result<int, EngineError>)
      reads this
      ensures r.Ok? <==> id.Some?
      ensures r.Ok? ==> r.value == id.value
    {
      if id.None? then Err(ActorHasNoId) else Ok(id.value)
    }
  }

  /** What `Forum.update` does, one step at a time. */
  datatype Event =
    | Rejected(sender: nat, message: Msg)               // `sender.reject_message`
    | Accepted(sender: nat, message: Msg)               // `sender.accept_message`
    | SetUp(message: Msg)                               // `message.setup(world, id_factory)`
    | DispatchedTo(actor: nat, message: Msg, fromHere: bool)
    | WorldHandled(message: Msg)                        // `world.handle_message`
    | NotifiedTo(actor: nat, message: Msg, fromHere: bool)

  /** A copy of the message for each of the `n` actors in order, marked
      as sent from here for its sender only. */
  function Fanout(n: nat, sender: nat, m: Msg, dispatch: bool): (es: seq<Event>)
    ensures |es| == n
    ensures forall i :: 0 <= i < n ==>
              es[i] == (if dispatch then DispatchedTo(i, m, i == sender) else NotifiedTo(i, m, i == sender))
  {
    if n == 0 then []
    else Fanout(n - 1, sender, m, dispatch) +
         [if dispatch then DispatchedTo(n - 1, m, n - 1 == sender) else NotifiedTo(n - 1, m, n - 1 == sender)]
  }

  /** One message of `Forum.update`: unless its check returned `True` the
      sender is told and nothing else happens; otherwise accept, setup,
      dispatch to every actor, the world's handling, and notification of
      every actor, in that order. */
  function MessageEvents(n: nat, sender: nat, m: Msg): seq<Event>
  {
    if !WasAccepted(m.check) then [Rejected(sender, m)]
    else [Accepted(sender, m), SetUp(m)] + Fanout(n, sender, m, true) + [WorldHandled(m)] + Fanout(n, sender, m, false)
  }

  /** Every message of one sender's buffer, in order. */
  function SenderEvents(n: nat, sender: nat, ms: seq<Msg>): seq<Event>
  {
    if ms == [] then [] else SenderEvents(n, sender, ms[..|ms| - 1]) + MessageEvents(n, sender, ms[|ms| - 1])
  }

  /** Every sender's buffer, senders in the forum's order. */
  function UpdateEvents(n: nat, inboxes: seq<seq<Msg>>): seq<Event>
  {
    if inboxes == [] then []
    else UpdateEvents(n, inboxes[..|inboxes| - 1]) + SenderEvents(n, |inboxes| - 1, inboxes[|inboxes| - 1])
  }

  lemma UpdateEventsSnoc(n: nat, inboxes: seq<seq<Msg>>, s: nat)
    requires s < |inboxes|
    ensures UpdateEvents(n, inboxes[..s + 1]) == UpdateEvents(n, inboxes[..s]) + SenderEvents(n, s, inboxes[s])
  {
    assert inboxes[..s + 1][..s] == inboxes[..s];
  }

  lemma SenderEventsSnoc(n: nat, sender: nat, ms: seq<Msg>, k: nat)
    requires k < |ms|
    ensures SenderEvents(n, sender, ms[..k + 1]) == SenderEvents(n, sender, ms[..k]) + MessageEvents(n, sender, ms[k])
  {
    assert ms[..k + 1][..k] == ms[..k];
  }

  lemma Associate<T>(a: seq<T>, b: seq<T>, c: seq<T>)
    ensures a + b + c == a + (b + c)
  {
  }

  /** A message whose check did not return `True` reaches no actor and
      not the world; an accepted one reaches every actor twice, the world
      in between, and is marked as sent from here for its sender only. */
  lemma AcceptedReachesEveryone(n: nat, sender: nat, m: Msg)
    ensures !WasAccepted(m.check) ==> MessageEvents(n, sender, m) == [Rejected(sender, m)]
    ensures WasAccepted(m.check) ==>
              var es := MessageEvents(n, sender, m);
              |es| == 2 * n + 3 && es[n + 2] == WorldHandled(m) &&
              (forall k :: 2 <= k < n + 2 ==> es[k] == DispatchedTo(k - 2, m, k - 2 == sender)) &&
              (forall k :: n + 3 <= k < 2 * n + 3 ==> es[k] == NotifiedTo(k - n - 3, m, k - n - 3 == sender))
  {
    if WasAccepted(m.check) {
      var d, h := Fanout(n, sender, m, true), Fanout(n, sender, m, false);
      var pre := [Accepted(sender, m), SetUp(m)] + d;
      var mid := pre + [WorldHandled(m)];
      var es := mid + h;
      assert es == MessageEvents(n, sender, m);
      assert |pre| == n + 2 && |mid| == n + 3;
      forall k | 2 <= k < n + 2
        ensures es[k] == DispatchedTo(k - 2, m, k - 2 == sender)
      {
        assert es[k] == mid[k] == pre[k] == d[k - 2];
      }
      forall k | n + 3 <= k < 2 * n + 3
        ensures es[k] == NotifiedTo(k - n - 3, m, k - n - 3 == sender)
      {
        assert es[k] == h[k - n - 3];
      }
      assert es[n + 2] == mid[n + 2];
    }
  }

  /** `Forum`. */
  class Forum {
    var actors: seq<Actor>
    var idFactory: IdFactory?
    /** What every `update` so far has done. */
    var trace: seq<Event>

    constructor ()
      ensures actors == [] && idFactory == null && trace == []
    {
      actors := [];
      idFactory := null;
      trace := [];
    }

    /** `setup`: the actors get the ids 0, 1, ... in list order, and token
        ids start above the world's. */
    method Setup(worldId: int, actors: seq<Actor>) returns (r: Outcome<EngineError>)
      modifies this, set a | a in actors
      ensures this.actors == actors && idFactory != null && fresh(idFactory) && idFactory.Valid()
      ensures idFactory.nextId == worldId + 1 && idFactory.issued == {}
      ensures r.Pass? ==> forall i :: 0 <= i < |actors| ==> actors[i].id == Some(i)
      ensures r.Fail? ==> r.error == ActorHasId
      ensures ((forall i :: 0 <= i < |actors| ==> old(actors[i].id).None?) &&
               (forall i, j :: 0 <= i < j < |actors| ==> actors[i] != actors[j])) ==> r.Pass?
      ensures trace == old(trace)
    {
      this.actors := actors;
      idFactory := new IdFactory(worldId);
      var i := 0;
      while i < |actors|
        invariant 0 <= i <= |actors|
        invariant forall k :: 0 <= k < i ==> actors[k].id == Some(k)
        invariant forall k :: i <= k < |actors| && (forall j :: 0 <= j < i ==> actors[j] != actors[k]) ==>
                    actors[k].id == old(actors[k].id)
        invariant this.actors == actors && idFactory != null && idFactory.Valid() && fresh(idFactory)
        invariant idFactory.nextId == worldId + 1 && idFactory.issued == {} && trace == old(trace)
      {
        r := actors[i].GiveId(i);
        if r.Fail? {
          return;
        }
        i := i + 1;
      }
      r := Pass;
    }

    /** The buffers of the actors' messengers. */
    function Inboxes(): (r: seq<seq<Msg>>)
      reads this, actors, set a | a in actors :: a.messenger
      ensures |r| == |actors| && forall s :: 0 <= s < |actors| ==> r[s] == actors[s].messenger.messages
    {
      seq(|actors|, s requires 0 <= s < |actors| reads this, actors, set a | a in actors :: a.messenger => actors[s].messenger.messages)
    }

    /** `update`: every actor's buffered messages, actor by actor, each run
        through `MessageEvents`; every buffer ends empty. */
    method Update()
      requires forall i, j :: 0 <= i < j < |actors| ==> actors[i].messenger != actors[j].messenger
      modifies this, set a | a in actors :: a.messenger
      ensures actors == old(actors)
      ensures trace == old(trace) + UpdateEvents(|actors|, old(Inboxes()))
      ensures forall s :: 0 <= s < |actors| ==> actors[s].messenger.messages == []
    {
      ghost var inboxes := Inboxes();
      var s := 0;
      while s < |actors|
        invariant 0 <= s <= |actors| && actors == old(actors)
        invariant trace == old(trace) + UpdateEvents(|actors|, inboxes[..s])
        invariant forall k :: 0 <= k < s ==> actors[k].messenger.messages == []
        invariant forall k :: s <= k < |actors| ==> actors[k].messenger.messages == inboxes[k]
      {
        UpdateEventsSnoc(|actors|, inboxes, s);
        UpdateSender(s);
        Associate(old(trace), UpdateEvents(|actors|, inboxes[..s]), SenderEvents(|actors|, s, inboxes[s]));
        s := s + 1;
      }
      assert inboxes[..s] == inboxes;
    }

    /** The messages of actor `s`, in the order it sent them. */
    method UpdateSender(s: nat)
      requires s < |actors|
      requires forall i, j :: 0 <= i < j < |actors| ==> actors[i].messenger != actors[j].messenger
      modifies this, actors[s].messenger
      ensures actors == old(actors)
      ensures forall k :: 0 <= k < |actors| && k != s ==> actors[k].messenger.messages == old(actors[k].messenger.messages)
      ensures trace == old(trace) + SenderEvents(|actors|, s, old(actors[s].messenger.messages))
      ensures actors[s].messenger.messages == []
    {
      var messages := actors[s].messenger.DeliverMessages();
      HandleMessages(s, messages);
    }

    /** The delivered messages of actor `s`, one after another. */
    method HandleMessages(s: nat, messages: seq<Msg>)
      modifies this
      ensures actors == old(actors)
      ensures trace == old(trace) + SenderEvents(|actors|, s, messages)
    {
      var k := 0;
      while k < |messages|
        invariant 0 <= k <= |messages| && actors == old(actors)
        invariant trace == old(trace) + SenderEvents(|actors|, s, messages[..k])
      {
        ghost var t0 := trace;
        SenderEventsSnoc(|actors|, s, messages, k);
        HandleMessage(s, messages[k]);
        Associate(old(trace), SenderEvents(|actors|, s, messages[..k]), MessageEvents(|actors|, s, messages[k]));
        k := k + 1;
      }
      assert messages[..k] == messages;
    }

    /** One message of `update`. */
    method HandleMessage(sender: nat, m: Msg)
      modifies this
      ensures trace == old(trace) + MessageEvents(|actors|, sender, m)
      ensures actors == old(actors)
    {
      if !WasAccepted(m.check) {
        trace := trace + [Rejected(sender, m)];
        return;
      }
      trace := trace + [Accepted(sender, m), SetUp(m)];
      var i := 0;
      while i < |actors|
        invariant 0 <= i <= |actors| && actors == old(actors)
        invariant trace == old(trace) + [Accepted(sender, m), SetUp(m)] + Fanout(i, sender, m, true)
      {
        trace := trace + [DispatchedTo(i, m, i == sender)];
        i := i + 1;
      }
      trace := trace + [WorldHandled(m)];
      ghost var t1 := trace;
      i := 0;
      while i < |actors|
        invariant 0 <= i <= |actors| && actors == old(actors)
        invariant trace == t1 + Fanout(i, sender, m, false)
      {
        trace := trace + [NotifiedTo(i, m, i == sender)];
        i := i + 1;
      }
      assert trace == old(trace) + ([Accepted(sender, m), SetUp(m)] + Fanout(|actors|, sender, m, true) +
                                    [WorldHandled(m)] + Fanout(|actors|, sender, m, false));
    }
  }

  // ---------------------------------------------------------------------
  // Publisher

  /** `list.remove(x)`: the first occurrence goes. */
  function RemoveFirst<T(==)>(s: seq<T>, x: T): (r: seq<T>)
    requires x in s
    ensures multiset(r) == multiset(s) - multiset{x}
    ensures |r| == |s| - 1
  {
    if s[0] == x then
      assert s == [s[0]] + s[1..];
      s[1..]
    else
      assert s == [s[0]] + s[1..];
      [s[0]] + RemoveFirst(s[1..], x)
  }

  /** Registering a new subscriber and unregistering it again restores
      the list. */
  lemma {:induction false} RegisterUnregister<T>(s: seq<T>, x: T)
    requires x !in s
    ensures RemoveFirst(s + [x], x) == s
  {
    if s != [] {
      assert (s + [x])[1..] == s[1..] + [x];
      RegisterUnregister(s[1..], x);
    }
  }

  /** `Publisher`: its subscribers in registration order. */
  class Publisher<S(==)> {
    var subscribers: seq<S>

    constructor (subscribers: seq<S>)
      ensures this.subscribers == subscribers
    {
      this.subscribers := subscribers;
    }

    method Register(s: S)
      modifies this
      ensures subscribers == old(subscribers) + [s]
    {
      subscribers := subscribers + [s];
    }

    /** `unregister`: the first registration goes; an unknown subscriber
        raises ValueError. */
    method Unregister(s: S) returns (r: Outcome<EngineError>)
      modifies this
      ensures r.Fail? <==> s !in old(subscribers)
      ensures r.Fail? ==> r.error == NotSubscribed && subscribers == old(subscribers)
      ensures r.Pass? ==> subscribers == RemoveFirst(old(subscribers), s)
    {
      if s !in subscribers {
        return Fail(NotSubscribed);
      }
      subscribers := RemoveFirst(subscribers, s);
      r := Pass;
    }

    /** `publish`: every subscriber receives the event, in registration
        order, once per registration. */
    method Publish() returns (received: seq<S>)
      ensures received == subscribers
    {
      received := [];
      var i := 0;
      while i < |subscribers|
        invariant 0 <= i <= |subscribers| && received == subscribers[..i]
      {
        received := received + [subscribers[i]];
        assert subscribers[..i + 1] == subscribers[..i] + [subscribers[i]];
        i := i + 1;
      }
    }
  }

  // ---------------------------------------------------------------------
  // Tokens and the world

  /** `Token`. */
  class Token {
    var id: Option<int>
    var status: LegacyTokens.Status

    constructor ()
      ensures id.None? && status == LegacyTokens.BeforeSetup
    {
      id := None;
      status := LegacyTokens.BeforeSetup;
    }

    /** `give_id`: a token without an id, before setup, takes the
        factory's next id. */
    method GiveId(factory: IdFactory) returns (r: Outcome<EngineError>)
      requires factory.Valid()
      modifies this, factory
      ensures factory.Valid()
      ensures r.Fail? <==> old(id).Some? || old(status) != LegacyTokens.BeforeSetup
      ensures r.Fail? ==> r.error == (if old(id).Some? then TokenHasId else TokenNotBeforeSetup)
      ensures r.Fail? ==> id == old(id) && factory.nextId == old(factory.nextId) && factory.issued == old(factory.issued)
      ensures r.Pass? ==> id == Some(old(factory.nextId)) && old(factory.nextId) !in old(factory.issued)
      ensures r.Pass? ==> factory.nextId == old(factory.nextId) + 1 && factory.issued == old(factory.issued) + {id.value}
      ensures status == old(status)
    {
      if id.Some? {
        return Fail(TokenHasId);
      }
      if status != LegacyTokens.BeforeSetup {
        return Fail(TokenNotBeforeSetup);
      }
      var next := factory.Next();
      id := Some(next);
      r := Pass;
    }
  }

  /** A list the caller passes to `add_token`/`remove_token`. */
  class TokenList {
    var items: seq<Token>

    constructor (items: seq<Token>)
      ensures this.items == items
    {
      this.items := items;
    }
  }

  datatype Entry = WorldItself | Held(token: Token)

  /** `World`: id 1, and its table. */
  class World {
    var tokens: map<int, Entry>

    constructor ()
      ensures tokens == map[1 := WorldItself]
    {
      tokens := map[1 := WorldItself];
    }

    /** `add_token`: a token with an unused id is entered under it, appended
        to the list if there is one, and registered. */
    method AddToken(t: Token, list: TokenList?) returns (r: Outcome<EngineError>)
      modifies this, t, list
      ensures r.Fail? <==> old(t.id).None? || old(t.id).value in old(tokens)
      ensures r.Fail? ==> r.error == (if old(t.id).None? then NullId else IdReused)
      ensures r.Fail? ==> tokens == old(tokens) && t.status == old(t.status) && (list != null ==> list.items == old(list.items))
      ensures r.Pass? ==> tokens == old(tokens)[old(t.id).value := Held(t)] && t.status == LegacyTokens.Registered
      ensures r.Pass? && list != null ==> list.items == old(list.items) + [t]
      ensures t.id == old(t.id)
    {
      if t.id.None? {
        return Fail(NullId);
      }
      if t.id.value in tokens {
        return Fail(IdReused);
      }
      tokens := tokens[t.id.value := Held(t)];
      if list != null {
        list.items := list.items + [t];
      }
      t.status := LegacyTokens.Registered;
      r := Pass;
    }

    /** `remove_token`: a registered token is deleted from the table and
        from the list, then torn down.  A list without the token raises
        after the table entry is gone, and the token stays registered. */
    method RemoveToken(t: Token, list: TokenList?) returns (r: Outcome<EngineError>)
      modifies this, t, list
      ensures r.Fail? <==> old(t.id).None? || old(t.status) != LegacyTokens.Registered || old(t.id).value !in old(tokens) ||
                           (list != null && t !in old(list.items))
      ensures r.Fail? ==> r.error == (if old(t.id).None? then NullId
                                      else if old(t.status) != LegacyTokens.Registered then NotRegistered
                                      else if old(t.id).value !in old(tokens) then UnknownId
                                      else NotInList)
      ensures r.Fail? && r.error != NotInList ==> tokens == old(tokens)
      ensures r.Fail? && r.error == NotInList ==> tokens == old(tokens) - {old(t.id).value}
      ensures r.Fail? ==> t.status == old(t.status) && (list != null ==> list.items == old(list.items))
      ensures r.Pass? ==> tokens == old(tokens) - {old(t.id).value} && t.status == LegacyTokens.AfterTeardown
      ensures r.Pass? && list != null ==> list.items == RemoveFirst(old(list.items), t)
      ensures t.id == old(t.id)
    {
      if t.id.None? {
        return Fail(NullId);
      }
      if t.status != LegacyTokens.Registered {
        return Fail(NotRegistered);
      }
      if t.id.value !in tokens {
        return Fail(UnknownId);
      }
      tokens := tokens - {t.id.value};
      if list != null {
        if t !in list.items {
          return Fail(NotInList);
        }
        list.items := RemoveFirst(list.items, t);
      }
      t.status := LegacyTokens.AfterTeardown;
      r := Pass;
    }
  }

  /** Adding a new token and removing it again, with the same list, gives
      back the table and the list, and leaves the token torn down. */
  method AddThenRemove(w: World, t: Token, list: TokenList?) returns (added: Outcome<EngineError>, removed: Outcome<EngineError>)
    modifies w, t, list
    ensures added.Pass? <==> old(t.id).Some? && old(t.id).value !in old(w.tokens)
    ensures added.Pass? && (list != null ==> t !in old(list.items)) ==>
              removed.Pass? && w.tokens == old(w.tokens) && t.status == LegacyTokens.AfterTeardown &&
              (list != null ==> list.items == old(list.items))
  {
    added := w.AddToken(t, list);
    if added.Fail? {
      return added, added;
    }
    removed := w.RemoveToken(t, list);
    assert old(w.tokens)[t.id.value := Held(t)] - {t.id.value} == old(w.tokens);
    if list != null && t !in old(list.items) {
      RegisterUnregister(old(list.items), t);
    }
  }
}
