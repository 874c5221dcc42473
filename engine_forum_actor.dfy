/** Forums and actors of the older engine (kxg/engine/forum_and_actor.py).
    A local dispatch locks the message, executes it and lets the world react
    with token access unrestricted, then lets every actor react.  Over the
    network, a `RemoteActor` on the server checks what its client sends and
    flags failures as soft or hard sync errors, and a `RemoteForum` on the
    client re-executes what other clients sent and runs the sync-error
    handlers.  The messages read off a pipe are described by the values
    those two loops look at. */
module LegacyForums {
  import opened Wrappers
  import IdFactories
  import opened LegacyTokens
  import opened LegacyMessages

  datatype ForumError =
    | MessageFailed(error: MessageError)
    | TokenFailed(tokenError: TokenError)
    | AlreadyHasWorld      // "Actor already has world."
    | ActorAlreadyHasId    // "Actor already has id."
    | AlreadyHasForum      // "Actor already has forum."
    | NoId                 // "Actor does not have id."
    | RefereeIdNotOne      // `assert self.get_id() == 1`

  /** One step of `dispatch_message`, and whether token access was
      unrestricted while it ran. */
  datatype Step =
    | Executed(unrestricted: bool)
    | WorldReacted(unrestricted: bool)
    | ActorReacted(actor: nat, unrestricted: bool)

  /** The actors' reactions, in the order of the forum's actor list, all
      with token access restricted again. */
  function ActorSteps(n: nat): (steps: seq<Step>)
    ensures |steps| == n
    ensures forall i :: 0 <= i < n ==> steps[i] == ActorReacted(i, false)
  {
    if n == 0 then [] else ActorSteps(n - 1) + [ActorReacted(n - 1, false)]
  }

  /** `Forum`, once `connect_everyone` has given it its world and actors. */
  class Forum {
    const world: World
    const actorCount: nat
    /** The steps of every dispatch so far. */
    var trace: seq<Step>

    constructor (world: World, actorCount: nat)
      ensures this.world == world && this.actorCount == actorCount && trace == []
    {
      this.world := world;
      this.actorCount := actorCount;
      trace := [];
    }

    /** `dispatch_message`: lock the message (a second lock raises), then
        execute it and let the world react inside `unrestricted_token_access`,
        whose exit restores the lock even when execution raises, then let
        each actor react. */
    method DispatchMessage(m: Message, lock: AccessLock) returns (r: Outcome<MessageError>)
      modifies this, m, lock, world, if m.kind.CreateToken? || m.kind.DestroyToken? then {m.kind.token} else {}
      ensures !old(m.mutable) ==>
                r == Fail(AlreadyLocked) && trace == old(trace) && world.tokens == old(world.tokens) &&
                lock.locked == old(lock.locked)
      ensures old(m.mutable) ==> !m.mutable && lock.locked
      ensures old(m.mutable) && (m.kind.Plain? || m.kind.Composite?) ==> r.Pass? && world.tokens == old(world.tokens)
      ensures old(m.mutable) && m.kind.CreateToken? ==> ExecutedAdd(world, m.kind.token, r)
      ensures old(m.mutable) && m.kind.DestroyToken? ==> ExecutedRemove(world, m.kind.token, r)
      ensures r.Pass? ==> trace == old(trace) + [Executed(true), WorldReacted(true)] + ActorSteps(actorCount)
      ensures r.Fail? ==> trace == old(trace)
      ensures world.status == old(world.status) && world.actors == old(world.actors)
      ensures m.senderId == old(m.senderId) && m.errorState == old(m.errorState)
    {
      r := m.Lock();
      if r.Fail? {
        return;
      }
      lock.Enter();
      r := m.Execute(world);
      if r.Fail? {
        lock.Exit();
        return;
      }
      trace := trace + [Executed(!lock.locked)];
      trace := trace + [WorldReacted(!lock.locked)];
      lock.Exit();
      var t0 := trace;
      var i := 0;
      while i < actorCount
        modifies this
        invariant 0 <= i <= actorCount && trace == t0 + ActorSteps(i)
      {
        trace := trace + [ActorReacted(i, !lock.locked)];
        i := i + 1;
      }
    }
  }

  /** `Actor`, and `Referee` when `isReferee`. */
  class Actor {
    const isReferee: bool
    var world: World?
    var forum: Forum?
    var factory: IdFactories.IdFactory?

    constructor (isReferee: bool)
      ensures this.isReferee == isReferee && world == null && forum == null && factory == null
    {
      this.isReferee := isReferee;
      world := null;
      forum := null;
      factory := null;
    }

    /** `set_world`: only once. */
    method SetWorld(w: World) returns (r: Outcome<ForumError>)
      modifies this
      ensures r.Fail? <==> old(world) != null
      ensures r.Fail? ==> r.error == AlreadyHasWorld && world == old(world)
      ensures r.Pass? ==> world == w
      ensures forum == old(forum) && factory == old(factory)
    {
      if world != null {
        return Fail(AlreadyHasWorld);
      }
      world := w;
      r := Pass;
    }

    /** `set_forum`: the factory is taken before the forum is tested, so a
        second forum is refused only after the factory has been replaced
        (which the id test before it rules out); a referee then insists
        on id 1. */
    method SetForum(f: Forum, idFactory: IdFactories.IdFactory) returns (r: Outcome<ForumError>)
      modifies this
      ensures old(factory) != null ==> r == Fail(ActorAlreadyHasId) && factory == old(factory) && forum == old(forum)
      ensures old(factory) == null && old(forum) != null ==>
                r == Fail(AlreadyHasForum) && factory == idFactory && forum == old(forum)
      ensures old(factory) == null && old(forum) == null ==>
                factory == idFactory && forum == f &&
                (r.Fail? <==> isReferee && idFactory.offset != 1) && (r.Fail? ==> r.error == RefereeIdNotOne)
      ensures world == old(world)
    {
      if factory != null {
        return Fail(ActorAlreadyHasId);
      }
      factory := idFactory;
      if forum != null {
        return Fail(AlreadyHasForum);
      }
      forum := f;
      if isReferee && idFactory.Get() != 1 {
        return Fail(RefereeIdNotOne);
      }
      r := Pass;
    }

    /** `get_id`: the factory's offset. */
    function GetId(): (r: Result<int, ForumError>)
      reads this
      ensures r.Err? <==> factory == null
      ensures r.Ok? ==> r.value == factory.offset
    {
      if factory == null then Err(NoId) else Ok(factory.Get())
    }

    /** `send_message` of a connected actor: stamp the sender, give a
        `CreateToken`'s token the factory's next id, check the message,
        and dispatch it iff the check passes.  The check is the corrected
        `Message.Check`. */
    method SendMessage(m: Message, userCheck: bool, lock: AccessLock) returns (r: Result<bool, ForumError>)
      requires world != null && forum != null && factory != null
      modifies m, factory, forum, lock, forum.world, if m.kind.CreateToken? || m.kind.DestroyToken? then {m.kind.token} else {}
      ensures !old(m.mutable) ==> r == Err(MessageFailed(ImmutableMessageError))
      ensures r.Ok? ==> m.senderId == Some(factory.offset)
      ensures r == Ok(true) ==>
                !m.mutable && forum.trace == old(forum.trace) + [Executed(true), WorldReacted(true)] + ActorSteps(forum.actorCount)
      ensures r != Ok(true) ==> forum.trace == old(forum.trace)
      ensures old(m.mutable) && m.kind.Plain? ==> r == Ok(userCheck)
      ensures old(m.mutable) && m.kind.CreateToken? && old(m.kind.token.id).Some? ==> r == Err(TokenFailed(TokenError.AlreadyHasId))
      ensures old(m.mutable) && m.kind.CreateToken? && old(m.kind.token.id).None? &&
              old(m.kind.token.status) == BeforeSetup && forum.world == world ==>
                var id := IdFactories.NthId(factory.offset, factory.spacing, old(factory.numIdsAssigned));
                m.kind.token.id == Some(id) &&
                (r == Ok(true) <==> id !in old(world.tokens) && factory.spacing > 0) &&
                (r == Ok(true) ==> world.tokens == old(world.tokens)[id := Held(m.kind.token)])
    {
      var stamped := m.SetSenderId(factory);
      if stamped.Fail? {
        return Err(MessageFailed(stamped.error));
      }
      if m.kind.CreateToken? {
        var given := m.kind.token.GiveId(factory);
        if given.Fail? {
          return Err(TokenFailed(given.error));
        }
        if factory.spacing > 0 {
          IdFactories.NthIdIsMember(factory.offset, factory.spacing, old(factory.numIdsAssigned));
        }
      }
      var checked := m.Check(world, factory, userCheck);
      if checked.Err? {
        return Err(MessageFailed(checked.error));
      }
      if !checked.value {
        return Ok(false);
      }
      var dispatched := forum.DispatchMessage(m, lock);
      if dispatched.Fail? {
        return Err(MessageFailed(dispatched.error));
      }
      r := Ok(true);
    }
  }

  /** A message read off a pipe, as the receiving loops see it: its sender
      id, whether it was locked before it was sent, its error flag, and,
      on the server, the result of its check against the server's world
      and of its soft-sync-error check. */
  datatype Received = Received(senderId: Option<int>, locked: bool, errorState: Option<ErrorState>,
                               passes: bool, soft: bool)

  /** What a receiving loop does with a message. */
  datatype Effect =
    | SentBack(m: Received)      // `self.pipe.send(message)` to the client it came from
    | Relayed(m: Received)       // `self.pipe.send(message)` from `react_to_message`
    | Dispatched(m: Received)    // the forum's `dispatch_message`
    | SoftHandled(m: Received)   // `dispatch_soft_sync_error`
    | HardHandled(m: Received)   // `dispatch_hard_sync_error`

  /** The effects of a run of the loop, and the error that stopped it, if
      any. */
  datatype Progress = Progress(effects: seq<Effect>, error: Option<ForumError>)

  datatype Role = Server | Client

  function Then(effects: seq<Effect>, p: Progress): Progress
  {
    Progress(effects + p.effects, p.error)
  }

  /** The message after `flag_soft_sync_error` or `flag_hard_sync_error`. */
  function Flagged(m: Received): Received
  {
    m.(errorState := Some(if m.soft then SoftSyncError else HardSyncError))
  }

  /** The forum's `dispatch_message`, as far as a receiving loop sees it:
      its first step locks the message, which raises for a message locked
      already. */
  function Dispatch(m: Received): Progress
  {
    if m.locked then Progress([], Some(MessageFailed(AlreadyLocked)))
    else Progress([Dispatched(m.(locked := true))], None)
  }

  /** One iteration of `RemoteActor.on_update_game`: a message failing its
      check is flagged (an assignment, refused on a locked message) and
      sent back; a hard failure goes no further; a message from another
      sender is dropped; the rest are dispatched. */
  function ServerHandles(m: Received, id: int): Progress
  {
    if !m.passes && m.locked then Progress([], Some(MessageFailed(ImmutableMessageError)))
    else
      var m' := if m.passes then m else Flagged(m);
      var back := if m.passes then [] else [SentBack(m')];
      if !m.passes && !m.soft then Progress(back, None)
      else if m.senderId.None? then Progress(back, Some(MessageFailed(NoSenderId)))
      else if m.senderId.value != id then Progress(back, None)
      else Then(back, Dispatch(m'))
  }

  /** One iteration of `RemoteForum.on_update_game`: a message sent by
      another client is dispatched (this client's own were executed when
      sent), then the soft and hard handlers run as the message is
      flagged. */
  function ClientHandles(m: Received, id: int): Progress
  {
    if m.senderId.None? then Progress([], Some(MessageFailed(NoSenderId)))
    else
      var foreign := m.senderId.value != id;
      var d := if foreign then Dispatch(m) else Progress([], None);
      if d.error.Some? then d
      else
        var m' := if foreign then m.(locked := true) else m;
        Then(d.effects, Progress((if m.errorState == Some(SoftSyncError) then [SoftHandled(m')] else []) +
                                 (if m.errorState == Some(HardSyncError) then [HardHandled(m')] else []), None))
  }

  function Handle(role: Role, m: Received, id: int): Progress
  {
    match role
    case Server => ServerHandles(m, id)
    case Client => ClientHandles(m, id)
  }

  /** The loop over everything received: messages in order, stopping at
      the first error. */
  function Plan(role: Role, ms: seq<Received>, id: int): Progress
  {
    if ms == [] then Progress([], None)
    else
      var p := Handle(role, ms[0], id);
      if p.error.Some? then p else Then(p.effects, Plan(role, ms[1..], id))
  }

  lemma ThenThen(a: seq<Effect>, b: seq<Effect>, p: Progress)
    ensures Then(a, Then(b, p)) == Then(a + b, p)
  {
    assert a + (b + p.effects) == (a + b) + p.effects;
  }

  /** The loop over `ms` has handled its first `i` messages, with the
      effects `done`, and has not stopped. */
  ghost predicate HandledUpTo(role: Role, ms: seq<Received>, id: int, i: nat, done: seq<Effect>)
  {
    i <= |ms| && Then(done, Plan(role, ms[i..], id)) == Plan(role, ms, id)
  }

  /** Handling message `i` either moves the loop on or stops it with the
      whole run's outcome. */
  lemma HandledNext(role: Role, ms: seq<Received>, id: int, i: nat, done: seq<Effect>,
                    here: seq<Effect>, error: Option<ForumError>)
    requires HandledUpTo(role, ms, id, i, done) && i < |ms|
    requires Progress(here, error) == Handle(role, ms[i], id)
    ensures error.None? ==> HandledUpTo(role, ms, id, i + 1, done + here)
    ensures error.Some? ==> Plan(role, ms, id) == Progress(done + here, error)
  {
    assert ms[i..][1..] == ms[i + 1..];
    ThenThen(done, here, Plan(role, ms[i + 1..], id));
  }

  /** A loop that handled every message without stopping did the whole
      run. */
  lemma HandledAll(role: Role, ms: seq<Received>, id: int, done: seq<Effect>)
    requires HandledUpTo(role, ms, id, |ms|, done)
    ensures Plan(role, ms, id) == Progress(done, None)
  {
    assert ms[|ms|..] == [];
    assert done + [] == done;
  }

  /** Receiving one more message extends the run by that message's
      handling, unless the run already stopped. */
  lemma {:induction false} PlanAppend(role: Role, ms: seq<Received>, m: Received, id: int)
    ensures Plan(role, ms + [m], id) ==
            (var p := Plan(role, ms, id);
             if p.error.Some? then p else Then(p.effects, Handle(role, m, id)))
  {
    if ms == [] {
      assert [m][1..] == [];
      assert Handle(role, m, id).effects + [] == Handle(role, m, id).effects;
    } else {
      assert (ms + [m])[1..] == ms[1..] + [m];
      PlanAppend(role, ms[1..], m, id);
      var p := Handle(role, ms[0], id);
      if p.error.None? {
        var rest := Plan(role, ms[1..], id);
        if rest.error.None? {
          assert p.effects + (rest.effects + Handle(role, m, id).effects) ==
                 (p.effects + rest.effects) + Handle(role, m, id).effects;
        }
      }
    }
  }

  /** On the server, a message is dispatched only if it came from this
      actor's client: every dispatched one carries this actor's id and is
      locked. */
  lemma {:induction false} ServerDispatchesOnlyOwn(ms: seq<Received>, id: int)
    ensures forall e :: e in Plan(Server, ms, id).effects && e.Dispatched? ==>
              e.m.senderId == Some(id) && e.m.locked
  {
    if ms != [] {
      ServerDispatchesOnlyOwn(ms[1..], id);
    }
  }

  /** On the server, a message that fails hard is not dispatched: when no
      message arrives flagged hard, no dispatched one is. */
  lemma {:induction false} ServerDispatchesNoHard(ms: seq<Received>, id: int)
    requires forall j :: 0 <= j < |ms| ==> ms[j].errorState != Some(HardSyncError)
    ensures forall e :: e in Plan(Server, ms, id).effects && e.Dispatched? ==>
              e.m.errorState != Some(HardSyncError)
  {
    if ms != [] {
      ServerDispatchesNoHard(ms[1..], id);
    }
  }

  /** On the server, every message failing its check is sent back flagged
      (soft iff its soft-error check passes), and a hard failure is never
      dispatched. */
  lemma ServerFlagsFailures(m: Received, id: int)
    requires !m.passes && !m.locked
    ensures |ServerHandles(m, id).effects| > 0 && ServerHandles(m, id).effects[0] == SentBack(Flagged(m))
    ensures !m.soft ==> ServerHandles(m, id) == Progress([SentBack(Flagged(m))], None)
  {
  }

  /** On a client, a message this client sent is never executed a second
      time: every dispatched message has another sender. */
  lemma {:induction false} ClientSkipsOwn(ms: seq<Received>, id: int)
    ensures forall e :: e in Plan(Client, ms, id).effects && e.Dispatched? ==>
              e.m.senderId.Some? && e.m.senderId != Some(id)
  {
    if ms != [] {
      ClientSkipsOwn(ms[1..], id);
    }
  }

  /** `RemoteActor`: the actor standing for one client on the server. */
  class RemoteActor {
    /** The actor's id, its factory's offset. */
    const id: int
    /** What it has sent down its pipe and handed to the forum, in order. */
    var effects: seq<Effect>

    constructor (id: int)
      ensures this.id == id && effects == []
    {
      this.id := id;
      effects := [];
    }

    /** `react_to_message`: everything another client sent is relayed to
        this one; its own messages are not sent back. */
    method ReactToMessage(m: Received) returns (r: Outcome<ForumError>)
      modifies this
      ensures r.Fail? <==> m.senderId.None?
      ensures r.Fail? ==> r.error == MessageFailed(NoSenderId)
      ensures effects == old(effects) + (if m.senderId.Some? && m.senderId.value != id then [Relayed(m)] else [])
    {
      if m.senderId.None? {
        return Fail(MessageFailed(NoSenderId));
      }
      if m.senderId.value != id {
        effects := effects + [Relayed(m)];
      }
      r := Pass;
    }

    /** `on_update_game`: each received message is checked, flagged and
        sent back on failure, and dispatched unless it failed hard or came
        from another sender. */
    method OnUpdateGame(received: seq<Received>) returns (r: Outcome<ForumError>)
      modifies this
      ensures effects == old(effects) + Plan(Server, received, id).effects
      ensures r.Fail? <==> Plan(Server, received, id).error.Some?
      ensures r.Fail? ==> r.error == Plan(Server, received, id).error.value
    {
      var i := 0;
      ghost var done: seq<Effect> := [];
      assert received[0..] == received;
      while i < |received|
        invariant effects == old(effects) + done
        invariant HandledUpTo(Server, received, id, i, done)
      {
        var here, error := Serve(received[i], id);
        HandledNext(Server, received, id, i, done, here, error);
        effects := effects + here;
        if error.Some? {
          return Fail(error.value);
        }
        done := done + here;
        i := i + 1;
      }
      HandledAll(Server, received, id, done);
      r := Pass;
    }

    /** One iteration of the loop of `on_update_game`. */
    method Serve(m: Received, id: int) returns (here: seq<Effect>, error: Option<ForumError>)
      ensures Progress(here, error) == ServerHandles(m, id)
    {
      var m := m;
      here := [];
      if !m.passes {
        if m.locked {
          return [], Some(MessageFailed(ImmutableMessageError));
        }
        m := Flagged(m);
        here := here + [SentBack(m)];
        if !m.soft {
          return here, None;
        }
      }
      if m.senderId.None? {
        return here, Some(MessageFailed(NoSenderId));
      }
      if m.senderId.value != id {
        return here, None;
      }
      if m.locked {
        return here, Some(MessageFailed(AlreadyLocked));
      }
      here := here + [Dispatched(m.(locked := true))];
      error := None;
    }
  }

  /** `RemoteForum`: the forum of a client. */
  class RemoteForum {
    /** The id of the client's actor, the offset of the factory the server
        sent it. */
    const id: int
    var effects: seq<Effect>

    constructor (id: int)
      ensures this.id == id && effects == []
    {
      this.id := id;
      effects := [];
    }

    /** `on_update_game`: each message from the server is executed here if
        another client sent it, then handled as a soft or hard sync error
        as it is flagged. */
    method OnUpdateGame(received: seq<Received>) returns (r: Outcome<ForumError>)
      modifies this
      ensures effects == old(effects) + Plan(Client, received, id).effects
      ensures r.Fail? <==> Plan(Client, received, id).error.Some?
      ensures r.Fail? ==> r.error == Plan(Client, received, id).error.value
    {
      var i := 0;
      ghost var done: seq<Effect> := [];
      assert received[0..] == received;
      while i < |received|
        invariant effects == old(effects) + done
        invariant HandledUpTo(Client, received, id, i, done)
      {
        var here, error := Receive(received[i], id);
        HandledNext(Client, received, id, i, done, here, error);
        effects := effects + here;
        if error.Some? {
          return Fail(error.value);
        }
        done := done + here;
        i := i + 1;
      }
      HandledAll(Client, received, id, done);
      r := Pass;
    }

    /** One iteration of the loop of `on_update_game`. */
    method Receive(m: Received, id: int) returns (here: seq<Effect>, error: Option<ForumError>)
      ensures Progress(here, error) == ClientHandles(m, id)
    {
      var m := m;
      here := [];
      if m.senderId.None? {
        return [], Some(MessageFailed(NoSenderId));
      }
      if m.senderId.value != id {
        if m.locked {
          return [], Some(MessageFailed(AlreadyLocked));
        }
        m := m.(locked := true);
        here := here + [Dispatched(m)];
      }
      if m.errorState == Some(SoftSyncError) {
        here := here + [SoftHandled(m)];
      }
      if m.errorState == Some(HardSyncError) {
        here := here + [HardHandled(m)];
      }
      error := None;
    }
  }
}
