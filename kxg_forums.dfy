/** The forum of the current engine and the actors connected to it
    (kxg/forums.py `Forum`, `RemoteForum`; kxg/actors.py `Actor`,
    `RemoteActor`, `Referee`).  Forum and Actor share a module because each
    refers to the other: an actor sends through its forum, and the forum
    relays to and notifies its actors.

    What the forum does to the world is the message's own `_execute` and
    `_handle_hard_sync_error` (module Messages).  What it does for everyone
    else -- relaying a message down an actor's pipe, and the callbacks of the
    world and of the actors -- is recorded, in order, in the forum's `log`.
    Answers of user hooks (`on_check`, `on_check_for_soft_sync_error`) are
    parameters. */
module Forums {
  import opened Wrappers
  import IdFactories
  import opened TokenWorld
  import opened Tables
  import opened Messages
  import Observers

  /** The actor classes the engine defines.  `Remote` and `Server` actors
      (kxg/multiplayer.py `ServerActor`) stand for a client on another
      machine: they disable forum observation when they are built. */
  datatype ActorKind = Local | Referee | Remote | Server

  datatype ForumError =
    | NotConnected               // `self.actors`, `self.world` or `self._forum` is still None
    | ActorHasNoId               // `self._id_factory` is still None
    | ActorAlreadyHasWorld       // the assertion in `_set_world`
    | ActorAlreadyHasId          // the first assertion in `_set_forum`
    | ActorAlreadyHasForum       // the second assertion in `_set_forum`
    | RefereeIdNotOne            // the assertion in `Referee._set_forum`
    | NotOneActor                // the assertion in `RemoteForum.connect_everyone`
    | NoIdFromServer             // `RemoteForum._assign_id_factories` before the server's factory came
    | ObservationDisabled        // a remote actor asked to run its callbacks
    | StaleReporter              // `UsingStaleReporter`
    | ReporterHasNoReferee       // `None.send_message`
    | RemoteCannotSend           // `RemoteActor.send_message` and `ServerActor.send_message` raise
    | MessageFailed(messageError: MessageError)
    | WorldFailed(apiError: ApiError)

  /** What travels down a pipe: an id factory (sent by a remote actor to its
      client when it is connected), a message, or a server response
      (kxg/multiplayer.py `ServerResponse`). */
  datatype Packet =
    | FactoryPacket(offset: int, spacing: nat)
    | MessagePacket(message: Message)
    | ResponsePacket(responseId: int, syncNeeded: bool, undoNeeded: bool)

  /** One step of the forum's work, as it happens. */
  datatype ForumEvent =
    | Relayed(actor: nat, message: Message)              // `actors[actor]._dispatch_message` sent it down its pipe
    | Executed(message: Message, worldLocked: bool)      // `message._execute(world)` started
    | SyncHandled(event: Observers.Event, message: Message, worldLocked: bool)
                                                         // `_handle_soft_sync_error` / `_handle_hard_sync_error` started
    | WorldReacted(event: Observers.Event, message: Message, worldLocked: bool)
    | ActorReacted(actor: nat, event: Observers.Event, message: Message)

  /** The relays of `dispatch_message`'s first loop, in actor order; the
      first actor that raises stops the loop. */
  function RelayEvents(actors: seq<Actor>, m: Message, senderId: Option<int>): Result<seq<ForumEvent>, ForumError>
    reads set a | a in actors
  {
    if actors == [] then Ok([])
    else
      var n := |actors| - 1;
      var rest := RelayEvents(actors[..n], m, senderId);
      if rest.Err? then rest
      else
        var relays := actors[n].Relays(senderId);
        if relays.Err? then Err(relays.error)
        else Ok(rest.value + if relays.value then [Relayed(n, m)] else [])
  }

  /** The reactions of the actors to an event, in actor order. */
  function ReactEvents(actors: seq<Actor>, event: Observers.Event, m: Message): (r: Result<seq<ForumEvent>, ForumError>)
    ensures event == Observers.MessageEvent ==> r.Ok?
  {
    if actors == [] then Ok([])
    else
      var n := |actors| - 1;
      var rest := ReactEvents(actors[..n], event, m);
      if rest.Err? then rest
      else
        var reacts := actors[n].Reacts(event);
        if reacts.Err? then Err(reacts.error)
        else Ok(rest.value + if reacts.value then [ActorReacted(n, event, m)] else [])
  }

  /** Relaying goes down exactly the pipes of the remote and server actors
      whose client did not send the message -- never back to the client it
      came from -- and fails iff one of those actors cannot tell. */
  lemma {:induction false} RelayEventsSpec(actors: seq<Actor>, m: Message, senderId: Option<int>)
    ensures RelayEvents(actors, m, senderId).Err? <==>
              exists i :: 0 <= i < |actors| && actors[i].Relays(senderId).Err?
    ensures RelayEvents(actors, m, senderId).Ok? ==>
              forall i :: 0 <= i < |actors| ==>
                (Relayed(i, m) in RelayEvents(actors, m, senderId).value <==> actors[i].Relays(senderId) == Ok(true))
    ensures RelayEvents(actors, m, senderId).Ok? ==>
              forall e :: e in RelayEvents(actors, m, senderId).value ==> e.Relayed? && e.message == m && e.actor < |actors|
  {
    if actors != [] {
      var n := |actors| - 1;
      RelayEventsSpec(actors[..n], m, senderId);
      assert forall i :: 0 <= i < n ==> actors[..n][i] == actors[i];
    }
  }

  /** A remote or server actor whose client sent the message does not send
      it back. */
  lemma NeverRelayedToSender(actors: seq<Actor>, m: Message, i: nat)
    requires i < |actors| && actors[i].factory != null && m.senderId == Some(actors[i].factory.offset)
    requires RelayEvents(actors, m, m.senderId).Ok?
    ensures Relayed(i, m) !in RelayEvents(actors, m, m.senderId).value
  {
    RelayEventsSpec(actors, m, m.senderId);
  }

  class Actor {
    const kind: ActorKind
    /** The actor's class, as the world's `_actors` list sees it. */
    const cls: ActorClass
    var world: World?
    var forum: Forum?
    var factory: IdFactories.IdFactory?
    /** What the actor's pipe has been asked to send (remote and server
        actors only). */
    var outbox: seq<Packet>

    /** `Actor.__init__` (and `RemoteActor.__init__`): no world, forum or id
        yet. */
    constructor (kind: ActorKind, cls: ActorClass)
      ensures this.kind == kind && this.cls == cls
      ensures world == null && forum == null && factory == null && outbox == []
    {
      this.kind := kind;
      this.cls := cls;
      world := null;
      forum := null;
      factory := null;
      outbox := [];
    }

    /** `id`: the offset of the actor's id factory. */
    function Id(): (r: Result<int, ForumError>)
      reads this
      ensures r.Ok? <==> factory != null
      ensures r.Ok? ==> r.value == factory.offset
      ensures r.Err? ==> r.error == ActorHasNoId
    {
      if factory == null then Err(ActorHasNoId) else Ok(factory.Get())
    }

    /** The actor's id as an option: None until it has a factory. */
    function Own(): (own: Option<int>)
      reads this
      ensures own.Some? <==> factory != null
      ensures own.Some? ==> Id() == Ok(own.value)
    {
      if factory == null then None else Some(factory.Get())
    }

    /** `is_referee`: the actor is the referee (`isinstance(self, Referee)`). */
    predicate IsReferee()
    {
      kind.Referee?
    }

    /** A remote or server actor, standing for a client on another machine. */
    predicate IsRemote()
      ensures IsRemote() ==> !IsReferee()
    {
      kind.Remote? || kind.Server?
    }

    /** `_dispatch_message`: a remote or server actor sends the message down
        its pipe unless its own client sent it (`was_sent_by` reads the
        sender id first, then the factory); other actors do nothing. */
    function Relays(senderId: Option<int>): (r: Result<bool, ForumError>)
      reads this
      ensures r.Err? <==> IsRemote() && (senderId.None? || factory == null)
      ensures r.Ok? ==> (r.value <==> IsRemote() && senderId != Some(factory.offset))
    {
      if !IsRemote() then Ok(false)
      else if senderId.None? then Err(MessageFailed(MessageNotSent))
      else if factory == null then Err(ActorHasNoId)
      else Ok(senderId.value != factory.Get())
    }

    /** `_react_to_message` and the sync-error reactions: an ordinary actor
        runs its callbacks; remote and server actors override the message
        reaction to do nothing, and their observation, disabled when they are
        built, makes the sync-error reactions raise. */
    function Reacts(event: Observers.Event): (r: Result<bool, ForumError>)
      ensures r.Err? <==> IsRemote() && event != Observers.MessageEvent
      ensures r.Ok? ==> (r.value <==> !IsRemote())
    {
      if !IsRemote() then Ok(true)
      else if event == Observers.MessageEvent then Ok(false)
      else Err(ObservationDisabled)
    }

    /** `_set_world`: only once. */
    method SetWorld(w: World) returns (r: Outcome<ForumError>)
      modifies this
      ensures r.Fail? <==> old(world) != null
      ensures r.Fail? ==> r.error == ActorAlreadyHasWorld && world == old(world)
      ensures r.Pass? ==> world == w
      ensures forum == old(forum) && factory == old(factory) && outbox == old(outbox)
    {
      if world != null {
        return Fail(ActorAlreadyHasWorld);
      }
      world := w;
      r := Pass;
    }

    /** `_set_forum`: the id factory and the forum can each be set once (the
        factory is stored before the forum is checked); a remote or server
        actor then sends the factory to its client, and a referee insists on
        id 1. */
    method SetForum(f: Forum, idFactory: IdFactories.IdFactory) returns (r: Outcome<ForumError>)
      modifies this
      ensures old(factory) != null ==> r == Fail(ActorAlreadyHasId) && factory == old(factory) && forum == old(forum)
      ensures old(factory) == null ==> factory == idFactory
      ensures old(factory) == null && old(forum) != null ==> r == Fail(ActorAlreadyHasForum) && forum == old(forum)
      ensures old(factory) == null && old(forum) == null ==>
                forum == f && (r.Pass? <==> !kind.Referee? || idFactory.offset == 1)
      ensures r.Fail? && old(factory) == null && old(forum) == null ==> r.error == RefereeIdNotOne
      ensures outbox == if r.Pass? && IsRemote()
                        then old(outbox) + [FactoryPacket(idFactory.offset, idFactory.spacing)]
                        else old(outbox)
      ensures world == old(world)
    {
      if factory != null {
        return Fail(ActorAlreadyHasId);
      }
      factory := idFactory;
      if forum != null {
        return Fail(ActorAlreadyHasForum);
      }
      forum := f;
      if kind.Referee? && idFactory.Get() != 1 {
        return Fail(RefereeIdNotOne);
      }
      if IsRemote() {
        outbox := outbox + [FactoryPacket(idFactory.offset, idFactory.spacing)];
      }
      r := Pass;
    }

    /** The opening of `send_message`: the message is stamped with the
        sender, then its new tokens take ids from the actor's factory in
        list order, both before the check so that the check sees the ids.
        Tokens that already have an id keep it. */
    method Stamp(message: Message) returns (r: Outcome<ForumError>)
      modifies message, factory, (set t | t in message.tokensToAdd)
      ensures factory == null ==> r == Fail(ActorHasNoId) && message.senderId == old(message.senderId)
      ensures factory != null ==> message.senderId == Some(factory.offset)
      ensures message.tokensToAdd == old(message.tokensToAdd) && message.tokensToRemove == old(message.tokensToRemove)
      ensures r.Pass? ==> forall i :: 0 <= i < |message.tokensToAdd| ==>
                message.tokensToAdd[i].id ==
                  Some(IdFactories.NthId(factory.offset, factory.spacing, old(factory.numIdsAssigned) + i))
      ensures forall t :: t in message.tokensToAdd ==>
                t.world == old(t.world) && t.removedFromWorld == old(t.removedFromWorld)
      ensures forall t :: t in message.tokensToAdd && old(t.id).Some? ==> t.id == old(t.id)
      ensures forum != null && forum.world != null && old(forum.world.Valid()) ==> forum.world.Valid()
    {
      if factory == null {
        return Fail(ActorHasNoId);
      }
      message.SetSenderId(factory);
      var given := message.AssignTokenIds(factory);
      if given.Fail? {
        return Fail(WorldFailed(given.error));
      }
      r := Pass;
    }

    /** The first half of `send_message`: the message is stamped, then
        checked against the actor's world, `on_check` answering
        `accepts`. */
    method StampAndCheck(message: Message, accepts: bool) returns (r: Result<bool, ForumError>)
      modifies message, factory, (set t | t in message.tokensToAdd)
      ensures factory == null ==> r == Err(ActorHasNoId)
      ensures factory != null ==> message.senderId == Some(factory.offset)
      ensures message.tokensToAdd == old(message.tokensToAdd) && message.tokensToRemove == old(message.tokensToRemove)
      ensures r.Ok? ==> (world != null && factory != null &&
                Ok(r.value) == CheckResult(IdsOf(message.tokensToAdd), IdsOf(message.tokensToRemove), world.tokens.Keys,
                                           factory.offset, factory.spacing, accepts))
      ensures forall t :: t in message.tokensToAdd ==>
                t.world == old(t.world) && t.removedFromWorld == old(t.removedFromWorld)
      ensures forall t :: t in message.tokensToAdd && old(t.id).Some? ==> t.id == old(t.id)
      ensures forum != null && forum.world != null && old(forum.world.Valid()) ==> forum.world.Valid()
    {
      var stamped := Stamp(message);
      if stamped.Fail? {
        return Err(stamped.error);
      }
      if world == null {
        return Err(NotConnected);
      }
      var passed := message.Check(world, factory, accepts);
      if passed.Err? {
        return Err(MessageFailed(passed.error));
      }
      r := Ok(passed.value);
    }

    /** `send_message`: a message that fails its check is answered with
        false and reaches nobody; one that passes is handed to the forum
        once -- relayed, executed, reacted to -- and answered with true.
        A remote or server actor overrides it with a method that takes no
        message and raises, so nothing is stamped or dispatched. */
    method SendMessage(message: Message, accepts: bool) returns (r: Result<bool, ForumError>)
      requires forum != null && forum.world != null ==> forum.world.Valid()
      modifies message, factory, (set t | t in message.tokensToAdd)
      modifies forum, if forum != null then forum.world else null
      modifies (set t | t in message.tokensToRemove)
      modifies (set t | t in message.tokensToAdd :: t.observer), (set t | t in message.tokensToRemove :: t.observer)
      ensures IsRemote() ==> r == Err(RemoteCannotSend) && message.senderId == old(message.senderId) &&
                             (forum != null ==> forum.log == old(forum.log))
      ensures !IsRemote() && factory == null ==> r == Err(ActorHasNoId)
      ensures !IsRemote() && factory != null ==> message.senderId == Some(factory.offset)
      ensures forum != null && r == Ok(false) ==> forum.log == old(forum.log)
      ensures r == Ok(true) ==> (forum != null && forum.actors.Some? &&
                RelayEvents(forum.actors.value, message, message.senderId).Ok? &&
                forum.log == old(forum.log) + RelayEvents(forum.actors.value, message, message.senderId).value +
                             [Executed(message, false), WorldReacted(Observers.MessageEvent, message, false)] +
                             ReactEvents(forum.actors.value, Observers.MessageEvent, message).value)
      ensures forum != null ==> forum.world == old(forum.world)
      ensures forum != null && forum.world != null ==> forum.world.Valid() && forum.world.locked == old(forum.world.locked)
    {
      if IsRemote() {
        return Err(RemoteCannotSend);
      }
      var checked := StampAndCheck(message, accepts);
      if checked.Err? || !checked.value {
        return checked;
      }
      if forum == null {
        return Err(NotConnected);
      }
      ghost var acts := forum.actors;
      ghost var relay := if acts.Some? then RelayEvents(acts.value, message, message.senderId) else Ok([]);
      var dispatched := forum.DispatchMessage(message);
      if dispatched.Fail? {
        return Err(dispatched.error);
      }
      assert forum.actors == acts && acts.Some?;
      assert RelayEvents(acts.value, message, message.senderId) == relay;
      r := Ok(true);
    }
  }

  /** `Referee.Reporter`: the handle a referee's `on_update_game` gives each
      token of the world, through which tokens send their reports, valid
      only inside the `with` block. */
  class Reporter {
    /** The referee the reports are sent as. */
    var referee: Actor?
    /** `is_finished_reporting`. */
    var finished: bool

    /** `Reporter.__init__` as written: the referee it is given is dropped
        and None is stored in its place. */
    constructor AsWritten(referee: Actor)
      ensures this.referee == null && !finished
    {
      this.referee := null;
      finished := false;
    }

    /** `Reporter.__init__` as intended: the reporter sends as the referee
        it was made for. */
    constructor (referee: Actor)
      ensures this.referee == referee && !finished
    {
      this.referee := referee;
      finished := false;
    }

    /** `__exit__`: leaving the `with` block, normally or not. */
    method Exit()
      modifies this
      ensures finished && referee == old(referee)
    {
      finished := true;
    }

    /** Who a report is sent as: nobody once the block has exited
        (`UsingStaleReporter`), nobody when no referee is stored (the call
        on None raises), the stored referee otherwise. */
    function Sender(): (r: Result<Actor, ForumError>)
      reads this
      ensures r.Ok? <==> !finished && referee != null
      ensures r.Ok? ==> r.value == referee
      ensures r.Err? ==> r.error == if finished then StaleReporter else ReporterHasNoReferee
    {
      if finished then Err(StaleReporter)
      else if referee == null then Err(ReporterHasNoReferee)
      else Ok(referee)
    }

    /** `send_message`: refused once the block has exited, otherwise handed
        to the referee's own `send_message`. */
    method SendMessage(message: Message, accepts: bool) returns (r: Result<bool, ForumError>)
      requires referee != null && referee.forum != null && referee.forum.world != null ==>
                 referee.forum.world.Valid()
      modifies message, (set t | t in message.tokensToAdd), (set t | t in message.tokensToRemove)
      modifies (set t | t in message.tokensToAdd :: t.observer), (set t | t in message.tokensToRemove :: t.observer)
      modifies if referee != null then referee.factory else null
      modifies if referee != null then referee.forum else null
      modifies if referee != null && referee.forum != null then referee.forum.world else null
      ensures Sender().Err? ==> r == Err(Sender().error) && message.senderId == old(message.senderId)
      ensures Sender().Ok? && !referee.IsRemote() && referee.factory != null ==> message.senderId == Some(referee.factory.offset)
      ensures Sender().Ok? && referee.forum != null && r == Ok(false) ==> referee.forum.log == old(referee.forum.log)
      ensures r == Ok(true) ==> (Sender().Ok? && referee.forum != null && referee.forum.actors.Some? &&
                |old(referee.forum.log)| < |referee.forum.log| &&
                referee.forum.log[..|old(referee.forum.log)|] == old(referee.forum.log) &&
                Executed(message, false) in referee.forum.log[|old(referee.forum.log)|..])
    {
      var sender := Sender();
      if sender.Err? {
        return Err(sender.error);
      }
      r := referee.SendMessage(message, accepts);
      if r == Ok(true) {
        assert referee.forum.log[|old(referee.forum.log)|..] ==
               RelayEvents(referee.forum.actors.value, message, message.senderId).value +
               [Executed(message, false), WorldReacted(Observers.MessageEvent, message, false)] +
               ReactEvents(referee.forum.actors.value, Observers.MessageEvent, message).value;
      }
    }
  }

  /** `Referee.on_update_game` as written: inside the `with` block the first
      report already fails, because the reporter holds no referee, and after
      it every report fails as stale. */
  method ReportAsWritten(referee: Actor) returns (inside: Result<Actor, ForumError>, after: Result<Actor, ForumError>)
    ensures inside == Err(ReporterHasNoReferee)
    ensures after == Err(StaleReporter)
  {
    var reporter := new Reporter.AsWritten(referee);
    inside := reporter.Sender();
    reporter.Exit();
    after := reporter.Sender();
  }

  /** `Referee.on_update_game` with the reporter keeping its referee:
      reports made inside the `with` block are sent as the referee, and a
      reporter kept past the block refuses every report. */
  method Report(referee: Actor) returns (inside: Result<Actor, ForumError>, after: Result<Actor, ForumError>)
    ensures inside == Ok(referee)
    ensures after == Err(StaleReporter)
  {
    var reporter := new Reporter(referee);
    inside := reporter.Sender();
    reporter.Exit();
    after := reporter.Sender();
  }

  class Forum {
    var world: World?
    /** `self.actors`, None until the forum is connected. */
    var actors: Option<seq<Actor>>
    var log: seq<ForumEvent>

    /** `Forum.__init__`. */
    constructor ()
      ensures world == null && actors == None && log == []
    {
      world := null;
      actors := None;
      log := [];
    }

    /** `dispatch_message`: the message is first relayed to every actor, then
        executed and reacted to by the world with the world unlocked, and
        last reacted to by every actor.  The world's lock is what it was
        before, also when the execution raises.  When the message can be
        executed, the world's table is its table with the message's
        additions inserted and its removals deleted. */
    method DispatchMessage(message: Message) returns (r: Outcome<ForumError>)
      requires world != null ==> world.Valid()
      modifies this, world, (set t | t in message.tokensToAdd), (set t | t in message.tokensToRemove)
      modifies (set t | t in message.tokensToAdd :: t.observer), (set t | t in message.tokensToRemove :: t.observer)
      ensures world == old(world) && actors == old(actors)
      ensures world != null ==> world.Valid() && world.locked == old(world.locked)
      ensures actors.None? || world == null ==> r == Fail(NotConnected) && log == old(log)
      ensures r.Pass? ==>
                actors.Some? && old(RelayEvents(actors.value, message, message.senderId)).Ok? &&
                log == old(log) + old(RelayEvents(actors.value, message, message.senderId)).value +
                       [Executed(message, false), WorldReacted(Observers.MessageEvent, message, false)] +
                       ReactEvents(actors.value, Observers.MessageEvent, message).value
      ensures actors.Some? && world != null && old(RelayEvents(actors.value, message, message.senderId)).Ok? &&
              old(message.CanExecute(world)) ==>
                r.Pass? &&
                world.tokens == DeleteAll(InsertAll(old(world.tokens), old(IdValues(message.tokensToAdd)), message.tokensToAdd),
                                          old(IdValues(message.tokensToRemove)))
    {
      if actors.None? || world == null {
        return Fail(NotConnected);
      }
      var acts := actors.value;
      ghost var can := message.CanExecute(world);
      ghost var table0 := world.tokens;
      ghost var added := if can then IdValues(message.tokensToAdd) else [];
      ghost var removed := if can then IdValues(message.tokensToRemove) else [];
      var relayed := RelayToActors(acts, message);
      if relayed.Fail? {
        return relayed;
      }
      r := ExecuteUnlocked(world, message, can, table0, added, removed);
      if r.Fail? {
        return;
      }
      r := NotifyActors(acts, Observers.MessageEvent, message);
    }

    /** The middle of `dispatch_message`: with the world unlocked, the
        message executes and the world reacts to it (the reaction only when
        the execution did not raise); the lock is then restored. */
    method ExecuteUnlocked(w: World, message: Message, ghost can: bool, ghost table0: map<int, Token>,
                           ghost added: seq<int>, ghost removed: seq<int>) returns (r: Outcome<ForumError>)
      requires w.Valid()
      requires can ==> message.CanExecute(w) && w.tokens == table0 &&
                       IdValues(message.tokensToAdd) == added && IdValues(message.tokensToRemove) == removed
      modifies this, w, (set t | t in message.tokensToAdd), (set t | t in message.tokensToRemove)
      modifies (set t | t in message.tokensToAdd :: t.observer), (set t | t in message.tokensToRemove :: t.observer)
      ensures world == old(world) && actors == old(actors)
      ensures w.Valid() && w.locked == old(w.locked) && w.actors == old(w.actors)
      ensures r.Pass? ==> log == old(log) + [Executed(message, false), WorldReacted(Observers.MessageEvent, message, false)]
      ensures r.Fail? ==> log == old(log) + [Executed(message, false)] && r.error.WorldFailed?
      ensures can ==> r.Pass? && w.tokens == DeleteAll(InsertAll(table0, added, message.tokensToAdd), removed)
    {
      var relock := w.EnterUnlocked();
      var executed := ExecuteFrom(w, message, can, table0, added, removed);
      log := log + [Executed(message, false)];
      if executed.Fail? {
        w.ExitUnlocked(relock);
        return Fail(WorldFailed(executed.error));
      }
      log := log + [WorldReacted(Observers.MessageEvent, message, w.locked)];
      w.ExitUnlocked(relock);
      r := Pass;
    }

    /** `message._execute(world)`, seen from the table and the ids the
        message started from. */
    static method ExecuteFrom(w: World, message: Message, ghost can: bool, ghost table0: map<int, Token>,
                              ghost added: seq<int>, ghost removed: seq<int>) returns (r: Outcome<ApiError>)
      requires w.Valid()
      requires can ==> message.CanExecute(w) && w.tokens == table0 &&
                       IdValues(message.tokensToAdd) == added && IdValues(message.tokensToRemove) == removed
      modifies w, (set t | t in message.tokensToAdd), (set t | t in message.tokensToRemove)
      modifies (set t | t in message.tokensToAdd :: t.observer), (set t | t in message.tokensToRemove :: t.observer)
      ensures w.Valid() && w.locked == old(w.locked) && w.actors == old(w.actors)
      ensures can ==> r.Pass? && w.tokens == DeleteAll(InsertAll(table0, added, message.tokensToAdd), removed)
    {
      var removedIds;
      r, removedIds := message.Execute(w);
    }

    /** `message._handle_hard_sync_error(world)` (corrected), seen from the
        table and the ids the message started from. */
    static method UndoFrom(w: World, message: Message, removedIds: seq<int>, handled: bool, ghost can: bool,
                           ghost table0: map<int, Token>, ghost added: seq<int>) returns (r: Outcome<MessageError>)
      requires w.Valid()
      requires can ==> message.CanUndoAdditions(w) && message.CanRestore(w, removedIds) && w.tokens == table0 &&
                       IdValues(message.tokensToAdd) == added
      modifies w, (set k | k in w.tokens :: w.tokens[k]), (set k | k in w.tokens :: w.tokens[k].observer)
      modifies (set t | t in message.tokensToRemove), (set t | t in message.tokensToRemove :: t.observer)
      ensures w.Valid() && w.locked == old(w.locked) && w.actors == old(w.actors)
      ensures can ==> w.tokens == InsertAll(DeleteAll(table0, added), removedIds, message.tokensToRemove) &&
                      (r.Pass? <==> handled)
    {
      r := message.HandleHardSyncError(w, removedIds, handled);
    }

    /** The opening loop of `dispatch_message`: every actor gets the message
        to relay, in order; the first that raises stops the loop. */
    method RelayToActors(acts: seq<Actor>, message: Message) returns (r: Outcome<ForumError>)
      modifies this
      ensures world == old(world) && actors == old(actors)
      ensures r.Pass? <==> RelayEvents(acts, message, message.senderId).Ok?
      ensures r.Pass? ==> log == old(log) + RelayEvents(acts, message, message.senderId).value
    {
      var i := 0;
      while i < |acts|
        invariant 0 <= i <= |acts|
        invariant world == old(world) && actors == old(actors)
        invariant RelayEvents(acts[..i], message, message.senderId).Ok?
        invariant log == old(log) + RelayEvents(acts[..i], message, message.senderId).value
      {
        assert acts[..i + 1][..i] == acts[..i];
        var relays := acts[i].Relays(message.senderId);
        if relays.Err? {
          RelayEventsSpec(acts, message, message.senderId);
          return Fail(relays.error);
        }
        if relays.value {
          log := log + [Relayed(i, message)];
        }
        i := i + 1;
      }
      assert acts[..i] == acts;
      r := Pass;
    }

    /** The closing loop of every dispatch: each actor reacts to the event,
        in order; the first that raises stops the loop. */
    method NotifyActors(acts: seq<Actor>, event: Observers.Event, message: Message) returns (r: Outcome<ForumError>)
      modifies this
      ensures world == old(world) && actors == old(actors)
      ensures r.Pass? <==> ReactEvents(acts, event, message).Ok?
      ensures r.Fail? ==> r.error == ObservationDisabled
      ensures r.Pass? ==> log == old(log) + ReactEvents(acts, event, message).value
    {
      var i := 0;
      while i < |acts|
        invariant 0 <= i <= |acts|
        invariant world == old(world) && actors == old(actors)
        invariant ReactEvents(acts[..i], event, message).Ok?
        invariant log == old(log) + ReactEvents(acts[..i], event, message).value
      {
        assert acts[..i + 1][..i] == acts[..i];
        var reacts := acts[i].Reacts(event);
        if reacts.Err? {
          ReactEventsFailAt(acts, event, message, i);
          return Fail(reacts.error);
        }
        if reacts.value {
          log := log + [ActorReacted(i, event, message)];
        }
        i := i + 1;
      }
      assert acts[..i] == acts;
      r := Pass;
    }

    /** `RemoteForum.dispatch_soft_sync_error`: with the world unlocked the
        message's `on_soft_sync_error` runs and the world reacts; then the
        actors react.  The lock is restored. */
    method DispatchSoftSyncError(message: Message) returns (r: Outcome<ForumError>)
      modifies this, world
      ensures world == old(world) && actors == old(actors)
      ensures world != null ==> world.locked == old(world.locked) && world.tokens == old(world.tokens)
      ensures actors.None? || world == null ==> r == Fail(NotConnected) && log == old(log)
      ensures actors.Some? && world != null ==>
                (r.Pass? <==> ReactEvents(actors.value, Observers.SoftSyncErrorEvent, message).Ok?)
      ensures r.Pass? ==>
                ReactEvents(actors.value, Observers.SoftSyncErrorEvent, message).Ok? &&
                log == old(log) + [SyncHandled(Observers.SoftSyncErrorEvent, message, false),
                                   WorldReacted(Observers.SoftSyncErrorEvent, message, false)] +
                       ReactEvents(actors.value, Observers.SoftSyncErrorEvent, message).value
    {
      if actors.None? || world == null {
        return Fail(NotConnected);
      }
      var relock := world.EnterUnlocked();
      log := log + [SyncHandled(Observers.SoftSyncErrorEvent, message, world.locked),
                    WorldReacted(Observers.SoftSyncErrorEvent, message, world.locked)];
      world.ExitUnlocked(relock);
      r := NotifyActors(actors.value, Observers.SoftSyncErrorEvent, message);
    }

    /** `RemoteForum.dispatch_hard_sync_error`, with the corrected undo: with
        the world unlocked the message undoes itself (`removedIds` are the
        ids its execution recorded, `handled` says whether its
        `on_hard_sync_error` is overridden) and the world reacts; then the
        actors react.  The lock is restored, also when the undo raises. */
    method DispatchHardSyncError(message: Message, removedIds: seq<int>, handled: bool) returns (r: Outcome<ForumError>)
      requires world != null ==> world.Valid()
      modifies this, world
      modifies if world != null then (set k | k in world.tokens :: world.tokens[k]) else {}
      modifies if world != null then (set k | k in world.tokens :: world.tokens[k].observer) else {}
      modifies (set t | t in message.tokensToRemove), (set t | t in message.tokensToRemove :: t.observer)
      ensures world == old(world) && actors == old(actors)
      ensures world != null ==> world.Valid() && world.locked == old(world.locked)
      ensures actors.None? || world == null ==> r == Fail(NotConnected) && log == old(log)
      ensures actors.Some? && world != null && old(message.CanUndoAdditions(world)) && old(message.CanRestore(world, removedIds)) ==>
                world.tokens == InsertAll(DeleteAll(old(world.tokens), old(IdValues(message.tokensToAdd))), removedIds, message.tokensToRemove) &&
                (r.Pass? <==> handled && ReactEvents(actors.value, Observers.HardSyncErrorEvent, message).Ok?)
      ensures r.Pass? ==>
                ReactEvents(actors.value, Observers.HardSyncErrorEvent, message).Ok? &&
                log == old(log) + [SyncHandled(Observers.HardSyncErrorEvent, message, false),
                                   WorldReacted(Observers.HardSyncErrorEvent, message, false)] +
                       ReactEvents(actors.value, Observers.HardSyncErrorEvent, message).value
    {
      if actors.None? || world == null {
        return Fail(NotConnected);
      }
      ghost var can := message.CanUndoAdditions(world) && message.CanRestore(world, removedIds);
      ghost var added := if can then IdValues(message.tokensToAdd) else [];
      r := UndoUnlocked(world, message, removedIds, handled, can, world.tokens, added);
      if r.Fail? {
        return;
      }
      r := NotifyActors(actors.value, Observers.HardSyncErrorEvent, message);
    }

    /** The middle of `dispatch_hard_sync_error`: with the world unlocked,
        the message undoes itself and the world reacts (the reaction only
        when the undo did not raise); the lock is then restored. */
    method UndoUnlocked(w: World, message: Message, removedIds: seq<int>, handled: bool, ghost can: bool,
                        ghost table0: map<int, Token>, ghost added: seq<int>) returns (r: Outcome<ForumError>)
      requires w.Valid()
      requires can ==> message.CanUndoAdditions(w) && message.CanRestore(w, removedIds) && w.tokens == table0 &&
                       IdValues(message.tokensToAdd) == added
      modifies this, w, (set k | k in w.tokens :: w.tokens[k]), (set k | k in w.tokens :: w.tokens[k].observer)
      modifies (set t | t in message.tokensToRemove), (set t | t in message.tokensToRemove :: t.observer)
      ensures world == old(world) && actors == old(actors)
      ensures w.Valid() && w.locked == old(w.locked) && w.actors == old(w.actors)
      ensures r.Pass? ==> log == old(log) + [SyncHandled(Observers.HardSyncErrorEvent, message, false),
                                             WorldReacted(Observers.HardSyncErrorEvent, message, false)]
      ensures can ==> w.tokens == InsertAll(DeleteAll(table0, added), removedIds, message.tokensToRemove) &&
                      (r.Pass? <==> handled)
    {
      var relock := w.EnterUnlocked();
      assert can ==> message.CanUndoAdditions(w) && message.CanRestore(w, removedIds) &&
                     IdValues(message.tokensToAdd) == added;
      log := log + [SyncHandled(Observers.HardSyncErrorEvent, message, w.locked)];
      ghost var log1 := log;
      var undone := UndoFrom(w, message, removedIds, handled, can, table0, added);
      assert log == log1;
      if undone.Fail? {
        w.ExitUnlocked(relock);
        return Fail(MessageFailed(undone.error));
      }
      log := log + [WorldReacted(Observers.HardSyncErrorEvent, message, w.locked)];
      w.ExitUnlocked(relock);
      r := Pass;
    }

    /** The start of `connect_everyone`: the forum keeps the world and the
        actors, and the world learns the actors' classes through the
        safety-checked `set_actors`, which a locked world refuses. */
    method Attach(w: World, acts: seq<Actor>) returns (r: Outcome<ForumError>)
      modifies this, w
      ensures world == w && actors == Some(acts) && log == old(log)
      ensures w.tokens == old(w.tokens) && w.locked == old(w.locked)
      ensures r.Fail? <==> SafetyCheckOutcome(true, w.asToken.world).Fail?
      ensures r.Fail? ==> r.error == WorldFailed(UnsafeInvocation) && w.actors == old(w.actors)
      ensures r.Pass? ==> w.actors == Classes(acts)
      ensures w.OwnsItself() && !w.locked ==> r.Pass?
    {
      world := w;
      actors := Some(acts);
      var stored := w.SetActors(Classes(acts));
      r := if stored.Pass? then Pass else Fail(WorldFailed(stored.error));
    }

    /** The start of `connect_everyone` as written: the forum keeps the
        world and the actors, then calls `self.world._set_actors`, a method
        `World` does not have (it has `set_actors`), so the call raises
        AttributeError with the world untouched and no actor connected. */
    method AttachAsWritten(w: World, acts: seq<Actor>) returns (r: Outcome<ForumError>)
      modifies this
      ensures "_set_actors" !in WorldMethodNames && "set_actors" in WorldMethodNames
      ensures r == Fail(WorldFailed(MissingAttribute))
      ensures world == w && actors == Some(acts) && log == old(log)
    {
      world := w;
      actors := Some(acts);
      assert "_set_actors" !in WorldMethodNames by {
        assert "_set_actors" != "set_actors" && "_set_actors" != "_add_token";
      }
      r := Fail(WorldFailed(MissingAttribute));
    }

    /** The loop of `connect_everyone`: each actor in turn gets the world,
        then this forum and its id factory; the first assertion that fails
        stops the loop.  The loop goes through iff no actor is listed twice,
        none was connected before and every referee gets id 1; then each
        actor holds the world, this forum and its own factory, and each
        remote actor has sent its factory down its pipe. */
    method ConnectActors(w: World, acts: seq<Actor>, factories: seq<IdFactories.IdFactory>) returns (r: Outcome<ForumError>)
      requires |factories| == |acts|
      modifies set a | a in acts
      ensures r.Pass? <==>
                (forall i, j :: 0 <= i < j < |acts| ==> acts[i] != acts[j]) &&
                (forall i :: 0 <= i < |acts| ==>
                   old(acts[i].world) == null && old(acts[i].factory) == null &&
                   old(acts[i].forum) == null && (acts[i].IsReferee() ==> factories[i].offset == 1))
      ensures r.Pass? ==> forall i :: 0 <= i < |acts| ==>
                acts[i].world == w && acts[i].forum == this && acts[i].factory == factories[i] &&
                acts[i].outbox == old(acts[i].outbox) +
                  if acts[i].IsRemote() then [FactoryPacket(factories[i].offset, factories[i].spacing)] else []
    {
      var i := 0;
      while i < |acts|
        invariant 0 <= i <= |acts|
        invariant forall k, j :: 0 <= k < j < i ==> acts[k] != acts[j]
        invariant forall k :: 0 <= k < i ==>
                    old(acts[k].world) == null && old(acts[k].factory) == null && old(acts[k].forum) == null &&
                    (acts[k].IsReferee() ==> factories[k].offset == 1)
        invariant forall k :: 0 <= k < i ==>
                    acts[k].world == w && acts[k].forum == this && acts[k].factory == factories[k] &&
                    acts[k].outbox == old(acts[k].outbox) +
                      if acts[k].IsRemote() then [FactoryPacket(factories[k].offset, factories[k].spacing)] else []
        invariant forall k :: i <= k < |acts| && acts[k] !in acts[..i] ==>
                    acts[k].world == old(acts[k].world) && acts[k].factory == old(acts[k].factory) &&
                    acts[k].forum == old(acts[k].forum) && acts[k].outbox == old(acts[k].outbox)
      {
        var a := acts[i];
        if a in acts[..i] {
          var k :| 0 <= k < i && acts[..i][k] == a;
          r := ConnectOne(a, w, factories[i]);
          return;
        }
        assert forall k :: 0 <= k < i ==> acts[k] != a by {
          forall k | 0 <= k < i ensures acts[k] != a {
            assert acts[k] == acts[..i][k];
          }
        }
        r := ConnectOne(a, w, factories[i]);
        if r.Fail? {
          return;
        }
        forall k | i + 1 <= k < |acts| && acts[k] !in acts[..i + 1]
          ensures acts[k] !in acts[..i]
        {
          assert acts[..i + 1] == acts[..i] + [a];
        }
        i := i + 1;
      }
      r := Pass;
    }

    /** One step of that loop: `_set_world`, then `_set_forum`. */
    method ConnectOne(a: Actor, w: World, factory: IdFactories.IdFactory) returns (r: Outcome<ForumError>)
      modifies a
      ensures r.Pass? <==> old(a.world) == null && old(a.factory) == null && old(a.forum) == null &&
                           (a.IsReferee() ==> factory.offset == 1)
      ensures r.Pass? ==> a.world == w && a.forum == this && a.factory == factory &&
                          a.outbox == old(a.outbox) + if a.IsRemote() then [FactoryPacket(factory.offset, factory.spacing)] else []
    {
      r := a.SetWorld(w);
      if r.Fail? {
        return;
      }
      r := a.SetForum(this, factory);
    }

    /** `connect_everyone` with the plain `_assign_id_factories`: after
        attaching the world and the actors, every actor gets a fresh factory
        whose spacing is the number of actors and whose offset follows the
        world's last id, referees first (`IdFactories.IsAssignment`). */
    method ConnectEveryone(w: World, acts: seq<Actor>) returns (r: Outcome<ForumError>)
      requires w.OwnsItself() && !w.locked
      modifies this, w, set a | a in acts
      ensures world == w && actors == Some(acts) && log == old(log)
      ensures w.actors == Classes(acts) && w.tokens == old(w.tokens) && w.locked == old(w.locked)
      ensures old(w.tokens) == map[] ==> r == Fail(WorldFailed(EmptyWorld))
      ensures r.Pass? ==> forall i :: 0 <= i < |acts| ==>
                acts[i].world == w && acts[i].forum == this && acts[i].factory != null &&
                acts[i].factory.spacing == |acts| && acts[i].factory.numIdsAssigned == 0
      ensures r.Pass? ==> exists lastId ::
                IsLastId(old(w.tokens), lastId) && IdFactories.IsAssignment(RefereeFlags(acts), lastId, Offsets(acts))
    {
      r := Attach(w, acts);
      assert r.Pass?;
      var last := w.GetLastId();
      if last.Err? {
        return Fail(WorldFailed(last.error));
      }
      assert IsLastId(old(w.tokens), last.value);
      r := ConnectFrom(w, acts, last.value);
    }

    /** `_assign_id_factories` from the world's last id, then the loop of
        `connect_everyone`. */
    method ConnectFrom(w: World, acts: seq<Actor>, lastId: int) returns (r: Outcome<ForumError>)
      modifies set a | a in acts
      ensures r.Pass? ==> forall i :: 0 <= i < |acts| ==>
                acts[i].world == w && acts[i].forum == this && acts[i].factory != null &&
                acts[i].factory.spacing == |acts| && acts[i].factory.numIdsAssigned == 0
      ensures r.Pass? ==> IdFactories.IsAssignment(RefereeFlags(acts), lastId, Offsets(acts))
    {
      var offsets := IdFactories.AssignIdFactories(RefereeFlags(acts), lastId);
      var factories := MakeFactories(offsets, |acts|);
      r := ConnectActors(w, acts, factories);
      if r.Pass? {
        assert Offsets(acts) == offsets;
      }
    }
  }

  /** The first step of the game stage's `on_enter_stage`: the forum
      connects everyone inside `with world._unlock_temporarily()`, so the
      safety check of `set_actors` passes, and the lock is as before. */
  method ConnectInStage(forum: Forum, w: World, acts: seq<Actor>) returns (r: Outcome<ForumError>)
    requires w.OwnsItself()
    modifies forum, w, set a | a in acts
    ensures forum.world == w && forum.actors == Some(acts) && w.actors == Classes(acts)
    ensures w.locked == old(w.locked) && w.tokens == old(w.tokens)
    ensures old(w.tokens) == map[] ==> r == Fail(WorldFailed(EmptyWorld))
  {
    var relock := w.EnterUnlocked();
    r := forum.ConnectEveryone(w, acts);
    w.ExitUnlocked(relock);
  }

  /** The actors' classes, as `_set_actors` hands them to the world. */
  function Classes(acts: seq<Actor>): (cs: seq<ActorClass>)
    ensures |cs| == |acts| && forall i :: 0 <= i < |acts| ==> cs[i] == acts[i].cls
  {
    seq(|acts|, i requires 0 <= i < |acts| => acts[i].cls)
  }

  /** Which actors are referees, as `_assign_id_factories` sorts them. */
  function RefereeFlags(acts: seq<Actor>): (flags: seq<bool>)
    ensures |flags| == |acts| && forall i :: 0 <= i < |acts| ==> flags[i] == acts[i].IsReferee()
  {
    seq(|acts|, i requires 0 <= i < |acts| => acts[i].IsReferee())
  }

  /** The offsets of the actors' factories (0 for an actor without one). */
  ghost function Offsets(acts: seq<Actor>): seq<int>
    reads set a | a in acts
  {
    seq(|acts|, i reads acts requires 0 <= i < |acts| => if acts[i].factory != null then acts[i].factory.offset else 0)
  }

  /** `get_last_id`: the largest id in the world's table. */
  ghost predicate IsLastId(table: map<int, Token>, lastId: int)
  {
    lastId in table && forall k :: k in table ==> k <= lastId
  }

  /** `IdFactory(offset, spacing)` for each offset, in order. */
  method MakeFactories(offsets: seq<int>, spacing: nat) returns (factories: seq<IdFactories.IdFactory>)
    ensures |factories| == |offsets|
    ensures forall i :: 0 <= i < |offsets| ==>
              fresh(factories[i]) && factories[i].offset == offsets[i] &&
              factories[i].spacing == spacing && factories[i].numIdsAssigned == 0
  {
    factories := [];
    while |factories| < |offsets|
      invariant |factories| <= |offsets|
      invariant forall i :: 0 <= i < |factories| ==>
                  fresh(factories[i]) && factories[i].offset == offsets[i] &&
                  factories[i].spacing == spacing && factories[i].numIdsAssigned == 0
    {
      var f := new IdFactories.IdFactory(offsets[|factories|], spacing);
      factories := factories + [f];
    }
  }

  /** Ids handed out by two different actors after `connect_everyone`
      never collide, and in a world holding only itself the first referee
      is actor 1. */
  lemma ConnectedIdsUnique(acts: seq<Actor>, lastId: int, a: nat, b: nat, j: nat, k: nat)
    requires IdFactories.IsAssignment(RefereeFlags(acts), lastId, Offsets(acts))
    requires a < |acts| && b < |acts| && a != b
    ensures IdFactories.NthId(Offsets(acts)[a], |acts|, j) != IdFactories.NthId(Offsets(acts)[b], |acts|, k)
  {
    IdFactories.AssignedFactoriesDisjoint(RefereeFlags(acts), lastId, Offsets(acts), a, b, j, k);
  }

  /** Where the actors' reactions stop: at the first actor that raises. */
  lemma ReactEventsFailAt(actors: seq<Actor>, event: Observers.Event, m: Message, i: nat)
    requires i < |actors| && actors[i].Reacts(event).Err?
    ensures ReactEvents(actors, event, m).Err?
  {
    if i < |actors| - 1 {
      ReactEventsFailAt(actors[..|actors| - 1], event, m, i);
    }
  }

  /** The sender ids of a batch of messages. */
  function Senders(inbox: seq<Message>): (ids: seq<Option<int>>)
    reads set m | m in inbox
    ensures |ids| == |inbox| && forall i :: 0 <= i < |inbox| ==> ids[i] == inbox[i].senderId
  {
    seq(|inbox|, i reads inbox requires 0 <= i < |inbox| => inbox[i].senderId)
  }

  /** Which of a batch of messages carry a soft (`soft`) or a hard sync
      error flag. */
  function ErrorFlags(inbox: seq<Message>, soft: bool): (flags: seq<bool>)
    reads set m | m in inbox
    ensures |flags| == |inbox|
    ensures forall i :: 0 <= i < |inbox| ==>
              flags[i] == if soft then inbox[i].HasSoftSyncError() else inbox[i].HasHardSyncError()
  {
    seq(|inbox|, i reads inbox requires 0 <= i < |inbox| =>
      if soft then inbox[i].HasSoftSyncError() else inbox[i].HasHardSyncError())
  }

  /** A call `RemoteForum.on_update_game` makes for the message at `index`
      of the batch that arrived from the server. */
  datatype ForumCall = Dispatch(index: nat) | DispatchSoft(index: nat) | DispatchHard(index: nat)
  {
    /** The order of the three calls for one message. */
    function Rank(): nat
    {
      match this
      case Dispatch(_) => 0
      case DispatchSoft(_) => 1
      case DispatchHard(_) => 2
    }
  }

  /** The calls for the message at `n`: the plain dispatch unless this
      client sent it (`sender == own`), then the soft and the hard
      sync-error dispatch when the message carries that flag. */
  function CallsFor(n: nat, sender: Option<int>, soft: bool, hard: bool, own: Option<int>): (calls: seq<ForumCall>)
    ensures |calls| <= 3
  {
    (if sender != own then [Dispatch(n)] else []) +
    (if soft then [DispatchSoft(n)] else []) +
    (if hard then [DispatchHard(n)] else [])
  }

  /** Every call for the message at `n` is about that message, each of
      the three is there exactly when its condition holds, and they come
      in the order plain, soft, hard. */
  lemma CallsForSpec(n: nat, sender: Option<int>, soft: bool, hard: bool, own: Option<int>)
    ensures var calls := CallsFor(n, sender, soft, hard, own);
            (forall c :: c in calls ==> c.index == n) &&
            (Dispatch(n) in calls <==> sender != own) &&
            (DispatchSoft(n) in calls <==> soft) &&
            (DispatchHard(n) in calls <==> hard) &&
            (forall a, b :: 0 <= a < b < |calls| ==> calls[a].Rank() < calls[b].Rank())
  {
  }

  /** The calls `RemoteForum.on_update_game` makes, message by message in
      the order they arrived.  `own` is the offset of the factory the
      server gave this client.  Asking who sent an unsent message, or
      comparing with a factory that never came, raises. */
  function ClientCalls(senders: seq<Option<int>>, soft: seq<bool>, hard: seq<bool>, own: Option<int>): Result<seq<ForumCall>, ForumError>
    requires |soft| == |senders| && |hard| == |senders|
  {
    if senders == [] then Ok([])
    else
      var n := |senders| - 1;
      var rest := ClientCalls(senders[..n], soft[..n], hard[..n], own);
      if rest.Err? then rest
      else if senders[n].None? then Err(MessageFailed(MessageNotSent))
      else if own.None? then Err(ActorHasNoId)
      else Ok(rest.value + CallsFor(n, senders[n], soft[n], hard[n], own))
  }

  /** `RemoteForum.on_update_game` raises iff some message was never sent
      or the server's factory never came (and a message arrived). */
  lemma {:induction false} ClientCallsFails(senders: seq<Option<int>>, soft: seq<bool>, hard: seq<bool>, own: Option<int>)
    requires |soft| == |senders| && |hard| == |senders|
    ensures ClientCalls(senders, soft, hard, own).Err? <==>
              exists i :: 0 <= i < |senders| && (senders[i].None? || own.None?)
  {
    if senders != [] {
      var n := |senders| - 1;
      ClientCallsFails(senders[..n], soft[..n], hard[..n], own);
      assert forall i :: 0 <= i < n ==> senders[..n][i] == senders[i];
    }
  }

  /** Once a message makes the update raise, the messages after it do not
      change the outcome: the loop stops at the first failure. */
  lemma {:induction false} ClientCallsStopsAtError(senders: seq<Option<int>>, soft: seq<bool>, hard: seq<bool>, own: Option<int>, k: nat)
    requires |soft| == |senders| && |hard| == |senders| && k <= |senders|
    requires ClientCalls(senders[..k], soft[..k], hard[..k], own).Err?
    ensures ClientCalls(senders, soft, hard, own) == ClientCalls(senders[..k], soft[..k], hard[..k], own)
  {
    if k == |senders| {
      assert senders[..k] == senders && soft[..k] == soft && hard[..k] == hard;
    } else {
      var n := |senders| - 1;
      assert senders[..n][..k] == senders[..k] && soft[..n][..k] == soft[..k] && hard[..n][..k] == hard[..k];
      ClientCallsStopsAtError(senders[..n], soft[..n], hard[..n], own, k);
    }
  }

  /** Messages from other clients are executed and this client's own are
      not executed a second time; every flag is handled; every call is for
      a message of the batch. */
  lemma {:induction false} ClientCallsMembers(senders: seq<Option<int>>, soft: seq<bool>, hard: seq<bool>, own: Option<int>)
    requires |soft| == |senders| && |hard| == |senders|
    requires ClientCalls(senders, soft, hard, own).Ok?
    ensures forall c :: c in ClientCalls(senders, soft, hard, own).value ==> c.index < |senders|
    ensures forall i :: 0 <= i < |senders| ==>
              (Dispatch(i) in ClientCalls(senders, soft, hard, own).value <==> senders[i] != own) &&
              (DispatchSoft(i) in ClientCalls(senders, soft, hard, own).value <==> soft[i]) &&
              (DispatchHard(i) in ClientCalls(senders, soft, hard, own).value <==> hard[i])
  {
    if senders != [] {
      var n := |senders| - 1;
      ClientCallsMembers(senders[..n], soft[..n], hard[..n], own);
      var rest := ClientCalls(senders[..n], soft[..n], hard[..n], own).value;
      var last := CallsFor(n, senders[n], soft[n], hard[n], own);
      CallsForSpec(n, senders[n], soft[n], hard[n], own);
      assert ClientCalls(senders, soft, hard, own).value == rest + last;
      forall i | 0 <= i < n
        ensures (Dispatch(i) in rest + last <==> senders[i] != own) &&
                (DispatchSoft(i) in rest + last <==> soft[i]) &&
                (DispatchHard(i) in rest + last <==> hard[i])
      {
        assert senders[..n][i] == senders[i] && soft[..n][i] == soft[i] && hard[..n][i] == hard[i];
        assert Dispatch(i) !in last && DispatchSoft(i) !in last && DispatchHard(i) !in last;
      }
    }
  }

  /** The calls follow the order in which the messages arrived, and for
      one message the plain dispatch comes before the soft and the hard
      sync-error dispatch. */
  lemma {:induction false} ClientCallsOrdered(senders: seq<Option<int>>, soft: seq<bool>, hard: seq<bool>, own: Option<int>)
    requires |soft| == |senders| && |hard| == |senders|
    requires ClientCalls(senders, soft, hard, own).Ok?
    ensures var calls := ClientCalls(senders, soft, hard, own).value;
            forall a, b :: 0 <= a < b < |calls| ==>
              calls[a].index < calls[b].index ||
              (calls[a].index == calls[b].index && calls[a].Rank() < calls[b].Rank())
  {
    if senders != [] {
      var n := |senders| - 1;
      ClientCallsOrdered(senders[..n], soft[..n], hard[..n], own);
      ClientCallsMembers(senders[..n], soft[..n], hard[..n], own);
      var rest := ClientCalls(senders[..n], soft[..n], hard[..n], own).value;
      var last := CallsFor(n, senders[n], soft[n], hard[n], own);
      CallsForSpec(n, senders[n], soft[n], hard[n], own);
      var calls := rest + last;
      assert ClientCalls(senders, soft, hard, own).value == calls;
      forall a, b | 0 <= a < b < |calls|
        ensures calls[a].index < calls[b].index ||
                (calls[a].index == calls[b].index && calls[a].Rank() < calls[b].Rank())
      {
        if b < |rest| {
          assert calls[a] == rest[a] && calls[b] == rest[b];
        } else if a < |rest| {
          assert calls[a] == rest[a] && rest[a] in rest;
          assert calls[b] == last[b - |rest|] && last[b - |rest|] in last;
        } else {
          assert calls[a] == last[a - |rest|] && calls[b] == last[b - |rest|];
        }
      }
    }
  }

  /** What `RemoteActor.on_update_game` decides for one message of its
      client, given whether it passed the server's check (`pass`) and, if
      not, whether its sync error is recoverable (`rec`): `Ok(false)` when
      it is skipped (a hard sync error, or another sender than this actor's
      client), `Ok(true)` when it is handed to the forum.  `was_sent_by`
      raises for an unsent message or an actor without a factory. */
  function ServerVerdict(sender: Option<int>, pass: bool, rec: bool, own: Option<int>): (r: Result<bool, ForumError>)
    ensures r.Err? <==> (pass || rec) && (sender.None? || own.None?)
    ensures r == Ok(true) <==> (pass || rec) && sender.Some? && sender == own
  {
    if !pass && !rec then Ok(false)
    else if sender.None? then Err(MessageFailed(MessageNotSent))
    else if own.None? then Err(ActorHasNoId)
    else Ok(sender == own)
  }

  /** The indices of the messages `RemoteActor.on_update_game` hands to
      the forum, in order, or the error of the first message that raises. */
  function ServerAdmits(senders: seq<Option<int>>, passes: seq<bool>, recoverable: seq<bool>, own: Option<int>): Result<seq<nat>, ForumError>
    requires |passes| == |senders| && |recoverable| == |senders|
  {
    if senders == [] then Ok([])
    else
      var n := |senders| - 1;
      var rest := ServerAdmits(senders[..n], passes[..n], recoverable[..n], own);
      if rest.Err? then rest
      else
        var v := ServerVerdict(senders[n], passes[n], recoverable[n], own);
        if v.Err? then Err(v.error)
        else if v.value then Ok(rest.value + [n])
        else rest
  }

  /** Exactly the messages of this actor's client without a hard sync error
      are executed, in the order they arrived; the update raises iff such a
      message was never sent or the actor has no factory. */
  lemma {:induction false} ServerAdmitsSpec(senders: seq<Option<int>>, passes: seq<bool>, recoverable: seq<bool>, own: Option<int>)
    requires |passes| == |senders| && |recoverable| == |senders|
    ensures ServerAdmits(senders, passes, recoverable, own).Err? <==>
              exists i :: 0 <= i < |senders| && (passes[i] || recoverable[i]) && (senders[i].None? || own.None?)
    ensures ServerAdmits(senders, passes, recoverable, own).Ok? ==>
              var admitted := ServerAdmits(senders, passes, recoverable, own).value;
              (forall i :: 0 <= i < |senders| ==>
                 (i in admitted <==> (passes[i] || recoverable[i]) && senders[i] == own)) &&
              (forall a :: 0 <= a < |admitted| ==> admitted[a] < |senders|) &&
              (forall a, b :: 0 <= a < b < |admitted| ==> admitted[a] < admitted[b])
  {
    if senders != [] {
      var n := |senders| - 1;
      ServerAdmitsSpec(senders[..n], passes[..n], recoverable[..n], own);
      assert forall i :: 0 <= i < n ==>
        senders[..n][i] == senders[i] && passes[..n][i] == passes[i] && recoverable[..n][i] == recoverable[i];
    }
  }

  /** Once a message makes the server's update raise, the messages after
      it do not change the outcome. */
  lemma {:induction false} ServerAdmitsStopsAtError(senders: seq<Option<int>>, passes: seq<bool>, recoverable: seq<bool>, own: Option<int>, k: nat)
    requires |passes| == |senders| && |recoverable| == |senders| && k <= |senders|
    requires ServerAdmits(senders[..k], passes[..k], recoverable[..k], own).Err?
    ensures ServerAdmits(senders, passes, recoverable, own) == ServerAdmits(senders[..k], passes[..k], recoverable[..k], own)
  {
    if k == |senders| {
      assert senders[..k] == senders && passes[..k] == passes && recoverable[..k] == recoverable;
    } else {
      var n := |senders| - 1;
      assert senders[..n][..k] == senders[..k] && passes[..n][..k] == passes[..k] && recoverable[..n][..k] == recoverable[..k];
      ServerAdmitsStopsAtError(senders[..n], passes[..n], recoverable[..n], own, k);
    }
  }

  /** The messages `RemoteActor.on_update_game` sends back to its client:
      those that failed the server's check, in order. */
  function Bounced(inbox: seq<Message>, passes: seq<bool>): (packets: seq<Packet>)
    requires |passes| == |inbox|
    ensures |packets| <= |inbox|
  {
    if inbox == [] then []
    else
      var n := |inbox| - 1;
      Bounced(inbox[..n], passes[..n]) + if passes[n] then [] else [MessagePacket(inbox[n])]
  }

  /** Only messages of the batch are sent back, and every one that failed
      its check is. */
  lemma {:induction false} BouncedSpec(inbox: seq<Message>, passes: seq<bool>)
    requires |passes| == |inbox|
    ensures forall p :: p in Bounced(inbox, passes) ==> p.MessagePacket? && p.message in inbox
    ensures forall i :: 0 <= i < |inbox| && !passes[i] ==> MessagePacket(inbox[i]) in Bounced(inbox, passes)
  {
    if inbox != [] {
      var n := |inbox| - 1;
      BouncedSpec(inbox[..n], passes[..n]);
      assert forall i :: 0 <= i < n ==> inbox[..n][i] == inbox[i] && passes[..n][i] == passes[i];
    }
  }

  /** `RemoteForum`: the forum of a client.  It is a forum (`forum`) with a
      pipe to the server: what it sends is appended to `outbox`, and the id
      factory the server hands out is kept in `actorIdFactory`. */
  class RemoteForum {
    const forum: Forum
    var actorIdFactory: IdFactories.IdFactory?
    var actor: Actor?
    var outbox: seq<Packet>

    constructor ()
      ensures fresh(forum) && forum.world == null && forum.actors == None && forum.log == []
      ensures actorIdFactory == null && actor == null && outbox == []
    {
      forum := new Forum();
      actorIdFactory := null;
      actor := null;
      outbox := [];
    }

    /** The id of the server's factory, once it came. */
    function Own(): (own: Option<int>)
      reads this
      ensures own.Some? <==> actorIdFactory != null
      ensures own.Some? ==> own.value == actorIdFactory.offset
    {
      if actorIdFactory == null then None else Some(actorIdFactory.Get())
    }

    /** `receive_id_from_server`: the first id factory among the packets
        that arrived is kept, and the answer says whether there was one. */
    method ReceiveIdFromServer(inbox: seq<Packet>) returns (received: bool)
      modifies this
      ensures received <==> exists i :: 0 <= i < |inbox| && inbox[i].FactoryPacket?
      ensures received ==> (actorIdFactory != null && fresh(actorIdFactory) && actorIdFactory.numIdsAssigned == 0 &&
                exists i :: 0 <= i < |inbox| && inbox[i].FactoryPacket? &&
                  (forall j :: 0 <= j < i ==> !inbox[j].FactoryPacket?) &&
                  inbox[i].offset == actorIdFactory.offset && inbox[i].spacing == actorIdFactory.spacing)
      ensures !received ==> actorIdFactory == old(actorIdFactory)
      ensures actor == old(actor) && outbox == old(outbox)
    {
      var i := 0;
      while i < |inbox|
        invariant 0 <= i <= |inbox|
        invariant forall j :: 0 <= j < i ==> !inbox[j].FactoryPacket?
        invariant actorIdFactory == old(actorIdFactory) && actor == old(actor) && outbox == old(outbox)
      {
        if inbox[i].FactoryPacket? {
          actorIdFactory := new IdFactories.IdFactory(inbox[i].offset, inbox[i].spacing);
          return true;
        }
        i := i + 1;
      }
      received := false;
    }

    /** `RemoteForum.dispatch_message`: the message goes down the pipe to
        the server first, then through the plain forum. */
    method DispatchMessage(message: Message) returns (r: Outcome<ForumError>)
      requires forum.world != null ==> forum.world.Valid()
      modifies this, forum, forum.world, (set t | t in message.tokensToAdd), (set t | t in message.tokensToRemove)
      modifies (set t | t in message.tokensToAdd :: t.observer), (set t | t in message.tokensToRemove :: t.observer)
      ensures outbox == old(outbox) + [MessagePacket(message)]
      ensures forum.world == old(forum.world) && forum.actors == old(forum.actors)
      ensures forum.world != null ==> forum.world.Valid() && forum.world.locked == old(forum.world.locked)
      ensures r.Pass? ==>
                forum.actors.Some? && old(RelayEvents(forum.actors.value, message, message.senderId)).Ok? &&
                forum.log == old(forum.log) + old(RelayEvents(forum.actors.value, message, message.senderId)).value +
                             [Executed(message, false), WorldReacted(Observers.MessageEvent, message, false)] +
                             ReactEvents(forum.actors.value, Observers.MessageEvent, message).value
    {
      outbox := outbox + [MessagePacket(message)];
      r := forum.DispatchMessage(message);
    }

    /** `RemoteForum.connect_everyone`: exactly one actor, which gets the
        factory the server sent. */
    method ConnectEveryone(w: World, acts: seq<Actor>) returns (r: Outcome<ForumError>)
      requires w.OwnsItself() && !w.locked
      modifies this, forum, w, set a | a in acts
      ensures |acts| != 1 ==> r == Fail(NotOneActor) && forum.world == old(forum.world) && forum.actors == old(forum.actors)
      ensures |acts| == 1 ==> actor == acts[0] && forum.world == w && forum.actors == Some(acts) && w.actors == Classes(acts)
      ensures |acts| == 1 && old(actorIdFactory) == null ==> r == Fail(NoIdFromServer)
      ensures r.Pass? ==> |acts| == 1 && acts[0].world == w && acts[0].forum == forum && acts[0].factory == actorIdFactory &&
                          old(acts[0].world) == null && old(acts[0].factory) == null && old(acts[0].forum) == null
      ensures actorIdFactory == old(actorIdFactory) && outbox == old(outbox)
    {
      if |acts| != 1 {
        return Fail(NotOneActor);
      }
      actor := acts[0];
      r := forum.Attach(w, acts);
      assert r.Pass?;
      if actorIdFactory == null {
        return Fail(NoIdFromServer);
      }
      r := forum.ConnectActors(w, acts, [actorIdFactory]);
    }

    /** `RemoteForum.on_update_game`: which dispatches the messages that
        came from the server call for, in order. */
    method OnUpdateGame(inbox: seq<Message>) returns (r: Result<seq<ForumCall>, ForumError>)
      ensures r == ClientCalls(Senders(inbox), ErrorFlags(inbox, true), ErrorFlags(inbox, false), Own())
    {
      ghost var senders := Senders(inbox);
      ghost var soft := ErrorFlags(inbox, true);
      ghost var hard := ErrorFlags(inbox, false);
      var calls := [];
      var i := 0;
      while i < |inbox|
        invariant 0 <= i <= |inbox|
        invariant ClientCalls(senders[..i], soft[..i], hard[..i], Own()) == Ok(calls)
      {
        assert senders[..i + 1][..i] == senders[..i] && soft[..i + 1][..i] == soft[..i] && hard[..i + 1][..i] == hard[..i];
        var m := inbox[i];
        if m.senderId.None? || actorIdFactory == null {
          r := if m.senderId.None? then Err(MessageFailed(MessageNotSent)) else Err(ActorHasNoId);
          assert ClientCalls(senders[..i + 1], soft[..i + 1], hard[..i + 1], Own()) == r;
          ClientCallsStopsAtError(senders, soft, hard, Own(), i + 1);
          return;
        }
        var sentHere := m.WasSentBy(actorIdFactory);
        var dispatchCall := if !sentHere.value then [Dispatch(i)] else [];
        var softCall := if m.HasSoftSyncError() then [DispatchSoft(i)] else [];
        var hardCall := if m.HasHardSyncError() then [DispatchHard(i)] else [];
        calls := calls + (dispatchCall + softCall + hardCall);
        i := i + 1;
      }
      assert senders[..i] == senders && soft[..i] == soft && hard[..i] == hard;
      r := Ok(calls);
    }
  }

  /** A client never executes its own message a second time when the server
      sends it back: only the sync-error dispatches can concern it. */
  lemma OwnMessagesNotReexecuted(senders: seq<Option<int>>, soft: seq<bool>, hard: seq<bool>, own: Option<int>, i: nat)
    requires |soft| == |senders| && |hard| == |senders| && i < |senders| && senders[i] == own
    requires ClientCalls(senders, soft, hard, own).Ok?
    ensures Dispatch(i) !in ClientCalls(senders, soft, hard, own).value
  {
    ClientCallsMembers(senders, soft, hard, own);
  }

  /** The error state the server's update leaves on `m`: the verdict of the
      last failed check of `m` in the batch (soft when it was recoverable,
      hard otherwise), or none when every check of `m` passed. */
  function LastVerdict(inbox: seq<Message>, passes: seq<bool>, recoverable: seq<bool>, m: Message): (v: Option<ErrorState>)
    requires |passes| == |inbox| && |recoverable| == |inbox|
    ensures v.Some? <==> exists k :: 0 <= k < |inbox| && inbox[k] == m && !passes[k]
    ensures v.Some? ==> (exists k :: 0 <= k < |inbox| && inbox[k] == m && !passes[k] &&
                           v.value == (if recoverable[k] then SoftSyncError else HardSyncError))
  {
    if inbox == [] then None
    else
      var n := |inbox| - 1;
      if inbox[n] == m && !passes[n] then Some(if recoverable[n] then SoftSyncError else HardSyncError)
      else
        var v := LastVerdict(inbox[..n], passes[..n], recoverable[..n], m);
        assert forall k :: 0 <= k < n ==> inbox[..n][k] == inbox[k] && passes[..n][k] == passes[k] && recoverable[..n][k] == recoverable[k];
        v
  }

  /** One more message of the batch, for the three functions the server's
      update is specified by. */
  lemma ServeStep(inbox: seq<Message>, senders: seq<Option<int>>, passes: seq<bool>, recoverable: seq<bool>,
                  own: Option<int>, i: nat)
    requires |senders| == |inbox| && |passes| == |inbox| && |recoverable| == |inbox| && i < |inbox|
    ensures ServerAdmits(senders[..i + 1], passes[..i + 1], recoverable[..i + 1], own) ==
            (var rest := ServerAdmits(senders[..i], passes[..i], recoverable[..i], own);
             var v := ServerVerdict(senders[i], passes[i], recoverable[i], own);
             if rest.Err? then rest
             else if v.Err? then Err(v.error)
             else if v.value then Ok(rest.value + [i])
             else rest)
    ensures Bounced(inbox[..i + 1], passes[..i + 1]) ==
            Bounced(inbox[..i], passes[..i]) + if passes[i] then [] else [MessagePacket(inbox[i])]
  {
    assert senders[..i + 1][..i] == senders[..i] && passes[..i + 1][..i] == passes[..i];
    assert recoverable[..i + 1][..i] == recoverable[..i] && inbox[..i + 1][..i] == inbox[..i];
  }

  /** The verdict left on `m` after one more message of the batch. */
  lemma VerdictStep(inbox: seq<Message>, passes: seq<bool>, recoverable: seq<bool>, i: nat, m: Message)
    requires |passes| == |inbox| && |recoverable| == |inbox| && i < |inbox|
    ensures LastVerdict(inbox[..i + 1], passes[..i + 1], recoverable[..i + 1], m) ==
            if inbox[i] == m && !passes[i] then Some(if recoverable[i] then SoftSyncError else HardSyncError)
            else LastVerdict(inbox[..i], passes[..i], recoverable[..i], m)
  {
    assert passes[..i + 1][..i] == passes[..i];
    assert recoverable[..i + 1][..i] == recoverable[..i] && inbox[..i + 1][..i] == inbox[..i];
  }

  /** One turn of the loop of `RemoteActor.on_update_game`: a message that
      failed the server's check takes its error state and goes back to the
      client; then the message is skipped, handed on, or makes the update
      raise, as `ServerVerdict` says. */
  method ServeOne(remote: Actor, m: Message, pass: bool, rec: bool) returns (r: Result<bool, ForumError>)
    modifies remote, m
    ensures r == ServerVerdict(old(m.senderId), pass, rec, old(remote.Own()))
    ensures remote.outbox == old(remote.outbox) + if pass then [] else [MessagePacket(m)]
    ensures m.errorState == if pass then old(m.errorState) else Some(if rec then SoftSyncError else HardSyncError)
    ensures m.senderId == old(m.senderId) && m.tokensToAdd == old(m.tokensToAdd)
    ensures remote.factory == old(remote.factory) && remote.world == old(remote.world) && remote.forum == old(remote.forum)
  {
    if !pass {
      m.SetErrorState(rec);
      remote.outbox := remote.outbox + [MessagePacket(m)];
      if m.HasHardSyncError() {
        return Ok(false);
      }
    }
    if m.senderId.None? {
      return Err(MessageFailed(MessageNotSent));
    }
    if remote.factory == null {
      return Err(ActorHasNoId);
    }
    var sentByClient := m.WasSentBy(remote.factory);
    r := Ok(sentByClient.value);
  }

  /** `RemoteActor.on_update_game` on the server, for the messages its
      client sent: each message that fails the server's check gets its
      error state and is sent back; then the messages admitted by
      `ServerAdmits` are the ones handed to the forum, whose indices are
      returned.  `passes` and `recoverable` are the answers of `_check` and
      of `on_check_for_soft_sync_error` for each message, against the world
      as the earlier messages left it. */
  method ServeClient(remote: Actor, inbox: seq<Message>, passes: seq<bool>, recoverable: seq<bool>)
    returns (r: Result<seq<nat>, ForumError>)
    requires |passes| == |inbox| && |recoverable| == |inbox|
    modifies remote, set m | m in inbox
    ensures r == ServerAdmits(old(Senders(inbox)), passes, recoverable, old(remote.Own()))
    ensures r.Ok? ==> remote.outbox == old(remote.outbox) + Bounced(inbox, passes)
    ensures r.Ok? ==> forall m :: m in inbox ==>
              m.errorState == (if LastVerdict(inbox, passes, recoverable, m).Some?
                               then LastVerdict(inbox, passes, recoverable, m) else old(m.errorState))
    ensures remote.factory == old(remote.factory) && remote.world == old(remote.world) && remote.forum == old(remote.forum)
  {
    ghost var senders := Senders(inbox);
    ghost var own := remote.Own();
    ghost var errs0 := map m | m in inbox :: m.errorState;
    var admitted: seq<nat> := [];
    var i := 0;
    while i < |inbox|
      invariant 0 <= i <= |inbox|
      invariant Served(remote, inbox, passes, recoverable, i, admitted, senders, own, old(remote.outbox), errs0)
      invariant remote.factory == old(remote.factory) && remote.world == old(remote.world) && remote.forum == old(remote.forum)
    {
      r := ServeNext(remote, inbox, passes, recoverable, i, admitted, senders, own, old(remote.outbox), errs0);
      if r.Err? {
        return;
      }
      admitted := r.value;
      i := i + 1;
    }
    assert senders[..i] == senders && passes[..i] == passes && recoverable[..i] == recoverable && inbox[..i] == inbox;
    r := Ok(admitted);
  }

  /** The state of the server's update after the first `i` messages of the
      batch: what it admitted, what it sent back, the error states it set
      (`errs0` holds them as they were), and the senders as they were. */
  ghost predicate Served(remote: Actor, inbox: seq<Message>, passes: seq<bool>, recoverable: seq<bool>, i: nat,
                         admitted: seq<nat>, senders: seq<Option<int>>, own: Option<int>,
                         outbox0: seq<Packet>, errs0: map<Message, Option<ErrorState>>)
    reads remote, set m | m in inbox
  {
    |passes| == |inbox| && |recoverable| == |inbox| && |senders| == |inbox| && i <= |inbox| &&
    ServerAdmits(senders[..i], passes[..i], recoverable[..i], own) == Ok(admitted) &&
    remote.outbox == outbox0 + Bounced(inbox[..i], passes[..i]) &&
    (forall m :: m in inbox ==>
       (m in errs0 &&
        m.errorState == (if LastVerdict(inbox[..i], passes[..i], recoverable[..i], m).Some?
                         then LastVerdict(inbox[..i], passes[..i], recoverable[..i], m) else errs0[m]))) &&
    (forall k :: 0 <= k < |inbox| ==> inbox[k].senderId == senders[k]) &&
    own == remote.Own()
  }

  /** One turn of the server's update, carried from the first `i` messages
      to the first `i + 1`; an error ends the whole update. */
  method ServeNext(remote: Actor, inbox: seq<Message>, passes: seq<bool>, recoverable: seq<bool>, i: nat,
                   admitted: seq<nat>, ghost senders: seq<Option<int>>, ghost own: Option<int>,
                   ghost outbox0: seq<Packet>, ghost errs0: map<Message, Option<ErrorState>>)
    returns (r: Result<seq<nat>, ForumError>)
    requires i < |inbox| && Served(remote, inbox, passes, recoverable, i, admitted, senders, own, outbox0, errs0)
    modifies remote, inbox[i]
    ensures r.Ok? ==> Served(remote, inbox, passes, recoverable, i + 1, r.value, senders, own, outbox0, errs0)
    ensures r.Err? ==> r == ServerAdmits(senders, passes, recoverable, own)
    ensures remote.factory == old(remote.factory) && remote.world == old(remote.world) && remote.forum == old(remote.forum)
  {
    ServeStep(inbox, senders, passes, recoverable, own, i);
    forall x | x in inbox {
      VerdictStep(inbox, passes, recoverable, i, x);
    }
    var v := ServeOne(remote, inbox[i], passes[i], recoverable[i]);
    if v.Err? {
      r := Err(v.error);
      ServerAdmitsStopsAtError(senders, passes, recoverable, own, i + 1);
      return;
    }
    r := Ok(if v.value then admitted + [i] else admitted);
  }

  /** A message with a hard sync error never reaches the server's forum,
      and neither does one its client did not send. */
  lemma HardErrorsNotExecuted(senders: seq<Option<int>>, passes: seq<bool>, recoverable: seq<bool>, own: Option<int>, i: nat)
    requires |passes| == |senders| && |recoverable| == |senders| && i < |senders|
    requires ServerAdmits(senders, passes, recoverable, own).Ok?
    requires (!passes[i] && !recoverable[i]) || senders[i] != own
    ensures i !in ServerAdmits(senders, passes, recoverable, own).value
  {
    ServerAdmitsSpec(senders, passes, recoverable, own);
  }
}
