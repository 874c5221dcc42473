/** Messages of the older engine (kxg/engine/message.py).  A message is
    mutable until `lock()` deletes its `_mutable` attribute; after that
    every attribute assignment raises.  Its error state is soft or hard,
    the latest flag winning.  `CreateToken` and `DestroyToken` add or
    remove one token, and their hard-sync handlers undo that. */
module LegacyMessages {
  import opened Wrappers
  import IdFactories
  import opened LegacyTokens

  datatype ErrorState = SoftSyncError | HardSyncError

  /** The message classes of the module; a user message keeps the base
      class's hooks. */
  datatype Kind =
    | Plain
    | Composite(parts: seq<Message>)
    | CreateToken(token: Token)
    | DestroyToken(token: Token)

  datatype MessageError =
    | ImmutableMessageError      // assignment to a locked message
    | AlreadyLocked              // `del self._mutable` a second time: AttributeError
    | NoSenderId                 // `sender_id` read before it was set: AttributeError
    | UnhandledSyncError         // the base class's `on_hard_sync_error`
    | NoIsTokenFromMe            // `sender.is_token_from_me` on an IdFactory: AttributeError
    | ZeroSpacing                // `id % 0` in the membership test: ZeroDivisionError
    | WorldFailed(error: WorldError)

  class Message {
    const kind: Kind
    var mutable: bool
    var senderId: Option<int>
    var errorState: Option<ErrorState>

    /** `__new__`: every message starts mutable, unsent and unflagged. */
    constructor (kind: Kind)
      ensures this.kind == kind && mutable && senderId.None? && errorState.None?
    {
      this.kind := kind;
      mutable := true;
      senderId := None;
      errorState := None;
    }

    /** `get_messages`. */
    function GetMessages(): (r: seq<Message>)
      ensures kind.Composite? ==> r == kind.parts
      ensures !kind.Composite? ==> r == [this]
    {
      if kind.Composite? then kind.parts else [this]
    }

    /** `set_sender_id`: an assignment, so refused once locked. */
    method SetSenderId(factory: IdFactories.IdFactory) returns (r: Outcome<MessageError>)
      modifies this
      ensures r.Fail? <==> !old(mutable)
      ensures r.Fail? ==> r.error == ImmutableMessageError && senderId == old(senderId)
      ensures r.Pass? ==> senderId == Some(factory.offset)
      ensures mutable == old(mutable) && errorState == old(errorState)
    {
      if !mutable {
        return Fail(ImmutableMessageError);
      }
      senderId := Some(factory.Get());
      r := Pass;
    }

    /** `was_sent_by`. */
    function WasSentBy(factory: IdFactories.IdFactory): (r: Result<bool, MessageError>)
      reads this
      ensures r.Err? <==> senderId.None?
      ensures r.Err? ==> r.error == NoSenderId
      ensures r.Ok? ==> (r.value <==> senderId == Some(factory.offset))
    {
      if senderId.None? then Err(NoSenderId) else Ok(senderId.value == factory.Get())
    }

    /** `was_sent_by_referee`: the referee is taken to have id 0. */
    function WasSentByReferee(): (r: Result<bool, MessageError>)
      reads this
      ensures r.Err? <==> senderId.None?
      ensures r.Ok? ==> (r.value <==> senderId == Some(0))
    {
      if senderId.None? then Err(NoSenderId) else Ok(senderId.value == 0)
    }

    /** `flag_soft_sync_error` (`hard` false) and `flag_hard_sync_error`
        (`hard` true): an assignment, so refused once locked; a later flag
        replaces an earlier one. */
    method Flag(hard: bool) returns (r: Outcome<MessageError>)
      modifies this
      ensures r.Fail? <==> !old(mutable)
      ensures r.Fail? ==> r.error == ImmutableMessageError && errorState == old(errorState)
      ensures r.Pass? ==> errorState == Some(if hard then HardSyncError else SoftSyncError)
      ensures mutable == old(mutable) && senderId == old(senderId)
    {
      if !mutable {
        return Fail(ImmutableMessageError);
      }
      errorState := Some(if hard then HardSyncError else SoftSyncError);
      r := Pass;
    }

    // kxg/engine/message.py:55-59 repeats kxg/messages.py:55-59, so these two
    // predicates repeat those of the Messages module on purpose.

    /** `has_soft_sync_error`; never true together with a hard one. */
    predicate HasSoftSyncError()
      reads this
      ensures HasSoftSyncError() ==> !HasHardSyncError()
    {
      errorState == Some(SoftSyncError)
    }

    /** `has_hard_sync_error`; never true of a message flagged soft. */
    predicate HasHardSyncError()
      reads this
      ensures HasHardSyncError() ==> errorState != Some(SoftSyncError)
    {
      errorState == Some(HardSyncError)
    }

    /** `lock`: `del self._mutable`, which raises the second time. */
    method Lock() returns (r: Outcome<MessageError>)
      modifies this
      ensures r.Fail? <==> !old(mutable)
      ensures r.Fail? ==> r.error == AlreadyLocked
      ensures !mutable && senderId == old(senderId) && errorState == old(errorState)
    {
      if !mutable {
        return Fail(AlreadyLocked);
      }
      mutable := false;
      r := Pass;
    }

    /** `on_check` as written.  A user message answers `userCheck` (the
        base class answers true); `CreateToken` first tests the world and
        then calls `is_token_from_me` on its `sender` argument, which the
        forum's actors pass as their IdFactory, a class without that
        method; `DestroyToken` passes iff its token is in the world. */
    method CheckAsWritten(world: World, sender: IdFactories.IdFactory, userCheck: bool)
      returns (r: Result<bool, MessageError>)
      ensures kind.Plain? || kind.Composite? ==> r == Ok(userCheck)
      ensures kind.CreateToken? ==>
                r == match world.Contains(kind.token)
                     case Err(e) => Err(WorldFailed(e))
                     case Ok(present) => if present then Ok(false) else Err(NoIsTokenFromMe)
      ensures kind.DestroyToken? ==>
                r == match world.Contains(kind.token)
                     case Err(e) => Err(WorldFailed(e))
                     case Ok(present) => Ok(present)
    {
      match kind {
        case Plain => r := Ok(userCheck);
        case Composite(_) => r := Ok(userCheck);
        case CreateToken(token) =>
          var present := world.Contains(token);
          if present.Err? {
            return Err(WorldFailed(present.error));
          }
          r := if present.value then Ok(false) else Err(NoIsTokenFromMe);
        case DestroyToken(token) =>
          var present := world.Contains(token);
          if present.Err? {
            return Err(WorldFailed(present.error));
          }
          r := Ok(present.value);
      }
    }

    /** `on_check` as intended: `CreateToken` passes iff its token is new
        to the world and its id belongs to the sender's factory (the test
        `IdFactory.__contains__` of kxg/forums.py makes); the membership
        test is reached only for a token new to the world. */
    method Check(world: World, sender: IdFactories.IdFactory, userCheck: bool)
      returns (r: Result<bool, MessageError>)
      ensures kind.Plain? || kind.Composite? ==> r == Ok(userCheck)
      ensures kind.CreateToken? ==>
                (r.Err? <==> kind.token.id.None? || (kind.token.id.value !in world.tokens && sender.spacing == 0)) &&
                (r.Err? ==> r.error == (if kind.token.id.None? then WorldFailed(NoIdAttribute) else ZeroSpacing)) &&
                (r.Ok? ==> (r.value <==> kind.token.id.value !in world.tokens && sender.Contains(kind.token.id.value)))
      ensures kind.DestroyToken? ==>
                (r.Err? <==> kind.token.id.None?) &&
                (r.Ok? ==> (r.value <==> kind.token.id.value in world.tokens))
    {
      match kind {
        case Plain => r := Ok(userCheck);
        case Composite(_) => r := Ok(userCheck);
        case CreateToken(token) =>
          var present := world.Contains(token);
          if present.Err? {
            return Err(WorldFailed(present.error));
          }
          if present.value {
            return Ok(false);
          }
          if sender.spacing == 0 {
            return Err(ZeroSpacing);
          }
          r := Ok(sender.Contains(token.id.value));
        case DestroyToken(token) =>
          var present := world.Contains(token);
          if present.Err? {
            return Err(WorldFailed(present.error));
          }
          r := Ok(present.value);
      }
    }

    /** `on_execute`: `CreateToken` adds its token, `DestroyToken` removes
        it, and the base class does nothing. */
    method Execute(world: World) returns (r: Outcome<MessageError>)
      modifies world, if kind.CreateToken? || kind.DestroyToken? then {kind.token} else {}
      ensures kind.Plain? || kind.Composite? ==> r.Pass? && world.tokens == old(world.tokens)
      ensures kind.CreateToken? ==> ExecutedAdd(world, kind.token, r)
      ensures kind.DestroyToken? ==> ExecutedRemove(world, kind.token, r)
      ensures world.status == old(world.status) && world.actors == old(world.actors)
    {
      match kind {
        case Plain => r := Pass;
        case Composite(_) => r := Pass;
        case CreateToken(token) =>
          var added := world.AddToken(token);
          r := if added.Fail? then Fail(WorldFailed(added.error)) else Pass;
        case DestroyToken(token) =>
          var removed := world.RemoveToken(token);
          r := if removed.Fail? then Fail(WorldFailed(removed.error)) else Pass;
      }
    }

    /** `on_hard_sync_error`: each token message does the opposite of its
        `on_execute`; the base class raises. */
    method HandleHardSyncError(world: World) returns (r: Outcome<MessageError>)
      modifies world, if kind.CreateToken? || kind.DestroyToken? then {kind.token} else {}
      ensures kind.Plain? || kind.Composite? ==> r == Fail(UnhandledSyncError) && world.tokens == old(world.tokens)
      ensures kind.CreateToken? ==> ExecutedRemove(world, kind.token, r)
      ensures kind.DestroyToken? ==> ExecutedAdd(world, kind.token, r)
      ensures world.status == old(world.status) && world.actors == old(world.actors)
    {
      match kind {
        case Plain => r := Fail(UnhandledSyncError);
        case Composite(_) => r := Fail(UnhandledSyncError);
        case CreateToken(token) =>
          var removed := world.RemoveToken(token);
          r := if removed.Fail? then Fail(WorldFailed(removed.error)) else Pass;
        case DestroyToken(token) =>
          var added := world.AddToken(token);
          r := if added.Fail? then Fail(WorldFailed(added.error)) else Pass;
      }
    }
  }

  /** What `_add_token` did to the world and the token. */
  twostate predicate ExecutedAdd(world: World, t: Token, new r: Outcome<MessageError>)
    reads world, t
  {
    t.id == old(t.id) &&
    (r.Pass? <==> old(t.id).Some? && old(t.id).value !in old(world.tokens)) &&
    (r.Pass? ==> world.tokens == old(world.tokens)[old(t.id).value := Held(t)] && t.status == Registered) &&
    (r.Fail? ==> world.tokens == old(world.tokens) && t.status == old(t.status) &&
                 r.error == WorldFailed(if old(t.id).None? then NoIdAttribute else IdReused))
  }

  /** What `_remove_token` did to the world and the token. */
  twostate predicate ExecutedRemove(world: World, t: Token, new r: Outcome<MessageError>)
    reads world, t
  {
    t.id == old(t.id) &&
    (r.Pass? <==> old(t.id).Some? && old(t.status) == Registered && old(t.id).value in old(world.tokens)) &&
    (r.Pass? ==> world.tokens == old(world.tokens) - {old(t.id).value} && t.status == AfterTeardown) &&
    (r.Fail? ==> world.tokens == old(world.tokens) && t.status == old(t.status))
  }

  /** Soft and hard are never reported together, whatever the flags set
      so far. */
  lemma NeverBothFlags(m: Message)
    ensures !(m.HasSoftSyncError() && m.HasHardSyncError())
  {
  }

  /** A `CreateToken` executed and then undone by its hard-sync handler:
      the world's table is back to what it was, and the token ends torn
      down rather than back before setup. */
  method CreateThenUndo(m: Message, world: World) returns (executed: Outcome<MessageError>, undone: Outcome<MessageError>)
    requires m.kind.CreateToken?
    modifies world, m.kind.token
    ensures executed.Pass? <==> old(m.kind.token.id).Some? && old(m.kind.token.id).value !in old(world.tokens)
    ensures executed.Pass? ==> undone.Pass? && world.tokens == old(world.tokens) && m.kind.token.status == AfterTeardown
  {
    executed := m.Execute(world);
    if executed.Fail? {
      return executed, executed;
    }
    undone := m.HandleHardSyncError(world);
    assert old(world.tokens)[m.kind.token.id.value := Held(m.kind.token)] - {m.kind.token.id.value} == old(world.tokens);
  }

  /** A `DestroyToken` executed and then undone: the token is back in the
      table under its id, registered again, and every other entry is as
      it was. */
  method DestroyThenUndo(m: Message, world: World) returns (executed: Outcome<MessageError>, undone: Outcome<MessageError>)
    requires m.kind.DestroyToken?
    modifies world, m.kind.token
    ensures executed.Pass? <==>
              old(m.kind.token.id).Some? && old(m.kind.token.status) == Registered &&
              old(m.kind.token.id).value in old(world.tokens)
    ensures executed.Pass? ==>
              undone.Pass? && world.tokens == old(world.tokens)[old(m.kind.token.id).value := Held(m.kind.token)] &&
              m.kind.token.status == Registered
  {
    executed := m.Execute(world);
    if executed.Fail? {
      return executed, executed;
    }
    undone := m.HandleHardSyncError(world);
  }
}
