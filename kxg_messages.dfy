/** Messages of the current engine (kxg/messages.py): the tokens a message
    adds to and removes from the world, its sender, its sync-error flag,
    the structural check every actor runs before a message is sent or
    relayed, its execution, and the undo a client performs when the server
    reports a hard sync error.

    The hooks a game overrides (`on_check`, `on_check_for_soft_sync_error`,
    `on_execute`, `on_hard_sync_error`) are user code: the answer of a
    hook becomes a parameter, and hooks that only act are left out. */
module Messages {
  import opened Wrappers
  import IdFactories
  import opened TokenWorld
  import opened Tables

  /** `Message.ErrorState`. */
  datatype ErrorState = SoftSyncError | HardSyncError

  datatype MessageError =
    | MessageAlreadySent         // adding or removing tokens after sending
    | MessageNotSent             // reading `sender_id` before it is set
    | IdIsNone                   // `None in id_factory` evaluates `None % spacing`
    | ZeroSpacing                // `id % 0` in `id in id_factory`
    | UnhandledSyncError         // the default `on_hard_sync_error`
    | WorldError(error: ApiError)

  /** The ids of a list of tokens, as the tokens hold them now. */
  function IdsOf(ts: seq<Token>): (ids: seq<Option<int>>)
    reads set t | t in ts
    ensures |ids| == |ts| && forall i :: 0 <= i < |ts| ==> ids[i] == ts[i].id
  {
    if ts == [] then [] else IdsOf(ts[..|ts| - 1]) + [ts[|ts| - 1].id]
  }

  /** The ids of a list of tokens that all have one. */
  function IdValues(ts: seq<Token>): (ids: seq<int>)
    requires forall i :: 0 <= i < |ts| ==> ts[i].id.Some?
    reads set t | t in ts
    ensures |ids| == |ts| && forall i :: 0 <= i < |ts| ==> ts[i].id == Some(ids[i])
  {
    if ts == [] then [] else IdValues(ts[..|ts| - 1]) + [ts[|ts| - 1].id.value]
  }

  /** The first loop of `_check`, over the tokens to add: `Ok(true)` when
      every token passes, `Ok(false)` at the first token that is already in
      the world (`token.id in world._tokens`) or whose id is not in the
      checking factory, and the exception `id in id_factory` raises for a
      `None` id or a zero spacing. */
  function CheckAdditions(ids: seq<Option<int>>, present: set<int>, offset: int, spacing: nat): Result<bool, MessageError>
  {
    if ids == [] then Ok(true)
    else if ids[0].Some? && ids[0].value in present then Ok(false)
    else if ids[0].None? then Err(IdIsNone)
    else if spacing == 0 then Err(ZeroSpacing)
    else if ids[0].value % spacing != offset % spacing then Ok(false)
    else CheckAdditions(ids[1..], present, offset, spacing)
  }

  /** The second loop of `_check`: every token to remove is in the world. */
  function CheckRemovals(ids: seq<Option<int>>, present: set<int>): bool
  {
    if ids == [] then true
    else ids[0].Some? && ids[0].value in present && CheckRemovals(ids[1..], present)
  }

  /** `_check`: the structural checks, then the answer of `on_check`. */
  function CheckResult(addIds: seq<Option<int>>, removeIds: seq<Option<int>>, present: set<int>,
                       offset: int, spacing: nat, accepts: bool): Result<bool, MessageError>
  {
    match CheckAdditions(addIds, present, offset, spacing)
    case Err(e) => Err(e)
    case Ok(ok) => if !ok then Ok(false) else Ok(CheckRemovals(removeIds, present) && accepts)
  }

  /** A message passes `_check` exactly when every token to add has a new
      id drawn from the checking factory, every token to remove is in the
      world, and `on_check` accepts. */
  lemma {:induction false} CheckPasses(addIds: seq<Option<int>>, removeIds: seq<Option<int>>, present: set<int>,
                                       offset: int, spacing: nat, accepts: bool)
    ensures CheckResult(addIds, removeIds, present, offset, spacing, accepts) == Ok(true) <==>
              accepts &&
              (forall i :: 0 <= i < |addIds| ==>
                 addIds[i].Some? && addIds[i].value !in present && spacing > 0 &&
                 addIds[i].value % spacing == offset % spacing) &&
              (forall i :: 0 <= i < |removeIds| ==> removeIds[i].Some? && removeIds[i].value in present)
  {
    AdditionsPass(addIds, present, offset, spacing);
    RemovalsPass(removeIds, present);
  }

  lemma {:induction false} AdditionsPass(ids: seq<Option<int>>, present: set<int>, offset: int, spacing: nat)
    ensures CheckAdditions(ids, present, offset, spacing) == Ok(true) <==>
              forall i :: 0 <= i < |ids| ==>
                ids[i].Some? && ids[i].value !in present && spacing > 0 && ids[i].value % spacing == offset % spacing
  {
    if ids != [] {
      AdditionsPass(ids[1..], present, offset, spacing);
      assert forall i :: 1 <= i < |ids| ==> ids[i] == ids[1..][i - 1];
    }
  }

  lemma {:induction false} RemovalsPass(ids: seq<Option<int>>, present: set<int>)
    ensures CheckRemovals(ids, present) <==> forall i :: 0 <= i < |ids| ==> ids[i].Some? && ids[i].value in present
  {
    if ids != [] {
      RemovalsPass(ids[1..], present);
      assert forall i :: 1 <= i < |ids| ==> ids[i] == ids[1..][i - 1];
    }
  }

  /** A message that is not an instance of any class that overrides
      `on_check` (which accepts) and whose tokens to add got their ids from
      the checking factory passes the check whenever those ids are new to
      the world and the tokens to remove are in it. */
  lemma FactoryIdsPassCheck(addIds: seq<Option<int>>, removeIds: seq<Option<int>>, present: set<int>,
                            offset: int, spacing: nat, first: nat)
    requires spacing > 0
    requires forall i :: 0 <= i < |addIds| ==>
               addIds[i] == Some(IdFactories.NthId(offset, spacing, first + i)) && addIds[i].value !in present
    requires forall i :: 0 <= i < |removeIds| ==> removeIds[i].Some? && removeIds[i].value in present
    ensures CheckResult(addIds, removeIds, present, offset, spacing, true) == Ok(true)
  {
    forall i | 0 <= i < |addIds|
      ensures addIds[i].value % spacing == offset % spacing
    {
      IdFactories.NthIdIsMember(offset, spacing, first + i);
    }
    CheckPasses(addIds, removeIds, present, offset, spacing, true);
  }

  /** The state `__getstate__` hands to pickle: the instance dictionary,
      with each token list left out when it is empty. */
  datatype PickledMessage = PickledMessage(
    tokensToAdd: Option<seq<Token>>,
    tokensToRemove: Option<seq<Token>>,
    senderId: Option<int>,
    errorState: Option<ErrorState>)

  /** The attributes of a message. */
  datatype MessageData = MessageData(
    tokensToAdd: seq<Token>,
    tokensToRemove: seq<Token>,
    senderId: Option<int>,
    errorState: Option<ErrorState>)

  /** `__getstate__`. */
  function GetState(m: MessageData): (p: PickledMessage)
    ensures p.tokensToAdd == (if m.tokensToAdd == [] then None else Some(m.tokensToAdd))
    ensures p.tokensToRemove == (if m.tokensToRemove == [] then None else Some(m.tokensToRemove))
    ensures p.senderId == m.senderId && p.errorState == m.errorState
  {
    PickledMessage(
      if m.tokensToAdd == [] then None else Some(m.tokensToAdd),
      if m.tokensToRemove == [] then None else Some(m.tokensToRemove),
      m.senderId, m.errorState)
  }

  /** `__setstate__`: `Message.__init__` (empty lists), then the pickled
      attributes on top. */
  function SetState(p: PickledMessage): (m: MessageData)
    ensures p.tokensToAdd.None? ==> m.tokensToAdd == []
    ensures p.tokensToRemove.None? ==> m.tokensToRemove == []
  {
    MessageData(
      match p.tokensToAdd case Some(ts) => ts case None => [],
      match p.tokensToRemove case Some(ts) => ts case None => [],
      p.senderId, p.errorState)
  }

  /** Unpickling a pickled message restores every attribute, the omitted
      empty lists included. */
  lemma PickleRoundTrip(m: MessageData)
    ensures SetState(GetState(m)) == m
  {
    match GetState(m).tokensToAdd {
      case None =>
        assert m.tokensToAdd == [];
      case Some(ts) =>
    }
    match GetState(m).tokensToRemove {
      case None =>
        assert m.tokensToRemove == [];
      case Some(ts) =>
    }
  }

  /** The sender test of `was_sent_by_referee` as written: sender id 0. */
  predicate SentByRefereeAsWritten(senderId: int)
  {
    senderId == 0
  }

  /** The sender test that matches the id the referee is given. */
  predicate SentByReferee(senderId: int)
  {
    senderId == 1
  }

  /** In a game set up on a fresh world (whose last id is the world's own 0),
      the referee's factory has offset 1, so a message stamped by the referee
      is not recognised by `was_sent_by_referee` as written, and is by the
      corrected test. */
  lemma RefereeMessagesMisattributed(isReferee: seq<bool>, offsets: seq<int>, r: nat)
    requires IdFactories.IsAssignment(isReferee, 0, offsets)
    requires r < |isReferee| && isReferee[r]
    requires forall a :: 0 <= a < r ==> !isReferee[a]
    ensures !SentByRefereeAsWritten(offsets[r]) && SentByReferee(offsets[r])
  {
    IdFactories.RefereeGetsIdOne(isReferee, offsets, r);
  }

  /** With the corrected test, in a game set up on a fresh world, a message
      is attributed to the referee exactly when the first referee stamped
      it; with the test as written, no actor's message ever is, since every
      actor's id is positive. */
  lemma SentByRefereeIdentifiesReferee(isReferee: seq<bool>, offsets: seq<int>, r: nat, a: nat)
    requires IdFactories.IsAssignment(isReferee, 0, offsets)
    requires r < |isReferee| && isReferee[r]
    requires forall b :: 0 <= b < r ==> !isReferee[b]
    requires a < |isReferee|
    ensures SentByReferee(offsets[a]) <==> a == r
    ensures !SentByRefereeAsWritten(offsets[a])
  {
    IdFactories.RefereeGetsIdOne(isReferee, offsets, r);
    IdFactories.AssignmentFacts(isReferee, 0, offsets);
    if a != r {
      assert offsets[a] != offsets[r] by {
        if a < r {
          assert offsets[a] != offsets[r];
        } else {
          assert offsets[r] != offsets[a];
        }
      }
    }
  }

  class Message {
    var tokensToAdd: seq<Token>
    var tokensToRemove: seq<Token>
    /** `sender_id`, absent until the message is sent. */
    var senderId: Option<int>
    /** `_error_state`, absent until a sync error is flagged. */
    var errorState: Option<ErrorState>

    /** `Message.__init__`: both token lists empty, not sent, no error. */
    constructor ()
      ensures tokensToAdd == [] && tokensToRemove == []
      ensures senderId == None && errorState == None
    {
      tokensToAdd := [];
      tokensToRemove := [];
      senderId := None;
      errorState := None;
    }

    function Data(): MessageData
      reads this
    {
      MessageData(tokensToAdd, tokensToRemove, senderId, errorState)
    }

    /** `was_sent`: the message has a sender id. */
    predicate WasSent()
      reads this
    {
      senderId.Some?
    }

    /** `was_sent_by(factory)`: the sender id is the factory's offset. */
    function WasSentBy(factory: IdFactories.IdFactory): (r: Result<bool, MessageError>)
      reads this
      ensures r.Err? <==> !WasSent()
      ensures r.Err? ==> r.error == MessageNotSent
      ensures r.Ok? ==> (r.value <==> senderId.value == factory.offset)
    {
      if senderId.None? then Err(MessageNotSent) else Ok(senderId.value == factory.Get())
    }

    /** `was_sent_by_referee`, as written. */
    function WasSentByReferee(): (r: Result<bool, MessageError>)
      reads this
      ensures r.Err? <==> !WasSent()
      ensures r.Ok? ==> (r.value <==> SentByRefereeAsWritten(senderId.value))
    {
      if senderId.None? then Err(MessageNotSent) else Ok(SentByRefereeAsWritten(senderId.value))
    }

    /** `has_soft_sync_error`; never true together with a hard one. */
    predicate HasSoftSyncError()
      reads this
      ensures HasSoftSyncError() ==> !HasHardSyncError()
    {
      errorState == Some(SoftSyncError)
    }

    /** `has_hard_sync_error`; never true of a message flagged soft. */
    predicate HasHardSyncError()
      reads this
      ensures HasHardSyncError() ==> errorState != Some(SoftSyncError)
    {
      errorState == Some(HardSyncError)
    }

    /** `add_token`: refused once the message is sent; otherwise appended to
        the tokens to add. */
    method AddToken(token: Token) returns (r: Outcome<MessageError>)
      modifies this
      ensures r.Fail? <==> old(WasSent())
      ensures r.Fail? ==> r.error == MessageAlreadySent && tokensToAdd == old(tokensToAdd)
      ensures r.Pass? ==> tokensToAdd == old(tokensToAdd) + [token]
      ensures tokensToRemove == old(tokensToRemove) && senderId == old(senderId) && errorState == old(errorState)
    {
      if WasSent() {
        return Fail(MessageAlreadySent);
      }
      tokensToAdd := tokensToAdd + [token];
      r := Pass;
    }

    /** `add_tokens`. */
    method AddTokens(tokens: seq<Token>) returns (r: Outcome<MessageError>)
      modifies this
      ensures r.Fail? <==> old(WasSent())
      ensures r.Fail? ==> r.error == MessageAlreadySent && tokensToAdd == old(tokensToAdd)
      ensures r.Pass? ==> tokensToAdd == old(tokensToAdd) + tokens
      ensures tokensToRemove == old(tokensToRemove) && senderId == old(senderId) && errorState == old(errorState)
    {
      if WasSent() {
        return Fail(MessageAlreadySent);
      }
      tokensToAdd := tokensToAdd + tokens;
      r := Pass;
    }

    /** `remove_token`. */
    method RemoveToken(token: Token) returns (r: Outcome<MessageError>)
      modifies this
      ensures r.Fail? <==> old(WasSent())
      ensures r.Fail? ==> r.error == MessageAlreadySent && tokensToRemove == old(tokensToRemove)
      ensures r.Pass? ==> tokensToRemove == old(tokensToRemove) + [token]
      ensures tokensToAdd == old(tokensToAdd) && senderId == old(senderId) && errorState == old(errorState)
    {
      if WasSent() {
        return Fail(MessageAlreadySent);
      }
      tokensToRemove := tokensToRemove + [token];
      r := Pass;
    }

    /** `remove_tokens`. */
    method RemoveTokens(tokens: seq<Token>) returns (r: Outcome<MessageError>)
      modifies this
      ensures r.Fail? <==> old(WasSent())
      ensures r.Fail? ==> r.error == MessageAlreadySent && tokensToRemove == old(tokensToRemove)
      ensures r.Pass? ==> tokensToRemove == old(tokensToRemove) + tokens
      ensures tokensToAdd == old(tokensToAdd) && senderId == old(senderId) && errorState == old(errorState)
    {
      if WasSent() {
        return Fail(MessageAlreadySent);
      }
      tokensToRemove := tokensToRemove + tokens;
      r := Pass;
    }

    /** `_set_sender_id`: the sender is the factory's offset. */
    method SetSenderId(factory: IdFactories.IdFactory)
      modifies this
      ensures senderId == Some(factory.offset) && WasSent()
      ensures tokensToAdd == old(tokensToAdd) && tokensToRemove == old(tokensToRemove) && errorState == old(errorState)
    {
      senderId := Some(factory.Get());
    }

    /** `_set_error_state`: soft when `on_check_for_soft_sync_error`
        (`recoverable`) says so, hard otherwise. */
    method SetErrorState(recoverable: bool)
      modifies this
      ensures HasSoftSyncError() <==> recoverable
      ensures HasHardSyncError() <==> !recoverable
      ensures tokensToAdd == old(tokensToAdd) && tokensToRemove == old(tokensToRemove) && senderId == old(senderId)
    {
      errorState := Some(if recoverable then SoftSyncError else HardSyncError);
    }

    /** `_assign_token_ids`: every token to add takes the factory's next id,
        in list order; the first token that already has an id stops the loop
        (`_give_id` raises). */
    method AssignTokenIds(factory: IdFactories.IdFactory) returns (r: Outcome<ApiError>)
      modifies (set t | t in tokensToAdd), factory
      ensures r.Pass? <==>
                (forall i :: 0 <= i < |tokensToAdd| ==> old(tokensToAdd[i].id).None?) &&
                (forall i, j :: 0 <= i < j < |tokensToAdd| ==> tokensToAdd[i] != tokensToAdd[j])
      ensures r.Fail? ==> r.error == TokenAlreadyHasId
      ensures r.Pass? ==> factory.numIdsAssigned == old(factory.numIdsAssigned) + |tokensToAdd|
      ensures r.Pass? ==> forall i :: 0 <= i < |tokensToAdd| ==>
                tokensToAdd[i].id == Some(IdFactories.NthId(factory.offset, factory.spacing, old(factory.numIdsAssigned) + i))
      ensures forall t :: t in tokensToAdd ==>
                t.world == old(t.world) && t.removedFromWorld == old(t.removedFromWorld)
      ensures forall t :: t in tokensToAdd && old(t.id).Some? ==> t.id == old(t.id)
    {
      var i := 0;
      while i < |tokensToAdd|
        invariant 0 <= i <= |tokensToAdd|
        invariant factory.numIdsAssigned == old(factory.numIdsAssigned) + i
        invariant forall k :: 0 <= k < i ==>
                    tokensToAdd[k].id == Some(IdFactories.NthId(factory.offset, factory.spacing, old(factory.numIdsAssigned) + k))
        invariant forall k :: 0 <= k < i ==> old(tokensToAdd[k].id).None?
        invariant forall k, j :: 0 <= k < j < i ==> tokensToAdd[k] != tokensToAdd[j]
        invariant forall k :: i <= k < |tokensToAdd| && (forall j :: 0 <= j < i ==> tokensToAdd[j] != tokensToAdd[k]) ==>
                    tokensToAdd[k].id == old(tokensToAdd[k].id)
        invariant forall t :: t in tokensToAdd ==>
                    t.world == old(t.world) && t.removedFromWorld == old(t.removedFromWorld)
        invariant forall t :: t in tokensToAdd && old(t.id).Some? ==> t.id == old(t.id)
      {
        var t := tokensToAdd[i];
        ghost var unseen := forall j :: 0 <= j < i ==> tokensToAdd[j] != t;
        r := t.GiveId(factory);
        if r.Fail? {
          if unseen {
            assert old(tokensToAdd[i].id).Some?;
          } else {
            var j :| 0 <= j < i && tokensToAdd[j] == t;
            assert tokensToAdd[j] == tokensToAdd[i];
          }
          return;
        }
        assert unseen && old(tokensToAdd[i].id).None?;
        i := i + 1;
      }
      r := Pass;
    }

    /** `_check(world, id_factory)` with `on_check` answering `accepts`. */
    method Check(world: World, factory: IdFactories.IdFactory, accepts: bool) returns (r: Result<bool, MessageError>)
      ensures r == CheckResult(IdsOf(tokensToAdd), IdsOf(tokensToRemove), world.tokens.Keys,
                               factory.offset, factory.spacing, accepts)
    {
      ghost var addIds := IdsOf(tokensToAdd);
      ghost var present := world.tokens.Keys;
      var i := 0;
      while i < |tokensToAdd|
        invariant 0 <= i <= |tokensToAdd|
        invariant CheckAdditions(addIds, present, factory.offset, factory.spacing) ==
                  CheckAdditions(addIds[i..], present, factory.offset, factory.spacing)
      {
        assert addIds[i..][1..] == addIds[i + 1..];
        var t := tokensToAdd[i];
        if world.Contains(t) {
          return Ok(false);
        }
        if t.id.None? {
          return Err(IdIsNone);
        }
        if factory.spacing == 0 {
          return Err(ZeroSpacing);
        }
        if !factory.Contains(t.id.value) {
          return Ok(false);
        }
        i := i + 1;
      }
      ghost var removeIds := IdsOf(tokensToRemove);
      var j := 0;
      while j < |tokensToRemove|
        invariant 0 <= j <= |tokensToRemove|
        invariant CheckRemovals(removeIds, present) == CheckRemovals(removeIds[j..], present)
      {
        assert removeIds[j..][1..] == removeIds[j + 1..];
        if !world.Contains(tokensToRemove[j]) {
          return Ok(false);
        }
        j := j + 1;
      }
      r := Ok(accepts);
    }

    /** What `_execute` needs of the world to run to completion: each token to
        add waits to be added, has an id the world does not hold, and no two
        share an id; each token to remove is the world's entry for its id,
        and no token is listed twice. */
    ghost predicate CanExecute(world: World)
      reads this, world`tokens, world.tokens.Values, (set t | t in tokensToAdd), (set t | t in tokensToRemove)
    {
      CanAdd(world) &&
      (forall i :: 0 <= i < |tokensToRemove| ==>
         tokensToRemove[i].id.Some? && tokensToRemove[i].id.value in world.tokens &&
         world.tokens[tokensToRemove[i].id.value] == tokensToRemove[i]) &&
      (forall i, j :: 0 <= i < j < |tokensToRemove| ==> tokensToRemove[i] != tokensToRemove[j])
    }

    ghost predicate CanAdd(world: World)
      reads this, world`tokens, world.tokens.Values, set t | t in tokensToAdd
    {
      world.Valid() &&
      (forall i :: 0 <= i < |tokensToAdd| ==>
         tokensToAdd[i].id.Some? && tokensToAdd[i].Registration() == Pending &&
         tokensToAdd[i].id.value !in world.tokens) &&
      (forall i, j :: 0 <= i < j < |tokensToAdd| ==> tokensToAdd[i].id != tokensToAdd[j].id)
    }

    ghost predicate CanRemove(world: World)
      reads this, world`tokens, world.tokens.Values, set t | t in tokensToRemove
    {
      world.Valid() &&
      (forall i :: 0 <= i < |tokensToRemove| ==>
         tokensToRemove[i].id.Some? && tokensToRemove[i].id.value in world.tokens &&
         world.tokens[tokensToRemove[i].id.value] == tokensToRemove[i]) &&
      (forall i, j :: 0 <= i < j < |tokensToRemove| ==> tokensToRemove[i] != tokensToRemove[j])
    }

    /** One turn of the second loop of `_execute`: the token's id is read,
        then the token is removed from the world. */
    static method RemoveOne(world: World, t: Token) returns (r: Outcome<ApiError>, id: int)
      requires world.Valid()
      modifies world, t, t.observer
      ensures world.Valid()
      ensures old(t.id).Some? && old(t.id).value in old(world.tokens) && old(world.tokens)[old(t.id).value] == t ==> r.Pass?
      ensures r.Pass? ==> old(t.id) == Some(id) && world.tokens == old(world.tokens) - {id} &&
                          t.world == null && t.removedFromWorld && t.id == None
      ensures r.Fail? ==> world.tokens == old(world.tokens)
      ensures world.locked == old(world.locked) && world.actors == old(world.actors)
    {
      id := if t.id.Some? then t.id.value else 0;
      assert forall k :: k in world.tokens ==> world.tokens[k].world == world;
      r := world.RemoveToken(t);
    }

    /** One turn of the first loop of `_execute`: the token is added to the
        world under the id it carries. */
    static method AddOne(world: World, t: Token) returns (r: Outcome<ApiError>)
      requires world.Valid()
      modifies world, t, t.observer
      ensures world.Valid()
      ensures old(t.id).Some? && old(t.Registration()) == Pending && old(t.id).value !in old(world.tokens) ==> r.Pass?
      ensures r.Pass? ==> old(t.id).Some? && world.tokens == old(world.tokens)[old(t.id).value := t]
      ensures r.Fail? ==> world.tokens == old(world.tokens)
      ensures t.id == old(t.id)
      ensures world.locked == old(world.locked) && world.actors == old(world.actors)
    {
      r := world.AddToken(t);
    }

    /** The second loop of `_execute`: `world._remove_token` for every token
        to remove, in order.  Each id is read before the removal clears it,
        and returned, so that an undo can put the token back. */
    method ExecuteRemovals(world: World) returns (r: Outcome<ApiError>, removedIds: seq<int>)
      requires world.Valid()
      modifies world, (set t | t in tokensToRemove), (set t | t in tokensToRemove :: t.observer)
      ensures world.Valid()
      ensures old(CanRemove(world)) ==>
                r.Pass? && removedIds == old(IdValues(tokensToRemove)) &&
                world.tokens == DeleteAll(old(world.tokens), removedIds)
      ensures old(CanRemove(world)) ==>
                forall t :: t in tokensToRemove ==> t.world == null && t.removedFromWorld && t.id == None
      ensures world.locked == old(world.locked) && world.actors == old(world.actors)
      ensures forall k :: k in world.tokens ==> k in old(world.tokens) && world.tokens[k] == old(world.tokens[k])
    {
      ghost var can := CanRemove(world);
      ghost var ids: seq<int> := if can then IdValues(tokensToRemove) else [];
      ghost var table0 := world.tokens;
      removedIds := [];
      var i := 0;
      while i < |tokensToRemove|
        invariant 0 <= i <= |tokensToRemove|
        invariant world.Valid()
        invariant world.locked == old(world.locked) && world.actors == old(world.actors)
        invariant forall k :: k in world.tokens ==> k in old(world.tokens) && world.tokens[k] == old(world.tokens[k])
        invariant can ==> |ids| == |tokensToRemove| && removedIds == ids[..i]
        invariant can ==> world.tokens == DeleteAll(table0, ids[..i])
        invariant can ==> forall k :: i <= k < |tokensToRemove| ==>
                    tokensToRemove[k].id == Some(ids[k]) && ids[k] in world.tokens &&
                    world.tokens[ids[k]] == tokensToRemove[k]
        invariant can ==> forall k :: 0 <= k < i ==>
                    tokensToRemove[k].world == null && tokensToRemove[k].removedFromWorld &&
                    tokensToRemove[k].id == None
      {
        var id;
        r, id := RemoveOne(world, tokensToRemove[i]);
        if r.Fail? {
          return;
        }
        removedIds := removedIds + [id];
        if can {
          assert ids[..i + 1][..i] == ids[..i];
        }
        i := i + 1;
      }
      if can {
        assert ids[..i] == ids;
      }
      r := Pass;
    }

    /** The first loop of `_execute`: `world._add_token` for every token to
        add, in order. */
    method ExecuteAdditions(world: World) returns (r: Outcome<ApiError>)
      requires world.Valid()
      modifies world, (set t | t in tokensToAdd), (set t | t in tokensToAdd :: t.observer)
      ensures world.Valid()
      ensures old(CanAdd(world)) ==>
                r.Pass? && world.tokens == InsertAll(old(world.tokens), old(IdValues(tokensToAdd)), tokensToAdd)
      ensures world.locked == old(world.locked) && world.actors == old(world.actors)
      ensures forall k :: k in world.tokens ==> (k in old(world.tokens) && world.tokens[k] == old(world.tokens[k])) || world.tokens[k] in tokensToAdd
      ensures forall t :: t in tokensToAdd ==> t.id == old(t.id)
      ensures forall t :: t in tokensToRemove ==> t.id == old(t.id)
    {
      ghost var can := CanAdd(world);
      ghost var ids: seq<int> := if can then IdValues(tokensToAdd) else [];
      ghost var table0 := world.tokens;
      ghost var ids0 := map t | t in tokensToAdd + tokensToRemove :: t.id;
      var i := 0;
      while i < |tokensToAdd|
        invariant 0 <= i <= |tokensToAdd|
        invariant AddedUpTo(world, i, can, ids, table0, ids0)
        invariant world.locked == old(world.locked) && world.actors == old(world.actors)
      {
        r := AddNext(world, i, can, ids, table0, ids0);
        if r.Fail? {
          return;
        }
        i := i + 1;
      }
      if can {
        assert ids[..i] == ids && tokensToAdd[..i] == tokensToAdd;
      }
      r := Pass;
    }

    /** The state of the first loop of `_execute` after `i` tokens: the
        world is valid, every entry is an old one or a token to add, no id
        of a listed token changed (`ids0` holds them as they were), and,
        when the message could be added (`can`), the table is `table0` with
        the first `i` ids inserted and the rest still waiting. */
    ghost predicate AddedUpTo(world: World, i: nat, can: bool, ids: seq<int>, table0: map<int, Token>,
                              ids0: map<Token, Option<int>>)
      reads this, world`tokens, world.tokens.Values, (set t | t in tokensToAdd), (set t | t in tokensToRemove)
    {
      i <= |tokensToAdd| && world.Valid() &&
      (forall k :: k in world.tokens ==> (k in table0 && world.tokens[k] == table0[k]) || world.tokens[k] in tokensToAdd) &&
      (forall t :: t in tokensToAdd + tokensToRemove ==> t in ids0 && t.id == ids0[t]) &&
      (can ==>
         |ids| == |tokensToAdd| && Distinct(ids) && world.tokens == InsertAll(table0, ids[..i], tokensToAdd[..i]) &&
         forall k :: i <= k < |tokensToAdd| ==>
           tokensToAdd[k].id == Some(ids[k]) && tokensToAdd[k].Registration() == Pending && ids[k] !in world.tokens)
    }

    /** One turn of the first loop of `_execute`; a failure can only happen
        when the message could not be added. */
    method AddNext(world: World, i: nat, ghost can: bool, ghost ids: seq<int>, ghost table0: map<int, Token>,
                   ghost ids0: map<Token, Option<int>>) returns (r: Outcome<ApiError>)
      requires i < |tokensToAdd| && AddedUpTo(world, i, can, ids, table0, ids0)
      modifies world, tokensToAdd[i], tokensToAdd[i].observer
      ensures r.Pass? ==> AddedUpTo(world, i + 1, can, ids, table0, ids0)
      ensures r.Fail? ==> !can && AddedUpTo(world, i, can, ids, table0, ids0)
      ensures world.locked == old(world.locked) && world.actors == old(world.actors)
    {
      r := AddOne(world, tokensToAdd[i]);
      if can {
        assert ids[..i + 1][..i] == ids[..i] && tokensToAdd[..i + 1][..i] == tokensToAdd[..i];
      }
    }

    /** `_execute`: every token to add is added, then every token to remove
        is removed (`on_execute`, which follows, is user code).  The ids of
        the removed tokens are returned, read before removal clears them. */
    method Execute(world: World) returns (r: Outcome<ApiError>, removedIds: seq<int>)
      requires world.Valid()
      modifies world, (set t | t in tokensToAdd), (set t | t in tokensToRemove)
      modifies (set t | t in tokensToAdd :: t.observer), (set t | t in tokensToRemove :: t.observer)
      ensures world.Valid()
      ensures old(CanExecute(world)) ==>
                r.Pass? && removedIds == old(IdValues(tokensToRemove)) &&
                world.tokens == DeleteAll(InsertAll(old(world.tokens), old(IdValues(tokensToAdd)), tokensToAdd), removedIds)
      ensures old(CanExecute(world)) ==>
                (forall t :: t in tokensToRemove ==> t.world == null && t.removedFromWorld && t.id == None) &&
                (forall t :: t in tokensToAdd ==> t.id == old(t.id))
      ensures world.locked == old(world.locked) && world.actors == old(world.actors)
      ensures forall k :: k in world.tokens ==> (k in old(world.tokens) && world.tokens[k] == old(world.tokens[k])) || world.tokens[k] in tokensToAdd
    {
      ghost var can := CanExecute(world);
      ghost var table0 := world.tokens;
      ghost var added: seq<int> := if can then IdValues(tokensToAdd) else [];
      ghost var removeIds: seq<int> := if can then IdValues(tokensToRemove) else [];
      removedIds := [];
      r := ExecuteAdditions(world);
      if r.Fail? {
        return;
      }
      if can {
        RemovalsSurviveAdditions(world, table0, added, removeIds);
      }
      r, removedIds := ExecuteRemovals(world);
    }

    /** Adding fresh ids keeps every token to remove at its entry. */
    lemma RemovalsSurviveAdditions(world: World, table0: map<int, Token>, added: seq<int>, removeIds: seq<int>)
      requires world.Valid() && |added| == |tokensToAdd| && Distinct(added)
      requires world.tokens == InsertAll(table0, added, tokensToAdd)
      requires forall i :: 0 <= i < |added| ==> added[i] !in table0
      requires |removeIds| == |tokensToRemove|
      requires forall i :: 0 <= i < |removeIds| ==>
                 tokensToRemove[i].id == Some(removeIds[i]) && removeIds[i] in table0 &&
                 table0[removeIds[i]] == tokensToRemove[i]
      requires forall i, j :: 0 <= i < j < |tokensToRemove| ==> tokensToRemove[i] != tokensToRemove[j]
      ensures CanRemove(world)
    {
      InsertAllSpec(table0, added, tokensToAdd);
      forall i | 0 <= i < |removeIds|
        ensures removeIds[i] in world.tokens && world.tokens[removeIds[i]] == tokensToRemove[i]
      {
        var k := removeIds[i];
        assert k !in added;
        assert k in InsertAll(table0, added, tokensToAdd).Keys;
        assert InsertAll(table0, added, tokensToAdd)[k] == table0[k];
      }
    }

    /** The first loop of `_handle_hard_sync_error`: the world's token under
        the id of each token to add is looked up and removed. */
    method UndoAdditions(world: World) returns (r: Outcome<ApiError>)
      requires world.Valid()
      modifies world, (set k | k in world.tokens :: world.tokens[k]), (set k | k in world.tokens :: world.tokens[k].observer)
      ensures world.Valid()
      ensures old(CanUndoAdditions(world)) ==>
                r.Pass? && world.tokens == DeleteAll(old(world.tokens), old(IdValues(tokensToAdd)))
      ensures world.locked == old(world.locked) && world.actors == old(world.actors)
      ensures forall k :: k in world.tokens ==> k in old(world.tokens) && world.tokens[k] == old(world.tokens[k])
    {
      ghost var can := CanUndoAdditions(world);
      ghost var ids: seq<int> := if can then IdValues(tokensToAdd) else [];
      ghost var table0 := world.tokens;
      var i := 0;
      while i < |tokensToAdd|
        invariant 0 <= i <= |tokensToAdd|
        invariant world.Valid()
        invariant world.locked == old(world.locked) && world.actors == old(world.actors)
        invariant forall k :: k in world.tokens ==> k in old(world.tokens) && world.tokens[k] == old(world.tokens[k])
        invariant can ==> |ids| == |tokensToAdd| && world.tokens == DeleteAll(table0, ids[..i])
        invariant can ==> forall k :: i <= k < |tokensToAdd| ==> tokensToAdd[k].id == Some(ids[k]) && ids[k] in world.tokens
      {
        var id := tokensToAdd[i].id;
        if id.None? {
          return Fail(NoSuchTokenId);
        }
        var found := world.GetToken(id.value);
        if found.Err? {
          return Fail(found.error);
        }
        assert forall k :: k in world.tokens ==> world.tokens[k].world == world;
        r := world.RemoveToken(found.value);
        if r.Fail? {
          return;
        }
        if can {
          assert ids[..i + 1][..i] == ids[..i];
        }
        i := i + 1;
      }
      if can {
        assert ids[..i] == ids;
      }
      r := Pass;
    }

    /** What the undo of the additions needs: every token to add has an id
        the world holds, and no two share one. */
    ghost predicate CanUndoAdditions(world: World)
      reads this, world`tokens, world.tokens.Values, set t | t in tokensToAdd
    {
      world.Valid() &&
      (forall i :: 0 <= i < |tokensToAdd| ==> tokensToAdd[i].id.Some? && tokensToAdd[i].id.value in world.tokens) &&
      (forall i, j :: 0 <= i < j < |tokensToAdd| ==> tokensToAdd[i].id != tokensToAdd[j].id)
    }

    /** What putting the removed tokens back needs: one recorded id per
        token, the ids distinct and free in the world, and each token out of
        the world and listed once. */
    ghost predicate CanRestore(world: World, removedIds: seq<int>)
      reads this, world`tokens, world.tokens.Values, set t | t in tokensToRemove
    {
      world.Valid() && |removedIds| == |tokensToRemove| && Distinct(removedIds) &&
      (forall i :: 0 <= i < |removedIds| ==> removedIds[i] !in world.tokens) &&
      (forall i :: 0 <= i < |tokensToRemove| ==> tokensToRemove[i].Registration() == Expired) &&
      (forall i, j :: 0 <= i < j < |tokensToRemove| ==> tokensToRemove[i] != tokensToRemove[j])
    }

    /** The second loop of `_handle_hard_sync_error`, corrected: each token
        to remove goes back to the pending state, takes back the id it had
        when `_execute` removed it, and is added again. */
    method RestoreRemovals(world: World, removedIds: seq<int>) returns (r: Outcome<ApiError>)
      requires world.Valid()
      modifies world, (set t | t in tokensToRemove), (set t | t in tokensToRemove :: t.observer)
      ensures world.Valid()
      ensures old(CanRestore(world, removedIds)) ==>
                r.Pass? && world.tokens == InsertAll(old(world.tokens), removedIds, tokensToRemove)
      ensures world.locked == old(world.locked) && world.actors == old(world.actors)
    {
      ghost var can := CanRestore(world, removedIds);
      ghost var table0 := world.tokens;
      var i := 0;
      while i < |tokensToRemove|
        invariant 0 <= i <= |tokensToRemove|
        invariant world.Valid()
        invariant world.locked == old(world.locked) && world.actors == old(world.actors)
        invariant can ==> world.tokens == InsertAll(table0, removedIds[..i], tokensToRemove[..i])
        invariant can ==> forall k :: i <= k < |tokensToRemove| ==>
                    tokensToRemove[k].Registration() == Expired && removedIds[k] !in world.tokens
      {
        if i >= |removedIds| {
          return Fail(NoSuchTokenId);
        }
        r := RestoreOne(world, tokensToRemove[i], removedIds[i]);
        if r.Fail? {
          return;
        }
        if can {
          assert removedIds[..i + 1][..i] == removedIds[..i];
          assert tokensToRemove[..i + 1][..i] == tokensToRemove[..i];
        }
        i := i + 1;
      }
      if can {
        assert removedIds[..i] == removedIds && tokensToRemove[..i] == tokensToRemove;
      }
      r := Pass;
    }

    /** One turn of the corrected second loop of `_handle_hard_sync_error`:
        a removed token is reset, takes back its id and is added again. */
    static method RestoreOne(world: World, t: Token, id: int) returns (r: Outcome<ApiError>)
      requires world.Valid()
      modifies world, t, t.observer
      ensures world.Valid()
      ensures old(t.Registration()) == Expired && id !in old(world.tokens) ==>
                r.Pass? && world.tokens == old(world.tokens)[id := t]
      ensures world.locked == old(world.locked) && world.actors == old(world.actors)
    {
      r := t.ResetRegistration();
      if r.Fail? {
        return;
      }
      assert forall k :: k in world.tokens ==> world.tokens[k].world == world;
      t.id := Some(id);
      r := world.AddToken(t);
    }

    /** `_handle_hard_sync_error`, corrected: the additions are undone, the
        removed tokens come back under the ids recorded by `_execute`, and
        the default `on_hard_sync_error` (`handled` false) raises. */
    method HandleHardSyncError(world: World, removedIds: seq<int>, handled: bool) returns (r: Outcome<MessageError>)
      requires world.Valid()
      modifies world, (set k | k in world.tokens :: world.tokens[k]), (set k | k in world.tokens :: world.tokens[k].observer)
      modifies (set t | t in tokensToRemove), (set t | t in tokensToRemove :: t.observer)
      ensures world.Valid()
      ensures old(CanUndoAdditions(world)) && old(CanRestore(world, removedIds)) ==>
                world.tokens == InsertAll(DeleteAll(old(world.tokens), old(IdValues(tokensToAdd))), removedIds, tokensToRemove) &&
                (r.Pass? <==> handled) && (r.Fail? ==> r.error == UnhandledSyncError)
      ensures world.locked == old(world.locked) && world.actors == old(world.actors)
    {
      ghost var restorable := CanRestore(world, removedIds);
      if restorable {
        assert forall k :: k in world.tokens ==> world.tokens[k].world == world;
        assert forall i :: 0 <= i < |tokensToRemove| ==> tokensToRemove[i] !in (set k | k in world.tokens :: world.tokens[k]);
      }
      var undone := UndoAdditions(world);
      if undone.Fail? {
        return Fail(WorldError(undone.error));
      }
      if restorable {
        assert CanRestore(world, removedIds);
      }
      var restored := RestoreRemovals(world, removedIds);
      if restored.Fail? {
        return Fail(WorldError(restored.error));
      }
      r := if handled then Pass else Fail(UnhandledSyncError);
    }

    /** `_handle_hard_sync_error` as written: the id of a token to remove is
        re-read from the token after `_execute` has cleared it, so the token
        is reset and added back without an id. */
    method HandleHardSyncErrorAsWritten(world: World, handled: bool) returns (r: Outcome<MessageError>)
      requires world.Valid()
      modifies world, (set k | k in world.tokens :: world.tokens[k]), (set k | k in world.tokens :: world.tokens[k].observer)
      modifies (set t | t in tokensToRemove), (set t | t in tokensToRemove :: t.observer)
      ensures world.Valid()
      ensures old(CanUndoAdditions(world)) && |tokensToRemove| > 0 &&
              old(tokensToRemove[0].id).None? && old(tokensToRemove[0].Registration()) == Expired ==>
                r == Fail(WorldError(TokenDoesntHaveId))
    {
      ghost var fails := CanUndoAdditions(world) && |tokensToRemove| > 0 &&
                         tokensToRemove[0].id.None? && tokensToRemove[0].Registration() == Expired;
      if fails {
        assert forall k :: k in world.tokens ==> world.tokens[k].world == world;
        assert tokensToRemove[0] !in (set k | k in world.tokens :: world.tokens[k]);
      }
      var undone := UndoAdditions(world);
      if undone.Fail? {
        return Fail(WorldError(undone.error));
      }
      var i := 0;
      while i < |tokensToRemove|
        invariant 0 <= i <= |tokensToRemove|
        invariant world.Valid()
        invariant fails ==> i == 0 && tokensToRemove[0].id.None? && tokensToRemove[0].Registration() == Expired
      {
        var t := tokensToRemove[i];
        var id := t.id;
        var reset := t.ResetRegistration();
        if reset.Fail? {
          return Fail(WorldError(reset.error));
        }
        assert forall k :: k in world.tokens ==> world.tokens[k].world == world;
        t.id := id;
        var added := world.AddToken(t);
        if added.Fail? {
          return Fail(WorldError(added.error));
        }
        i := i + 1;
      }
      r := if handled then Pass else Fail(UnhandledSyncError);
    }

    /** Before `_execute`, what `CanExecute` says about the ids, read off
        as facts about the table alone. */
    lemma ExecutableIds(world: World, added: seq<int>, removeIds: seq<int>)
      requires CanExecute(world)
      requires added == IdValues(tokensToAdd) && removeIds == IdValues(tokensToRemove)
      ensures Distinct(added) && forall i :: 0 <= i < |added| ==> added[i] !in world.tokens
      ensures forall i :: 0 <= i < |removeIds| ==>
                removeIds[i] in world.tokens && world.tokens[removeIds[i]] == tokensToRemove[i]
    {
      forall i, j | 0 <= i < j < |added|
        ensures added[i] != added[j]
      {
        assert tokensToAdd[i].id != tokensToAdd[j].id;
      }
    }

    /** After `_execute`, every added id is still in the table, so the
        first loop of the undo can find each added token. */
    lemma AdditionsSurviveRemovals(world: World, table0: map<int, Token>, added: seq<int>, removedIds: seq<int>)
      requires world.Valid() && |added| == |tokensToAdd| && Distinct(added)
      requires forall i :: 0 <= i < |added| ==> added[i] !in table0 && tokensToAdd[i].id == Some(added[i])
      requires forall i :: 0 <= i < |removedIds| ==> removedIds[i] in table0
      requires world.tokens == DeleteAll(InsertAll(table0, added, tokensToAdd), removedIds)
      ensures CanUndoAdditions(world)
    {
      InsertAllSpec(table0, added, tokensToAdd);
      DeleteAllSpec(InsertAll(table0, added, tokensToAdd), removedIds);
      forall i | 0 <= i < |added|
        ensures added[i] in world.tokens
      {
        assert added[i] !in Ids(removedIds);
      }
    }

    /** After `_execute`, the state the undo needs holds: the added ids are
        in the table and the removed tokens are out of it, under distinct
        ids the table no longer holds. */
    lemma UndoIsPossible(world: World, table0: map<int, Token>, added: seq<int>, removedIds: seq<int>)
      requires world.Valid() && |added| == |tokensToAdd| && Distinct(added)
      requires forall i :: 0 <= i < |added| ==> added[i] !in table0 && tokensToAdd[i].id == Some(added[i])
      requires |removedIds| == |tokensToRemove|
      requires forall i :: 0 <= i < |removedIds| ==>
                 removedIds[i] in table0 && table0[removedIds[i]] == tokensToRemove[i]
      requires forall i, j :: 0 <= i < j < |tokensToRemove| ==> tokensToRemove[i] != tokensToRemove[j]
      requires forall t :: t in tokensToRemove ==> t.world == null && t.removedFromWorld
      requires world.tokens == DeleteAll(InsertAll(table0, added, tokensToAdd), removedIds)
      ensures IdValues(tokensToAdd) == added
      ensures CanUndoAdditions(world) && CanRestore(world, removedIds)
      ensures InsertAll(DeleteAll(world.tokens, added), removedIds, tokensToRemove) == table0
    {
      UndoRestoresTable(table0, added, tokensToAdd, removedIds, tokensToRemove);
      AdditionsSurviveRemovals(world, table0, added, removedIds);
      InsertAllSpec(table0, added, tokensToAdd);
      DeleteAllSpec(InsertAll(table0, added, tokensToAdd), removedIds);
      forall i, j | 0 <= i < j < |removedIds|
        ensures removedIds[i] != removedIds[j]
      {
        assert tokensToRemove[i] != tokensToRemove[j];
      }
    }

    /** A message executed on the client that sent it, then rejected by the
        server with a hard sync error and undone (corrected), leaves the
        client's id -> token table exactly as it found it. */
    method ExecuteThenUndo(world: World, handled: bool) returns (r: Outcome<MessageError>)
      requires CanExecute(world)
      modifies world, (set k | k in world.tokens :: world.tokens[k]), (set k | k in world.tokens :: world.tokens[k].observer)
      modifies (set t | t in tokensToAdd), (set t | t in tokensToRemove)
      modifies (set t | t in tokensToAdd :: t.observer), (set t | t in tokensToRemove :: t.observer)
      ensures world.Valid()
      ensures world.tokens == old(world.tokens) && (r.Pass? <==> handled)
    {
      var removedIds := ExecuteReversibly(world);
      r := HandleHardSyncError(world, removedIds, handled);
    }

    /** `_execute` on a message that can execute leaves a world the
        corrected undo can take back to the table it started from. */
    method ExecuteReversibly(world: World) returns (removedIds: seq<int>)
      requires CanExecute(world)
      modifies world, (set t | t in tokensToAdd), (set t | t in tokensToRemove)
      modifies (set t | t in tokensToAdd :: t.observer), (set t | t in tokensToRemove :: t.observer)
      ensures world.Valid() && CanUndoAdditions(world) && CanRestore(world, removedIds)
      ensures InsertAll(DeleteAll(world.tokens, IdValues(tokensToAdd)), removedIds, tokensToRemove) == old(world.tokens)
      ensures forall k :: k in world.tokens ==> (k in old(world.tokens) && world.tokens[k] == old(world.tokens[k])) || world.tokens[k] in tokensToAdd
    {
      ghost var table0 := world.tokens;
      ghost var added := IdValues(tokensToAdd);
      ExecutableIds(world, added, IdValues(tokensToRemove));
      var executed;
      executed, removedIds := Execute(world);
      UndoIsPossible(world, table0, added, removedIds);
    }

    /** The same sequence with the undo as written: as soon as the message
        removed a token, the undo fails with the token lacking an id. */
    method ExecuteThenUndoAsWritten(world: World, handled: bool) returns (r: Outcome<MessageError>)
      requires CanExecute(world) && |tokensToRemove| > 0
      modifies world, (set k | k in world.tokens :: world.tokens[k]), (set k | k in world.tokens :: world.tokens[k].observer)
      modifies (set t | t in tokensToAdd), (set t | t in tokensToRemove)
      modifies (set t | t in tokensToAdd :: t.observer), (set t | t in tokensToRemove :: t.observer)
      ensures world.Valid()
      ensures r == Fail(WorldError(TokenDoesntHaveId))
    {
      ghost var table0 := world.tokens;
      ghost var added := IdValues(tokensToAdd);
      ExecutableIds(world, added, IdValues(tokensToRemove));
      var executed, removedIds := Execute(world);
      AdditionsSurviveRemovals(world, table0, added, removedIds);
      r := HandleHardSyncErrorAsWritten(world, handled);
    }
  }
}
