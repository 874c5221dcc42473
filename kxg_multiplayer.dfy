/** The networked pair of the current engine (kxg/multiplayer.py): the
    `ServerActor` that stands, on the server, for one client, and the
    `ClientForum` that, on the client, keeps every message it sent in a
    cache until the server's `ServerResponse` for it has been handled.

    What the forum itself does with a message (relay, execute, react) is
    module Forums; here a call of the forum's `dispatch_message` or of a
    sync-error handler is an event in the client's log, and what the pipe is
    asked to send is a packet in an outbox.  Answers of user hooks
    (`_check`, `_prepare_sync`) are parameters. */
module Multiplayer {
  import opened Wrappers
  import IdFactories
  import opened Messages
  import opened Forums

  /** `ServerResponse`: the server's answer to the message with response id
      `id`. */
  datatype ServerResponse = ServerResponse(id: int, syncNeeded: bool, undoNeeded: bool)

  /** The response the server actor settles on: built with both flags
      false, `sync_needed` set when the check failed, and `undo_needed` set
      when, after a failed check, `_prepare_sync` could not prepare a
      sync. */
  function Respond(id: int, passes: bool, prepared: bool): (r: ServerResponse)
    ensures r.id == id
    ensures r.syncNeeded <==> !passes
    ensures r.undoNeeded <==> !passes && !prepared
    ensures r.undoNeeded ==> r.syncNeeded
  {
    var response := ServerResponse(id, false, false);
    var checked := response.(syncNeeded := !passes);
    if checked.syncNeeded then checked.(undoNeeded := !prepared) else checked
  }

  // ---------------------------------------------------------------------
  // ServerActor.on_update_game

  /** What the server actor does with one message from its client: a
      message not sent under the actor's own id is skipped (`None`);
      `was_sent_by` raises for an unsent message, and then for an actor
      without an id; otherwise the message gets its response. */
  function ServerStep(sender: Option<int>, own: Option<int>, id: int, pass: bool, prepared: bool)
    : (r: Result<Option<ServerResponse>, ForumError>)
    ensures r.Err? <==> sender.None? || own.None?
    ensures r.Ok? ==> (r.value.Some? <==> sender == own)
    ensures r.Ok? && r.value.Some? ==> r.value.value == Respond(id, pass, prepared)
  {
    if sender.None? then Err(MessageFailed(MessageNotSent))
    else if own.None? then Err(ActorHasNoId)
    else if sender != own then Ok(None)
    else Ok(Some(Respond(id, pass, prepared)))
  }

  /** What a server actor's update produced: the responses sent down the
      pipe, in order, and the positions of the messages handed to the
      forum. */
  datatype ServerRun = ServerRun(responses: seq<ServerResponse>, dispatched: seq<nat>)

  /** The server actor's update over a batch of messages (their senders,
      response ids, check answers and `_prepare_sync` answers); the first
      message that raises stops it. */
  function ServerUpdate(senders: seq<Option<int>>, ids: seq<int>, passes: seq<bool>, prepared: seq<bool>,
                        own: Option<int>): Result<ServerRun, ForumError>
    requires |ids| == |senders| && |passes| == |senders| && |prepared| == |senders|
  {
    if senders == [] then Ok(ServerRun([], []))
    else
      var n := |senders| - 1;
      var rest := ServerUpdate(senders[..n], ids[..n], passes[..n], prepared[..n], own);
      if rest.Err? then rest
      else
        var step := ServerStep(senders[n], own, ids[n], passes[n], prepared[n]);
        if step.Err? then Err(step.error)
        else if step.value.None? then rest
        else
          var response := step.value.value;
          Ok(ServerRun(rest.value.responses + [response],
                       rest.value.dispatched + (if response.undoNeeded then [] else [n])))
  }

  /** The positions of the messages sent under the actor's own id, in
      order. */
  function OwnPositions(senders: seq<Option<int>>, own: Option<int>): (ps: seq<nat>)
    ensures forall j :: 0 <= j < |ps| ==> ps[j] < |senders| && senders[ps[j]] == own
    ensures forall i :: 0 <= i < |senders| && senders[i] == own ==> i in ps
    ensures forall j, k :: 0 <= j < k < |ps| ==> ps[j] < ps[k]
  {
    if senders == [] then []
    else
      var n := |senders| - 1;
      OwnPositions(senders[..n], own) + (if senders[n] == own then [n] else [])
  }

  /** When no message raises, the server actor answers every message sent
      under its own id, in order, with the response its check and
      `_prepare_sync` call for, and sends nothing for any other message. */
  lemma {:induction false} ServerResponsesSpec(senders: seq<Option<int>>, ids: seq<int>, passes: seq<bool>,
                                               prepared: seq<bool>, own: Option<int>)
    requires |ids| == |senders| && |passes| == |senders| && |prepared| == |senders|
    requires ServerUpdate(senders, ids, passes, prepared, own).Ok?
    ensures var run := ServerUpdate(senders, ids, passes, prepared, own).value;
            var ps := OwnPositions(senders, own);
            |run.responses| == |ps| &&
            forall j :: 0 <= j < |ps| ==> run.responses[j] == Respond(ids[ps[j]], passes[ps[j]], prepared[ps[j]])
  {
    if senders != [] {
      var n := |senders| - 1;
      ServerResponsesSpec(senders[..n], ids[..n], passes[..n], prepared[..n], own);
      var ps0 := OwnPositions(senders[..n], own);
      forall j | 0 <= j < |ps0|
        ensures ids[..n][ps0[j]] == ids[ps0[j]] && passes[..n][ps0[j]] == passes[ps0[j]]
        ensures prepared[..n][ps0[j]] == prepared[ps0[j]]
      {
      }
    }
  }

  /** When no message raises, a message reaches the forum on the server
      exactly when it was sent under the actor's own id and its response
      does not ask for an undo: its check passed or a sync could be
      prepared. */
  lemma {:induction false} ServerDispatchSpec(senders: seq<Option<int>>, ids: seq<int>, passes: seq<bool>,
                                              prepared: seq<bool>, own: Option<int>)
    requires |ids| == |senders| && |passes| == |senders| && |prepared| == |senders|
    requires ServerUpdate(senders, ids, passes, prepared, own).Ok?
    ensures var run := ServerUpdate(senders, ids, passes, prepared, own).value;
            forall i: nat :: i in run.dispatched <==> i < |senders| && senders[i] == own && (passes[i] || prepared[i])
  {
    if senders != [] {
      var n := |senders| - 1;
      ServerDispatchSpec(senders[..n], ids[..n], passes[..n], prepared[..n], own);
    }
  }

  /** Once a message raises, the rest of the batch does not matter. */
  lemma {:induction false} ServerUpdateStopsAtError(senders: seq<Option<int>>, ids: seq<int>, passes: seq<bool>,
                                                    prepared: seq<bool>, own: Option<int>, k: nat)
    requires |ids| == |senders| && |passes| == |senders| && |prepared| == |senders| && k <= |senders|
    requires ServerUpdate(senders[..k], ids[..k], passes[..k], prepared[..k], own).Err?
    ensures ServerUpdate(senders, ids, passes, prepared, own) ==
            ServerUpdate(senders[..k], ids[..k], passes[..k], prepared[..k], own)
  {
    if k < |senders| {
      var n := |senders| - 1;
      assert senders[..n][..k] == senders[..k] && ids[..n][..k] == ids[..k];
      assert passes[..n][..k] == passes[..k] && prepared[..n][..k] == prepared[..k];
      ServerUpdateStopsAtError(senders[..n], ids[..n], passes[..n], prepared[..n], own, k);
    } else {
      assert senders[..k] == senders && ids[..k] == ids && passes[..k] == passes && prepared[..k] == prepared;
    }
  }

  /** A message whose response asks for an undo never reaches the forum on
      the server, and the server's own sync request always comes with it. */
  lemma UndoneMessagesNotDispatched(senders: seq<Option<int>>, ids: seq<int>, passes: seq<bool>,
                                    prepared: seq<bool>, own: Option<int>, i: nat)
    requires |ids| == |senders| && |passes| == |senders| && |prepared| == |senders| && i < |senders|
    requires ServerUpdate(senders, ids, passes, prepared, own).Ok?
    requires Respond(ids[i], passes[i], prepared[i]).undoNeeded
    ensures i !in ServerUpdate(senders, ids, passes, prepared, own).value.dispatched
  {
    ServerDispatchSpec(senders, ids, passes, prepared, own);
  }

  /** The packets a batch of responses makes on the pipe. */
  function ResponsePackets(responses: seq<ServerResponse>): (packets: seq<Packet>)
    ensures |packets| == |responses|
    ensures forall j :: 0 <= j < |responses| ==>
              packets[j] == ResponsePacket(responses[j].id, responses[j].syncNeeded, responses[j].undoNeeded)
  {
    if responses == [] then []
    else
      var n := |responses| - 1;
      ResponsePackets(responses[..n]) +
        [ResponsePacket(responses[n].id, responses[n].syncNeeded, responses[n].undoNeeded)]
  }

  /** `ServerActor.on_update_game` over the messages its pipe received
      (`responseIds[i]` is the response id the client gave `inbox[i]`,
      `passes[i]` what `_check` answers for it on the server and
      `prepared[i]` what `_prepare_sync` answers).  Every response is sent
      down the pipe; the answer is the positions of the messages to hand to
      the forum's `dispatch_message`, in order. */
  method ServerOnUpdateGame(server: Actor, inbox: seq<Message>, responseIds: seq<int>, passes: seq<bool>,
                            prepared: seq<bool>) returns (r: Result<seq<nat>, ForumError>)
    requires |responseIds| == |inbox| && |passes| == |inbox| && |prepared| == |inbox|
    modifies server
    ensures var run := ServerUpdate(Senders(inbox), responseIds, passes, prepared, old(server.Own()));
            (r.Err? <==> run.Err?) &&
            (r.Err? ==> r.error == run.error) &&
            (r.Ok? ==> r.value == run.value.dispatched &&
                       server.outbox == old(server.outbox) + ResponsePackets(run.value.responses))
    ensures server.factory == old(server.factory) && server.world == old(server.world) && server.forum == old(server.forum)
  {
    ghost var senders := Senders(inbox);
    ghost var own := server.Own();
    var responses: seq<ServerResponse> := [];
    var dispatched: seq<nat> := [];
    var i: nat := 0;
    while i < |inbox|
      invariant server.factory == old(server.factory) && server.world == old(server.world)
      invariant server.forum == old(server.forum)
      invariant own == server.Own()
      invariant RespondedUpTo(senders, responseIds, passes, prepared, own, i, responses, dispatched)
      invariant server.outbox == old(server.outbox) + ResponsePackets(responses)
    {
      var m := inbox[i];
      if m.senderId.None? || server.factory == null {
        r := if m.senderId.None? then Err(MessageFailed(MessageNotSent)) else Err(ActorHasNoId);
        RespondStopsAtError(senders, responseIds, passes, prepared, own, i, r.error);
        return;
      }
      var sentHere := m.WasSentBy(server.factory);
      var responses', dispatched', sent :=
        RespondNext(senders, responseIds, passes, prepared, own, i, responses, dispatched, sentHere.value);
      ResponsePacketsAppend(old(server.outbox), responses, sent);
      server.outbox := server.outbox + ResponsePackets(sent);
      responses, dispatched, i := responses', dispatched', i + 1;
    }
    assert senders[..i] == senders && responseIds[..i] == responseIds;
    assert passes[..i] == passes && prepared[..i] == prepared;
    r := Ok(dispatched);
  }


  /** The server actor's loop so far: the first `i` messages were
      handled without raising, with these responses and dispatches. */
  ghost predicate RespondedUpTo(senders: seq<Option<int>>, ids: seq<int>, passes: seq<bool>, prepared: seq<bool>,
                                own: Option<int>, i: nat, responses: seq<ServerResponse>, dispatched: seq<nat>)
  {
    |ids| == |senders| && |passes| == |senders| && |prepared| == |senders| && i <= |senders| &&
    ServerUpdate(senders[..i], ids[..i], passes[..i], prepared[..i], own) == Ok(ServerRun(responses, dispatched))
  }

  /** One turn of the server actor's loop, for a message that was sent by
      a known sender to an actor with an id: a message sent under the
      actor's own id is answered (`sent` is the response, and the message
      is dispatched unless it needs an undo); any other is skipped. */
  method RespondNext(ghost senders: seq<Option<int>>, ids: seq<int>, passes: seq<bool>, prepared: seq<bool>,
                     ghost own: Option<int>, i: nat, responses: seq<ServerResponse>, dispatched: seq<nat>,
                     sentHere: bool)
    returns (responses': seq<ServerResponse>, dispatched': seq<nat>, sent: seq<ServerResponse>)
    requires RespondedUpTo(senders, ids, passes, prepared, own, i, responses, dispatched)
    requires i < |senders| && senders[i].Some? && own.Some? && (sentHere <==> senders[i] == own)
    ensures RespondedUpTo(senders, ids, passes, prepared, own, i + 1, responses', dispatched')
    ensures responses' == responses + sent
  {
    assert senders[..i + 1][..i] == senders[..i] && ids[..i + 1][..i] == ids[..i];
    assert passes[..i + 1][..i] == passes[..i] && prepared[..i + 1][..i] == prepared[..i];
    ServerUpdateStep(senders, ids, passes, prepared, own, i);
    if !sentHere {
      return responses, dispatched, [];
    }
    var response := ServerResponse(ids[i], false, false);
    response := response.(syncNeeded := !passes[i]);
    if response.syncNeeded {
      response := response.(undoNeeded := !prepared[i]);
    }
    assert response == Respond(ids[i], passes[i], prepared[i]);
    assert dispatched + [] == dispatched;
    responses', sent := responses + [response], [response];
    dispatched' := if response.undoNeeded then dispatched else dispatched + [i];
  }

  /** Sending more responses extends the pipe's packets by theirs. */
  lemma ResponsePacketsAppend(outbox: seq<Packet>, responses: seq<ServerResponse>, more: seq<ServerResponse>)
    ensures outbox + ResponsePackets(responses) + ResponsePackets(more) == outbox + ResponsePackets(responses + more)
  {
    assert ResponsePackets(responses) + ResponsePackets(more) == ResponsePackets(responses + more);
  }

  /** A message that raises at position `i` ends the whole update with its
      error. */
  lemma RespondStopsAtError(senders: seq<Option<int>>, ids: seq<int>, passes: seq<bool>, prepared: seq<bool>,
                            own: Option<int>, i: nat, error: ForumError)
    requires exists responses, dispatched :: RespondedUpTo(senders, ids, passes, prepared, own, i, responses, dispatched)
    requires i < |senders|
    requires error == (if senders[i].None? then MessageFailed(MessageNotSent) else ActorHasNoId)
    requires senders[i].None? || own.None?
    ensures ServerUpdate(senders, ids, passes, prepared, own) == Err(error)
  {
    assert senders[..i + 1][..i] == senders[..i] && ids[..i + 1][..i] == ids[..i];
    assert passes[..i + 1][..i] == passes[..i] && prepared[..i + 1][..i] == prepared[..i];
    assert ServerUpdate(senders[..i + 1], ids[..i + 1], passes[..i + 1], prepared[..i + 1], own) == Err(error);
    ServerUpdateStopsAtError(senders, ids, passes, prepared, own, i + 1);
  }

  /** One message more: the server's update over `i + 1` messages is its
      update over `i` followed by the step for message `i`. */
  lemma ServerUpdateStep(senders: seq<Option<int>>, ids: seq<int>, passes: seq<bool>, prepared: seq<bool>,
                         own: Option<int>, i: nat)
    requires |ids| == |senders| && |passes| == |senders| && |prepared| == |senders| && i < |senders|
    requires ServerUpdate(senders[..i], ids[..i], passes[..i], prepared[..i], own).Ok?
    requires senders[i].Some? && own.Some?
    ensures senders[i] != own ==>
              ServerUpdate(senders[..i + 1], ids[..i + 1], passes[..i + 1], prepared[..i + 1], own) ==
              ServerUpdate(senders[..i], ids[..i], passes[..i], prepared[..i], own)
    ensures senders[i] == own ==>
              ServerUpdate(senders[..i + 1], ids[..i + 1], passes[..i + 1], prepared[..i + 1], own) ==
              Ok(ServerRun(ServerUpdate(senders[..i], ids[..i], passes[..i], prepared[..i], own).value.responses +
                             [Respond(ids[i], passes[i], prepared[i])],
                           ServerUpdate(senders[..i], ids[..i], passes[..i], prepared[..i], own).value.dispatched +
                             (if Respond(ids[i], passes[i], prepared[i]).undoNeeded then [] else [i])))
  {
    assert senders[..i + 1][..i] == senders[..i] && ids[..i + 1][..i] == ids[..i];
    assert passes[..i + 1][..i] == passes[..i] && prepared[..i + 1][..i] == prepared[..i];
  }

  // ---------------------------------------------------------------------
  // ClientForum

  /** `ClientForum.CachedMessage`: a sent message, under its response id,
      with the server's response once it came. */
  datatype CachedMessage = CachedMessage(id: int, message: Message, response: Option<ServerResponse>)

  /** What a client forum asks of its pipe and of its forum, in order. */
  datatype ClientEvent =
    | PipeSent(message: Message)       // `self.pipe.send(message)`
    | Dispatched(message: Message)     // the forum's own `dispatch_message`
    | SoftSynced(message: Message)     // `dispatch_soft_sync_error`
    | HardSynced(message: Message)     // `dispatch_hard_sync_error`

  /** The KeyError of `sent_message_cache[packet.id]`. */
  datatype ClientError = UnknownResponse(id: int)

  /** What comes down a client's pipe: a message another client sent (with
      the server's response attached to it, if any), or the response to one
      of this client's own messages. */
  datatype ClientPacket =
    | MessageIn(message: Message, attached: Option<ServerResponse>)
    | ResponseIn(response: ServerResponse)

  /** Response ids strictly increase along the cache, so each id is cached
      at most once and the newest message is the last. */
  predicate IncreasingIds(cache: seq<CachedMessage>)
  {
    forall i, j :: 0 <= i < j < |cache| ==> cache[i].id < cache[j].id
  }

  /** The position of the cached message with response id `id`, if any. */
  function Find(cache: seq<CachedMessage>, id: int): (r: Option<nat>)
    ensures r.Some? ==> r.value < |cache| && cache[r.value].id == id
    ensures r.None? ==> forall i :: 0 <= i < |cache| ==> cache[i].id != id
  {
    if cache == [] then None
    else if cache[|cache| - 1].id == id then Some(|cache| - 1)
    else Find(cache[..|cache| - 1], id)
  }

  /** The cache once the responses among `packets` are attached, in
      arrival order, or the first response whose id is not cached. */
  function Attach(cache: seq<CachedMessage>, packets: seq<ClientPacket>): Result<seq<CachedMessage>, ClientError>
  {
    if packets == [] then Ok(cache)
    else
      var n := |packets| - 1;
      var rest := Attach(cache, packets[..n]);
      if rest.Err? || packets[n].MessageIn? then rest
      else
        var response := packets[n].response;
        var found := Find(rest.value, response.id);
        if found.None? then Err(UnknownResponse(response.id))
        else Ok(rest.value[found.value := rest.value[found.value].(response := Some(response))])
  }

  /** Attaching responses changes no cached message and no response id,
      and a response that arrived is attached to the message with its
      id. */
  lemma {:induction false} AttachKeepsMessages(cache: seq<CachedMessage>, packets: seq<ClientPacket>)
    requires Attach(cache, packets).Ok?
    ensures |Attach(cache, packets).value| == |cache|
    ensures forall i :: 0 <= i < |cache| ==>
              Attach(cache, packets).value[i].id == cache[i].id &&
              Attach(cache, packets).value[i].message == cache[i].message
    ensures forall k :: 0 <= k < |packets| && packets[k].ResponseIn? ==> Find(cache, packets[k].response.id).Some?
  {
    if packets != [] {
      var n := |packets| - 1;
      AttachKeepsMessages(cache, packets[..n]);
      var rest := Attach(cache, packets[..n]).value;
      if packets[n].ResponseIn? {
        var found := Find(rest, packets[n].response.id);
        assert found.Some?;
        assert Find(cache, packets[n].response.id).Some? by {
          assert cache[found.value].id == packets[n].response.id;
        }
      }
      forall k | 0 <= k < n && packets[k].ResponseIn?
        ensures Find(cache, packets[k].response.id).Some?
      {
        assert packets[..n][k] == packets[k];
      }
    }
  }

  /** Once a response id is unknown, later packets do not matter. */
  lemma {:induction false} AttachStopsAtError(cache: seq<CachedMessage>, packets: seq<ClientPacket>, k: nat)
    requires k <= |packets| && Attach(cache, packets[..k]).Err?
    ensures Attach(cache, packets) == Attach(cache, packets[..k])
  {
    if k < |packets| {
      var n := |packets| - 1;
      assert packets[..n][..k] == packets[..k];
      AttachStopsAtError(cache, packets[..n], k);
    } else {
      assert packets[..k] == packets;
    }
  }

  /** The forum calls the message packets make, in arrival order: each is
      dispatched, then soft-synced when the server attached a response
      asking for a sync. */
  function Arrivals(packets: seq<ClientPacket>): seq<ClientEvent>
  {
    if packets == [] then []
    else
      var n := |packets| - 1;
      Arrivals(packets[..n]) +
        match packets[n]
        case MessageIn(m, attached) =>
          [Dispatched(m)] + (if attached.Some? && attached.value.syncNeeded then [SoftSynced(m)] else [])
        case ResponseIn(_) => []
  }

  /** The reaction to a cached message whose response came: a soft sync
      when the server asked for one, then an undo when it asked for one. */
  function Reaction(entry: CachedMessage): (events: seq<ClientEvent>)
    ensures |events| <= 2
  {
    if entry.response.None? then []
    else
      (if entry.response.value.syncNeeded then [SoftSynced(entry.message)] else []) +
      (if entry.response.value.undoNeeded then [HardSynced(entry.message)] else [])
  }

  /** A handled message is soft-synced exactly when its response asks for a
      sync and undone exactly when it asks for an undo, the sync first. */
  lemma ReactionSpec(entry: CachedMessage)
    requires entry.response.Some?
    ensures SoftSynced(entry.message) in Reaction(entry) <==> entry.response.value.syncNeeded
    ensures HardSynced(entry.message) in Reaction(entry) <==> entry.response.value.undoNeeded
    ensures entry.response.value.syncNeeded && entry.response.value.undoNeeded ==>
              Reaction(entry) == [SoftSynced(entry.message), HardSynced(entry.message)]
  {
  }

  /** How many of the first `n` cached messages the drain keeps: it handles
      messages from the `n`-th down and stops at the first one without a
      response.  The drain of the whole cache keeps `Kept(cache, |cache|)`. */
  function Kept(cache: seq<CachedMessage>, n: nat): (k: nat)
    requires n <= |cache|
    ensures k <= n
  {
    if n == 0 || cache[n - 1].response.None? then n
    else Kept(cache, n - 1)
  }

  /** The drain stops exactly at the newest message without a response:
      every message after the kept ones has its response, and the newest
      kept one, if any, has none. */
  lemma {:induction false} KeptSpec(cache: seq<CachedMessage>, n: nat)
    requires n <= |cache|
    ensures Kept(cache, n) == 0 || cache[Kept(cache, n) - 1].response.None?
    ensures forall i :: Kept(cache, n) <= i < n ==> cache[i].response.Some?
  {
    if n > 0 && cache[n - 1].response.Some? {
      KeptSpec(cache, n - 1);
    }
  }

  /** The messages among the first `n` that the drain handles, in the order
      it handles them. */
  function Drained(cache: seq<CachedMessage>, n: nat): seq<CachedMessage>
    requires n <= |cache|
  {
    if n == 0 || cache[n - 1].response.None? then []
    else [cache[n - 1]] + Drained(cache, n - 1)
  }

  /** The reactions to handled messages, in order. */
  function Reactions(handled: seq<CachedMessage>): seq<ClientEvent>
  {
    if handled == [] then []
    else Reactions(handled[..|handled| - 1]) + Reaction(handled[|handled| - 1])
  }

  function Reversed<T>(s: seq<T>): (r: seq<T>)
    ensures |r| == |s|
    ensures forall i :: 0 <= i < |s| ==> r[i] == s[|s| - 1 - i]
  {
    if s == [] then [] else [s[|s| - 1]] + Reversed(s[..|s| - 1])
  }

  /** The drain handles exactly the cached messages after the kept ones,
      newest first: the handled messages are the cache's tail reversed. */
  lemma {:induction false} DrainIsNewestFirst(cache: seq<CachedMessage>, n: nat)
    requires n <= |cache|
    ensures Drained(cache, n) == Reversed(cache[Kept(cache, n)..n])
  {
    if n > 0 && cache[n - 1].response.Some? {
      DrainIsNewestFirst(cache, n - 1);
      var k := Kept(cache, n);
      assert cache[k..n][..n - k - 1] == cache[k..n - 1];
    } else {
      assert cache[Kept(cache, n)..n] == [];
    }
  }

  /** With increasing ids, the handled messages' ids strictly decrease, so
      no response is handled before the responses to every later message,
      and every handled message has its response. */
  lemma DrainedIdsDecrease(cache: seq<CachedMessage>)
    requires IncreasingIds(cache)
    ensures var handled := Drained(cache, |cache|);
            (forall i, j :: 0 <= i < j < |handled| ==> handled[i].id > handled[j].id) &&
            (forall i :: 0 <= i < |handled| ==> handled[i].response.Some?)
  {
    var n := |cache|;
    DrainIsNewestFirst(cache, n);
    KeptSpec(cache, n);
    var k := Kept(cache, n);
    forall i | 0 <= i < |Drained(cache, n)|
      ensures Drained(cache, n)[i] == cache[n - 1 - i] && k <= n - 1 - i
    {
      assert Drained(cache, n)[i] == cache[k..n][n - k - 1 - i];
    }
  }

  /** `ClientForum`: a client's forum, which numbers the messages it sends
      and caches them until the server's response has been handled. */
  class ClientForum {
    /** `response_id_factory`, `IdFactory(0, 1)`. */
    const responseIds: IdFactories.IdFactory
    /** `sent_message_cache`, oldest first. */
    var cache: seq<CachedMessage>
    var events: seq<ClientEvent>

    /** Every cached id is one the response factory gave out, and the ids
        increase along the cache. */
    ghost predicate Valid()
      reads this, responseIds
    {
      responseIds.offset == 0 && responseIds.spacing == 1 &&
      IncreasingIds(cache) &&
      (forall i :: 0 <= i < |cache| ==> 0 <= cache[i].id < responseIds.numIdsAssigned)
    }

    constructor ()
      ensures Valid() && fresh(responseIds) && responseIds.numIdsAssigned == 0
      ensures cache == [] && events == []
    {
      responseIds := new IdFactories.IdFactory(0, 1);
      cache := [];
      events := [];
    }

    /** `dispatch_message`: the message takes the next response id, 0, 1,
        2, ... in sending order, is cached under it as the newest entry,
        is sent to the server and is then dispatched like in any forum. */
    method DispatchMessage(message: Message) returns (id: int)
      requires Valid()
      modifies this, responseIds
      ensures Valid()
      ensures id == old(responseIds.numIdsAssigned)
      ensures responseIds.numIdsAssigned == old(responseIds.numIdsAssigned) + 1
      ensures cache == old(cache) + [CachedMessage(id, message, None)]
      ensures events == old(events) + [PipeSent(message), Dispatched(message)]
    {
      id := responseIds.Next();
      cache := cache + [CachedMessage(id, message, None)];
      events := events + [PipeSent(message), Dispatched(message)];
    }

    /** Handling one packet of `on_update_game`'s `for` loop: a message is
        dispatched and, when its attached response asks for it, soft-synced;
        a response is attached to the cached message with its id, which must
        be there. */
    method Receive(packet: ClientPacket) returns (r: Outcome<ClientError>)
      requires Valid()
      modifies this
      ensures Valid()
      ensures r.Pass? <==> Attach(old(cache), [packet]).Ok?
      ensures r.Pass? ==> cache == Attach(old(cache), [packet]).value
      ensures r.Fail? ==> r.error == Attach(old(cache), [packet]).error && cache == old(cache)
      ensures events == old(events) + Arrivals([packet])
    {
      assert [packet][..0] == [];
      match packet {
        case MessageIn(message, attached) =>
          events := events + [Dispatched(message)];
          if attached.Some? && attached.value.syncNeeded {
            events := events + [SoftSynced(message)];
          }
          r := Pass;
        case ResponseIn(response) =>
          var found := Find(cache, response.id);
          if found.None? {
            return Fail(UnknownResponse(response.id));
          }
          cache := cache[found.value := cache[found.value].(response := Some(response))];
          r := Pass;
      }
    }

    /** The `while` loop of `on_update_game`: the newest cached message is
        handled -- soft-synced, then undone, as its response asks -- and
        popped, as long as its response has come.  The handled messages are
        the newest ones, newest first (lemma DrainIsNewestFirst); on exit the
        cache is empty or its newest message still waits for its
        response. */
    method DrainCache()
      requires Valid()
      modifies this
      ensures Valid()
      ensures cache == old(cache)[..Kept(old(cache), |old(cache)|)]
      ensures cache == [] || cache[|cache| - 1].response.None?
      ensures events == old(events) + Reactions(Drained(old(cache), |old(cache)|))
    {
      var kept, handled := Drain(cache);
      assert forall i :: 0 <= i < |kept| ==> kept[i] == cache[i];
      cache, events := kept, events + handled;
    }

    /** `on_update_game`: every packet from the server is handled in
        arrival order -- a response with an unknown id raises and stops the
        update -- and then the cache is drained. */
    method OnUpdateGame(packets: seq<ClientPacket>) returns (r: Outcome<ClientError>)
      requires Valid()
      modifies this
      ensures Valid()
      ensures r.Pass? <==> Attach(old(cache), packets).Ok?
      ensures r.Fail? ==> r.error == Attach(old(cache), packets).error
      ensures r.Pass? ==>
                var attached := Attach(old(cache), packets).value;
                cache == attached[..Kept(attached, |attached|)] &&
                events == old(events) + Arrivals(packets) + Reactions(Drained(attached, |attached|))
    {
      var i := 0;
      while i < |packets|
        invariant 0 <= i <= |packets|
        invariant Valid()
        invariant Attach(old(cache), packets[..i]) == Ok(cache)
        invariant events == old(events) + Arrivals(packets[..i])
      {
        ReceiveStep(old(cache), packets, i, cache);
        var received := Receive(packets[i]);
        if received.Fail? {
          AttachStopsAtError(old(cache), packets, i + 1);
          return received;
        }
        i := i + 1;
      }
      assert packets[..i] == packets;
      DrainCache();
      r := Pass;
    }
  }

  /** One handled message more: the reactions grow by that message's. */
  lemma ReactionsStep(done: seq<CachedMessage>, entry: CachedMessage)
    ensures Reactions(done + [entry]) == Reactions(done) + Reaction(entry)
  {
    assert (done + [entry])[..|done|] == done;
  }

  /** One packet more: `Attach` and `Arrivals` over `packets[..i + 1]` are
      those over `packets[..i]` followed by the packet's own. */
  lemma ReceiveStep(cache0: seq<CachedMessage>, packets: seq<ClientPacket>, i: nat, cache: seq<CachedMessage>)
    requires i < |packets| && Attach(cache0, packets[..i]) == Ok(cache)
    ensures Attach(cache0, packets[..i + 1]) == Attach(cache, [packets[i]])
    ensures Arrivals(packets[..i + 1]) == Arrivals(packets[..i]) + Arrivals([packets[i]])
  {
    assert packets[..i + 1][..i] == packets[..i];
    assert [packets[i]][..0] == [];
  }

  /** The drain loop itself, over the cache as a value: it walks down from
      the newest message while its response has come, collecting the
      reactions, and what is left is the cache without the handled
      messages. */
  method Drain(cache0: seq<CachedMessage>) returns (pending: seq<CachedMessage>, handled: seq<ClientEvent>)
    ensures pending == cache0[..Kept(cache0, |cache0|)]
    ensures pending == [] || pending[|pending| - 1].response.None?
    ensures handled == Reactions(Drained(cache0, |cache0|))
  {
    var n: nat := |cache0|;
    handled := [];
    ghost var done: seq<CachedMessage> := [];
    while n > 0 && cache0[n - 1].response.Some?
      invariant DrainedDownTo(cache0, n, done, handled)
    {
      n, done, handled := DrainNext(cache0, n, done, handled, cache0[n - 1]);
    }
    assert Kept(cache0, n) == n && Drained(cache0, n) == [];
    assert done + [] == done;
    pending := cache0[..n];
  }

  /** The drain so far: the messages from position `n` on were handled,
      newest first (`done`), with the reactions `handled`. */
  ghost predicate DrainedDownTo(cache0: seq<CachedMessage>, n: nat, done: seq<CachedMessage>, handled: seq<ClientEvent>)
  {
    n <= |cache0| &&
    Kept(cache0, n) == Kept(cache0, |cache0|) &&
    Drained(cache0, |cache0|) == done + Drained(cache0, n) &&
    handled == Reactions(done)
  }

  /** One turn of the drain loop: the newest message left, whose response
      has come, is soft-synced and undone as its response asks, and
      popped. */
  method DrainNext(ghost cache0: seq<CachedMessage>, n: nat, ghost done: seq<CachedMessage>, handled: seq<ClientEvent>, entry: CachedMessage)
    returns (n': nat, ghost done': seq<CachedMessage>, handled': seq<ClientEvent>)
    requires DrainedDownTo(cache0, n, done, handled)
    requires 0 < n && entry == cache0[n - 1] && entry.response.Some?
    ensures DrainedDownTo(cache0, n', done', handled') && n' == n - 1
  {
    var reaction: seq<ClientEvent> := [];
    if entry.response.value.syncNeeded {
      reaction := reaction + [SoftSynced(entry.message)];
    }
    if entry.response.value.undoNeeded {
      reaction := reaction + [HardSynced(entry.message)];
    }
    assert reaction == Reaction(entry);
    ReactionsStep(done, entry);
    assert done + Drained(cache0, n) == (done + [entry]) + Drained(cache0, n - 1);
    handled' := handled + reaction;
    done' := done + [entry];
    n' := n - 1;
  }
}
