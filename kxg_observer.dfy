/** `ForumObserver` of the current engine (kxg/forums.py): three ordered
    lists of (message class, callback) pairs, one per event, and a flag that
    switches subscribing, unsubscribing and reacting off.  The legacy
    observer (kxg/engine/forum_observer.py) is the same machine with other
    method names, an `assert` for the check, and no way to re-enable. */
module Observers {
  import opened Wrappers

  /** A message class, and a message described by the set of classes it is
      an instance of (its class and all of its bases). */
  type MessageClass = nat
  type CallbackId = nat

  datatype Event = MessageEvent | SoftSyncErrorEvent | HardSyncErrorEvent

  datatype CallbackInfo = CallbackInfo(messageClass: MessageClass, callback: CallbackId)

  datatype ObserverError =
    | ObservationDisabled        // the assertion in _check_if_forum_observation_enabled
    | NoCallbacksAttribute       // AttributeError: the observer has no `callbacks`

  /** A method carrying the `subscribe_to_*` decorations. */
  datatype DecoratedMethod = DecoratedMethod(
    callback: CallbackId,
    onMessage: Option<MessageClass>,
    onSoftSyncError: Option<MessageClass>,
    onHardSyncError: Option<MessageClass>)

  /** `isinstance(message, callback_info.message_cls)` filter of `_call_callbacks`:
      the callbacks to call, in registration order. */
  function Matching(infos: seq<CallbackInfo>, classes: set<MessageClass>): seq<CallbackId>
  {
    if infos == [] then []
    else (if infos[0].messageClass in classes then [infos[0].callback] else [])
         + Matching(infos[1..], classes)
  }

  /** The entries an unsubscribe removes: same class, and same callback unless
      the callback is omitted. */
  predicate Unsubscribes(info: CallbackInfo, messageClass: MessageClass, callback: Option<CallbackId>)
  {
    info.messageClass == messageClass && (callback.None? || info.callback == callback.value)
  }

  /** The list that unsubscribing should leave: every other entry, in order. */
  function WithoutMatches(infos: seq<CallbackInfo>, messageClass: MessageClass, callback: Option<CallbackId>): seq<CallbackInfo>
  {
    if infos == [] then []
    else (if Unsubscribes(infos[0], messageClass, callback) then [] else [infos[0]])
         + WithoutMatches(infos[1..], messageClass, callback)
  }

  /** The comprehension at kxg/forums.py:106-110, were `self.callbacks` the
      existing `self._callbacks`: it keeps the matching entries. */
  function OnlyMatches(infos: seq<CallbackInfo>, messageClass: MessageClass, callback: Option<CallbackId>): seq<CallbackInfo>
  {
    if infos == [] then []
    else (if Unsubscribes(infos[0], messageClass, callback) then [infos[0]] else [])
         + OnlyMatches(infos[1..], messageClass, callback)
  }

  class ForumObserver {
    var messageCallbacks: seq<CallbackInfo>
    var softSyncErrorCallbacks: seq<CallbackInfo>
    var hardSyncErrorCallbacks: seq<CallbackInfo>
    var isEnabled: bool

    /** `self._callbacks[event]`. */
    function Callbacks(event: Event): seq<CallbackInfo>
      reads this
    {
      match event
      case MessageEvent => messageCallbacks
      case SoftSyncErrorEvent => softSyncErrorCallbacks
      case HardSyncErrorEvent => hardSyncErrorCallbacks
    }

    /** `__init__`: empty lists, observation enabled, then every decorated
        method subscribed to the events its decorations name, in the order
        the methods are listed. */
    constructor (decorated: seq<DecoratedMethod>)
      ensures isEnabled
      ensures messageCallbacks == Registrations(decorated, MessageEvent)
      ensures softSyncErrorCallbacks == Registrations(decorated, SoftSyncErrorEvent)
      ensures hardSyncErrorCallbacks == Registrations(decorated, HardSyncErrorEvent)
    {
      messageCallbacks, softSyncErrorCallbacks, hardSyncErrorCallbacks := [], [], [];
      isEnabled := true;
      new;
      var i := 0;
      while i < |decorated|
        invariant 0 <= i <= |decorated| && isEnabled
        invariant messageCallbacks == Registrations(decorated[..i], MessageEvent)
        invariant softSyncErrorCallbacks == Registrations(decorated[..i], SoftSyncErrorEvent)
        invariant hardSyncErrorCallbacks == Registrations(decorated[..i], HardSyncErrorEvent)
      {
        var m := decorated[i];
        assert decorated[..i + 1] == decorated[..i] + [m];
        RegistrationsAppend(decorated[..i], m, MessageEvent);
        RegistrationsAppend(decorated[..i], m, SoftSyncErrorEvent);
        RegistrationsAppend(decorated[..i], m, HardSyncErrorEvent);
        // subscribing cannot fail here: observation is enabled
        messageCallbacks := messageCallbacks + Registration(m, MessageEvent);
        softSyncErrorCallbacks := softSyncErrorCallbacks + Registration(m, SoftSyncErrorEvent);
        hardSyncErrorCallbacks := hardSyncErrorCallbacks + Registration(m, HardSyncErrorEvent);
        i := i + 1;
      }
      assert decorated[..|decorated|] == decorated;
    }

    /** `_add_callback` (behind `subscribe_to_message`,
        `subscribe_to_soft_sync_error` and `subscribe_to_hard_sync_error`). */
    method AddCallback(event: Event, messageClass: MessageClass, callback: CallbackId)
      returns (r: Outcome<ObserverError>)
      modifies this
      ensures r == (if old(isEnabled) then Pass else Fail(ObservationDisabled))
      ensures isEnabled == old(isEnabled)
      ensures forall e :: e != event ==> Callbacks(e) == old(Callbacks(e))
      ensures Callbacks(event) ==
                if r.Pass? then old(Callbacks(event)) + [CallbackInfo(messageClass, callback)]
                else old(Callbacks(event))
    {
      if !isEnabled {
        return Fail(ObservationDisabled);
      }
      var info := CallbackInfo(messageClass, callback);
      match event {
        case MessageEvent => messageCallbacks := messageCallbacks + [info];
        case SoftSyncErrorEvent => softSyncErrorCallbacks := softSyncErrorCallbacks + [info];
        case HardSyncErrorEvent => hardSyncErrorCallbacks := hardSyncErrorCallbacks + [info];
      }
      r := Pass;
    }

    /** `_drop_callback` as written: past the enabled check it reads
        `self.callbacks`, which no observer has, so it always raises and
        never changes the lists. */
    method DropCallbackAsWritten(event: Event, messageClass: MessageClass, callback: Option<CallbackId>)
      returns (r: Outcome<ObserverError>)
      ensures r == (if isEnabled then Fail(NoCallbacksAttribute) else Fail(ObservationDisabled))
    {
      if !isEnabled {
        return Fail(ObservationDisabled);
      }
      r := Fail(NoCallbacksAttribute);
    }

    /** `_drop_callback` as intended (behind the `unsubscribe_from_*`
        methods): the list is refilled with the entries that do not match. */
    method DropCallback(event: Event, messageClass: MessageClass, callback: Option<CallbackId>)
      returns (r: Outcome<ObserverError>)
      modifies this
      ensures r == (if old(isEnabled) then Pass else Fail(ObservationDisabled))
      ensures isEnabled == old(isEnabled)
      ensures forall e :: e != event ==> Callbacks(e) == old(Callbacks(e))
      ensures Callbacks(event) ==
                if r.Pass? then WithoutMatches(old(Callbacks(event)), messageClass, callback)
                else old(Callbacks(event))
    {
      if !isEnabled {
        return Fail(ObservationDisabled);
      }
      match event {
        case MessageEvent =>
          messageCallbacks := WithoutMatches(messageCallbacks, messageClass, callback);
        case SoftSyncErrorEvent =>
          softSyncErrorCallbacks := WithoutMatches(softSyncErrorCallbacks, messageClass, callback);
        case HardSyncErrorEvent =>
          hardSyncErrorCallbacks := WithoutMatches(hardSyncErrorCallbacks, messageClass, callback);
      }
      r := Pass;
    }

    /** `_call_callbacks` for an observer without nested observers: the
        callbacks invoked, in the order they are invoked. */
    method CallCallbacks(event: Event, classes: set<MessageClass>)
      returns (r: Result<seq<CallbackId>, ObserverError>)
      ensures !isEnabled ==> r == Err(ObservationDisabled)
      ensures isEnabled ==> r.Ok? && r.value == Matching(Callbacks(event), classes)
    {
      if !isEnabled {
        return Err(ObservationDisabled);
      }
      var infos := Callbacks(event);
      var called: seq<CallbackId> := [];
      var i := 0;
      while i < |infos|
        invariant 0 <= i <= |infos|
        invariant called + Matching(infos[i..], classes) == Matching(infos, classes)
      {
        assert infos[i..][1..] == infos[i + 1..];
        if infos[i].messageClass in classes {
          called := called + [infos[i].callback];
        }
        i := i + 1;
      }
      r := Ok(called);
    }

    /** `_enable_forum_observation` / `_disable_forum_observation`. */
    method SetObservation(enabled: bool)
      modifies this
      ensures isEnabled == enabled
      ensures forall e :: Callbacks(e) == old(Callbacks(e))
    {
      isEnabled := enabled;
    }
  }

  /** The entries the constructor registers for one event, in the order of
      `decorated`: the methods `getmembers(self, ismethod)` lists, which is
      sorted by name. */
  function Registrations(decorated: seq<DecoratedMethod>, event: Event): seq<CallbackInfo>
  {
    if decorated == [] then []
    else Registrations(decorated[..|decorated| - 1], event) + Registration(decorated[|decorated| - 1], event)
  }

  function Registration(m: DecoratedMethod, event: Event): seq<CallbackInfo>
  {
    var cls := match event
      case MessageEvent => m.onMessage
      case SoftSyncErrorEvent => m.onSoftSyncError
      case HardSyncErrorEvent => m.onHardSyncError;
    if cls.Some? then [CallbackInfo(cls.value, m.callback)] else []
  }

  lemma RegistrationsAppend(decorated: seq<DecoratedMethod>, m: DecoratedMethod, e: Event)
    ensures Registrations(decorated + [m], e) == Registrations(decorated, e) + Registration(m, e)
  {
    assert (decorated + [m])[..|decorated|] == decorated;
  }

  /** Calling reaches exactly the callbacks whose class the message is an
      instance of: a callback is called iff some entry of its class matches. */
  lemma {:induction false} MatchingMembers(infos: seq<CallbackInfo>, classes: set<MessageClass>, cb: CallbackId)
    ensures cb in Matching(infos, classes) <==>
            exists i :: 0 <= i < |infos| && infos[i].callback == cb && infos[i].messageClass in classes
  {
    if infos != [] {
      MatchingMembers(infos[1..], classes, cb);
      if cb in Matching(infos[1..], classes) {
        var i :| 0 <= i < |infos[1..]| && infos[1..][i].callback == cb && infos[1..][i].messageClass in classes;
        assert infos[i + 1] == infos[1..][i];
      }
      if exists i :: 0 <= i < |infos| && infos[i].callback == cb && infos[i].messageClass in classes {
        var i :| 0 <= i < |infos| && infos[i].callback == cb && infos[i].messageClass in classes;
        if i > 0 {
          assert infos[1..][i - 1] == infos[i];
        }
      }
    }
  }

  /** Subscribing appends: the new callback is called last, and only for a
      message of its class. */
  lemma MatchingAppend(infos: seq<CallbackInfo>, info: CallbackInfo, classes: set<MessageClass>)
    ensures Matching(infos + [info], classes) ==
            Matching(infos, classes) + (if info.messageClass in classes then [info.callback] else [])
  {
    MatchingConcat(infos, [info], classes);
    assert [info][1..] == [];
  }

  /** Unsubscribing leaves no matching entry and keeps every other entry. */
  lemma {:induction false} WithoutMatchesSpec(infos: seq<CallbackInfo>, messageClass: MessageClass,
                                              callback: Option<CallbackId>, x: CallbackInfo)
    ensures x in WithoutMatches(infos, messageClass, callback) <==>
            x in infos && !Unsubscribes(x, messageClass, callback)
  {
    if infos != [] {
      WithoutMatchesSpec(infos[1..], messageClass, callback, x);
      assert infos == [infos[0]] + infos[1..];
    }
  }

  /** After unsubscribing from a class, no callback is called for that
      class's entries any more, while a message that is not an instance of
      that class still reaches exactly the callbacks it reached before. */
  lemma {:induction false} UnsubscribeLeavesUnrelated(infos: seq<CallbackInfo>, messageClass: MessageClass,
                                                     callback: Option<CallbackId>, classes: set<MessageClass>)
    requires messageClass !in classes
    ensures Matching(WithoutMatches(infos, messageClass, callback), classes) == Matching(infos, classes)
  {
    if infos != [] {
      UnsubscribeLeavesUnrelated(infos[1..], messageClass, callback, classes);
      var head := if Unsubscribes(infos[0], messageClass, callback) then [] else [infos[0]];
      MatchingConcat(head, WithoutMatches(infos[1..], messageClass, callback), classes);
      assert [infos[0]][1..] == [];
    }
  }

  lemma {:induction false} MatchingConcat(a: seq<CallbackInfo>, b: seq<CallbackInfo>, classes: set<MessageClass>)
    ensures Matching(a + b, classes) == Matching(a, classes) + Matching(b, classes)
  {
    if a == [] {
      assert a + b == b;
    } else {
      MatchingConcat(a[1..], b, classes);
      var x, rest := a[0], a[1..];
      assert a == [x] + rest && a + b == [x] + (rest + b);
      MatchingCons(x, rest + b, classes);
      MatchingCons(x, rest, classes);
    }
  }

  lemma MatchingCons(x: CallbackInfo, rest: seq<CallbackInfo>, classes: set<MessageClass>)
    ensures Matching([x] + rest, classes) ==
            (if x.messageClass in classes then [x.callback] else []) + Matching(rest, classes)
  {
    assert ([x] + rest)[0] == x && ([x] + rest)[1..] == rest;
  }

  /** Unsubscribing every callback of a class: a message that is only an
      instance of that class reaches nothing any more. */
  lemma {:induction false} UnsubscribeStopsHandlers(infos: seq<CallbackInfo>, messageClass: MessageClass)
    ensures Matching(WithoutMatches(infos, messageClass, None), {messageClass}) == []
  {
    if infos != [] {
      UnsubscribeStopsHandlers(infos[1..], messageClass);
      MatchingConcat(if Unsubscribes(infos[0], messageClass, None) then [] else [infos[0]],
                     WithoutMatches(infos[1..], messageClass, None), {messageClass});
      assert [infos[0]][1..] == [];
    }
  }

  /** The comprehension as written keeps what it should drop: unsubscribing a
      class from `[(A, f), (B, g)]` would leave `[(A, f)]`, losing the
      unrelated `(B, g)` and keeping the handler it meant to remove. */
  lemma OnlyMatchesKeepsTheWrongEntries(a: MessageClass, b: MessageClass, f: CallbackId, g: CallbackId)
    requires a != b
    ensures OnlyMatches([CallbackInfo(a, f), CallbackInfo(b, g)], a, None) == [CallbackInfo(a, f)]
    ensures WithoutMatches([CallbackInfo(a, f), CallbackInfo(b, g)], a, None) == [CallbackInfo(b, g)]
  {
    var l := [CallbackInfo(a, f), CallbackInfo(b, g)];
    assert l[1..] == [CallbackInfo(b, g)] && l[1..][1..] == [];
    assert OnlyMatches(l[1..], a, None) == [];
    assert WithoutMatches(l[1..], a, None) == [CallbackInfo(b, g)];
  }
}
