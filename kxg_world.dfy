/** Tokens and the world of the current engine (kxg/tokens.py,
    kxg/world.py).  The world is itself a token in the source; here it owns
    `asToken`, the token object that stands for it, so that its id-0 entry
    is an ordinary entry of the id -> token table.  Token and World share a
    module because each refers to the other. */
module TokenWorld {
  import opened Wrappers
  import Observers
  import IdFactories

  type ActorClass = nat
  type ExtensionClass = nat
  type MethodName = string

  datatype ApiError =
    | TokenDoesntHaveId          // adding, or removing, a token without an id
    | TokenAlreadyInWorld        // adding an active token
    | UsingRemovedToken          // adding a token that was removed
    | TokenNotInWorld            // removing a token that has no world
    | StaleWorldReference        // the assertion in `has_world`
    | NoSuchTokenId              // KeyError from the id -> token table
    | TokenAlreadyHasId          // `_give_id` on a token with an id
    | TokenStillInUse            // resetting a token that was not removed
    | NoSuchMethodToWatch        // `watch_method` with an unknown name
    | BadExtensionConstructor    // an extension constructor without (self, actor, token)
    | UnsafeInvocation           // a safety-checked method called while the world is locked
    | CantPickleWorld
    | EmptyWorld                 // `max()` of an empty table raises ValueError
    | MissingAttribute           // AttributeError: an attribute no token defines
    | NotCallable                // TypeError: calling the bool that a property returns
    | MissingImport              // ImportError: `from .tokens import` a name tokens.py lacks

  /** Where a token stands with respect to the world: waiting to be added,
      in the world, or removed from it.  The source reads this as
      `token.world_registration`, which no token class defines; the tests
      call the three states pending/active/removed.  Here it is derived from
      the fields the source does keep (`_world`, `_removed_from_world`). */
  datatype Registration = Pending | Active | Expired

  /** An entry of `__extend__()`: the extension class for one actor class,
      with the number of arguments its constructor takes (`self` included). */
  datatype ExtensionSpec = ExtensionSpec(cls: ExtensionClass, constructorArgs: nat)

  /** An extension instance, built for the actor at position `actor` of the
      actor list. */
  datatype Extension = Extension(cls: ExtensionClass, actor: nat)

  /** `World._add_token` keys a token's extensions by actor class,
      `Token._create_extensions` by actor. */
  datatype ExtensionKey = ByClass(actorClass: ActorClass) | ByActor(actor: nat)

  /** An invocation made when a (possibly watched) token method is called. */
  datatype Invocation = Original(name: MethodName) | Watcher(callback: Observers.CallbackId)

  /** The registration checks of `World._add_token`, in the source's order. */
  function AddCheck(registration: Registration, id: Option<int>): (r: Outcome<ApiError>)
    ensures r.Pass? <==> registration == Pending && id.Some?
  {
    match registration
    case Pending => if id.None? then Fail(TokenDoesntHaveId) else Pass
    case Active => Fail(TokenAlreadyInWorld)
    case Expired => Fail(UsingRemovedToken)
  }

  /** The top-level names kxg/tokens.py defines (its own functions and
      classes, not what it imports). */
  const TokensModuleNames: set<string> :=
    {"read_only", "watch_token", "require_token", "require_active_token",
     "require_id_and_world", "TokenSafetyChecks", "Token", "TokenExtension"}

  /** `from .tokens import <names>`: fails when a name is not defined there. */
  function ImportFromTokens(names: seq<string>): (r: Outcome<ApiError>)
    ensures r.Pass? <==> forall i :: 0 <= i < |names| ==> names[i] in TokensModuleNames
    ensures r.Fail? ==> r.error == MissingImport
  {
    if names == [] then Pass
    else if names[0] !in TokensModuleNames then Fail(MissingImport)
    else ImportFromTokens(names[1..])
  }

  /** The methods kxg/world.py defines on `World`. */
  const WorldMethodNames: set<MethodName> :=
    {"__init__", "__str__", "__iter__", "__len__", "__contains__", "__getstate__",
     "__setstate__", "get_token", "get_last_id", "set_actors", "is_locked",
     "has_game_started", "has_game_ended", "on_start_game", "on_update_game",
     "on_finish_game", "_unlock_temporarily", "_add_token", "_remove_token",
     "_get_nested_observers"}

  /** The registration checks of `World._add_token` as written: they read
      `token.world_registration`, which exists only if some token class
      defines it, and for a pending token they call `token.has_id()`, but
      `has_id` is a property, so the call is made on the bool it returns. */
  function AddCheckAsWritten(attributes: set<MethodName>, registration: Registration, id: Option<int>): (r: Outcome<ApiError>)
  {
    if "world_registration" !in attributes then Fail(MissingAttribute)
    else
      match registration
      case Pending => Fail(NotCallable)
      case Active => Fail(TokenAlreadyInWorld)
      case Expired => Fail(UsingRemovedToken)
  }

  /** As written, kxg/world.py cannot be imported (tokens.py defines no
      `before_world`), and even with the import repaired `_add_token` refuses
      every token: with no `world_registration` attribute, an AttributeError;
      with one, a TypeError exactly where `AddCheck` would let the token in. */
  lemma AddTokenAsWrittenRefusesAll(attributes: set<MethodName>, registration: Registration, id: Option<int>)
    ensures ImportFromTokens(["Token", "read_only", "before_world"]).Fail?
    ensures ImportFromTokens(["Token", "read_only"]).Pass?
    ensures AddCheckAsWritten(attributes, registration, id).Fail?
    ensures "world_registration" !in attributes ==> AddCheckAsWritten(attributes, registration, id) == Fail(MissingAttribute)
    ensures "world_registration" in attributes && AddCheck(registration, id).Pass? ==>
              AddCheckAsWritten(attributes, registration, id) == Fail(NotCallable)
  {
    assert "before_world" !in TokensModuleNames;
    var names := ["Token", "read_only", "before_world"];
    assert names[2] == "before_world";
  }

  /** The extensions `World._add_token` builds: for every actor whose class
      `__extend__()` names, an instance keyed by that class; a later actor of
      the same class replaces an earlier one. */
  function ExtensionsByClass(actors: seq<ActorClass>, extend: map<ActorClass, ExtensionSpec>): map<ExtensionKey, Extension>
  {
    if actors == [] then map[]
    else
      var rest := ExtensionsByClass(actors[..|actors| - 1], extend);
      var c := actors[|actors| - 1];
      if c in extend then rest[ByClass(c) := Extension(extend[c].cls, |actors| - 1)] else rest
  }

  /** The extensions `Token._create_extensions` builds when no constructor
      has the wrong arity: one per actor whose class `__extend__()` names. */
  function ExtensionsByActor(actors: seq<ActorClass>, extend: map<ActorClass, ExtensionSpec>): map<ExtensionKey, Extension>
  {
    if actors == [] then map[]
    else
      var rest := ExtensionsByActor(actors[..|actors| - 1], extend);
      var c := actors[|actors| - 1];
      if c in extend then rest[ByActor(|actors| - 1) := Extension(extend[c].cls, |actors| - 1)] else rest
  }

  /** `TokenSafetyChecks.add_safety_check`: a class member is wrapped iff it
      is a plain function, not marked read-only and not `_`-prefixed. */
  predicate IsSafetyChecked(name: MethodName, isFunction: bool, isReadOnly: bool)
    ensures |name| > 0 && name[0] == '_' ==> !IsSafetyChecked(name, isFunction, isReadOnly)
    ensures isReadOnly || !isFunction ==> !IsSafetyChecked(name, isFunction, isReadOnly)
    ensures isFunction && !isReadOnly && (name == [] || name[0] != '_') ==> IsSafetyChecked(name, isFunction, isReadOnly)
  {
    isFunction && !isReadOnly && !(|name| > 0 && name[0] == '_')
  }

  class Token {
    var id: Option<int>
    var world: World?
    var removedFromWorld: bool
    var extensions: map<ExtensionKey, Extension>
    /** The token's `ForumObserver` part. */
    const observer: Observers.ForumObserver
    /** `__extend__()` of the token's class. */
    const extend: map<ActorClass, ExtensionSpec>
    /** The names `getattr(token, name)` finds. */
    const attributes: set<MethodName>
    /** The attributes replaced by a `WatchedMethod`. */
    var watched: map<MethodName, WatchedMethod>

    /** Every watched attribute is wrapped by a `WatchedMethod` of that name. */
    ghost predicate Valid()
      reads this, watched.Values
    {
      forall n :: n in watched ==> watched[n].name == n
    }

    /** `Token.__init__`: no id, no world, no extensions, and forum
        observation disabled, so that a token cannot subscribe to messages
        before it is added to the world. */
    constructor (extend: map<ActorClass, ExtensionSpec>, attributes: set<MethodName>,
                 decorated: seq<Observers.DecoratedMethod>)
      ensures id == None && world == null && !removedFromWorld
      ensures extensions == map[] && watched == map[]
      ensures this.extend == extend && this.attributes == attributes
      ensures fresh(observer) && !observer.isEnabled
      ensures Registration() == Pending && Valid()
    {
      id := None;
      world := null;
      removedFromWorld := false;
      extensions := map[];
      this.extend := extend;
      this.attributes := attributes;
      watched := map[];
      var o := new Observers.ForumObserver(decorated);
      observer := o;
      new;
      o.SetObservation(false);
    }

    function Registration(): Registration
      reads this
    {
      if world != null then Active
      else if removedFromWorld then Expired
      else Pending
    }

    /** `reset_registration` (the tests call it `reset_participation`):
        only a removed token can be reset, and it is pending again. */
    method ResetRegistration() returns (r: Outcome<ApiError>)
      modifies this
      ensures r.Pass? <==> old(Registration()) == Expired
      ensures r.Fail? ==> r.error == TokenStillInUse && removedFromWorld == old(removedFromWorld)
      ensures r.Pass? ==> Registration() == Pending
      ensures id == old(id) && world == old(world) && extensions == old(extensions) && watched == old(watched)
    {
      if Registration() != Expired {
        return Fail(TokenStillInUse);
      }
      removedFromWorld := false;
      r := Pass;
    }

    /** `has_id`. */
    predicate HasId()
      reads this
    {
      id.Some?
    }

    /** `_give_id`: a token that already has an id refuses; otherwise it
        takes the factory's next id. */
    method GiveId(factory: IdFactories.IdFactory) returns (r: Outcome<ApiError>)
      modifies this, factory
      ensures r.Fail? <==> old(id).Some?
      ensures r.Fail? ==> r.error == TokenAlreadyHasId && id == old(id) && factory.numIdsAssigned == old(factory.numIdsAssigned)
      ensures r.Pass? ==> id == Some(IdFactories.NthId(factory.offset, factory.spacing, old(factory.numIdsAssigned)))
      ensures r.Pass? ==> factory.numIdsAssigned == old(factory.numIdsAssigned) + 1
      ensures world == old(world) && removedFromWorld == old(removedFromWorld)
      ensures extensions == old(extensions) && watched == old(watched)
    {
      if id.Some? {
        return Fail(TokenAlreadyHasId);
      }
      var next := factory.Next();
      id := Some(next);
      r := Pass;
    }

    /** `watch_method`: an unknown name raises; otherwise the attribute is
        wrapped in a `WatchedMethod` the first time and the callback is
        appended to its watchers. */
    method WatchMethod(name: MethodName, callback: Observers.CallbackId) returns (r: Outcome<ApiError>)
      requires Valid()
      modifies this, if name in watched then {watched[name]} else {}
      ensures Valid()
      ensures r.Fail? <==> name !in attributes
      ensures r.Fail? ==> r.error == NoSuchMethodToWatch && watched == old(watched)
      ensures r.Pass? ==> name in watched && watched[name].name == name
      ensures r.Pass? && name in old(watched) ==>
                watched == old(watched) && watched[name].watchers == old(watched[name].watchers) + [callback]
      ensures r.Pass? && name !in old(watched) ==>
                fresh(watched[name]) && watched[name].watchers == [callback] &&
                watched == old(watched)[name := watched[name]]
      ensures id == old(id) && world == old(world) && removedFromWorld == old(removedFromWorld)
      ensures extensions == old(extensions)
    {
      if name !in attributes {
        return Fail(NoSuchMethodToWatch);
      }
      if name !in watched {
        var w := new WatchedMethod(name);
        watched := watched[name := w];
      }
      watched[name].AddWatcher(callback);
      r := Pass;
    }

    /** Calling a token method: the original first, then, if the method is
        watched, each watcher in registration order (all with the call's
        arguments). */
    function Invoke(name: MethodName): (calls: seq<Invocation>)
      requires Valid()
      reads this, watched.Values
      ensures |calls| >= 1 && calls[0] == Original(name)
      ensures name !in watched ==> calls == [Original(name)]
      ensures name in watched ==> |calls| == 1 + |watched[name].watchers|
      ensures name in watched ==>
                forall i :: 0 <= i < |watched[name].watchers| ==> calls[i + 1] == Watcher(watched[name].watchers[i])
    {
      if name in watched then watched[name].Call() else [Original(name)]
    }

    /** `_create_extensions(actors)`: for every actor whose class `__extend__`
        names, the extension constructor must take three arguments (else
        ApiUsageError) and an extension keyed by that actor is created. */
    method CreateExtensions(actors: seq<ActorClass>) returns (r: Outcome<ApiError>)
      modifies this
      ensures r.Pass? <==> forall i :: 0 <= i < |actors| && actors[i] in extend ==> extend[actors[i]].constructorArgs == 3
      ensures r.Fail? ==> r.error == BadExtensionConstructor
      ensures r.Pass? ==> extensions == ExtensionsByActor(actors, extend)
      ensures id == old(id) && world == old(world) && removedFromWorld == old(removedFromWorld)
      ensures watched == old(watched)
    {
      extensions := map[];
      var i := 0;
      while i < |actors|
        invariant 0 <= i <= |actors|
        invariant extensions == ExtensionsByActor(actors[..i], extend)
        invariant forall k :: 0 <= k < i && actors[k] in extend ==> extend[actors[k]].constructorArgs == 3
        invariant id == old(id) && world == old(world) && removedFromWorld == old(removedFromWorld)
        invariant watched == old(watched)
      {
        assert actors[..i + 1][..i] == actors[..i];
        var c := actors[i];
        if c in extend {
          if extend[c].constructorArgs != 3 {
            return Fail(BadExtensionConstructor);
          }
          extensions := extensions[ByActor(i) := Extension(extend[c].cls, i)];
        }
        i := i + 1;
      }
      assert actors[..|actors|] == actors;
      r := Pass;
    }

    /** `_add_to_world`: the token takes the world reference, enables forum
        observation and builds its extensions. */
    method AddToWorld(w: World, actors: seq<ActorClass>) returns (r: Outcome<ApiError>)
      modifies this, observer
      ensures world == w && observer.isEnabled
      ensures r.Pass? <==> forall i :: 0 <= i < |actors| && actors[i] in extend ==> extend[actors[i]].constructorArgs == 3
      ensures r.Pass? ==> extensions == ExtensionsByActor(actors, extend)
      ensures id == old(id) && removedFromWorld == old(removedFromWorld) && watched == old(watched)
    {
      world := w;
      observer.SetObservation(true);
      r := CreateExtensions(actors);
    }

    /** `_remove_from_world`: extensions emptied, observation disabled,
        world and id cleared. */
    method RemoveFromWorld()
      modifies this, observer
      ensures extensions == map[] && !observer.isEnabled
      ensures world == null && id == None
      ensures removedFromWorld == old(removedFromWorld) && watched == old(watched)
    {
      extensions := map[];
      observer.SetObservation(false);
      world := null;
      id := None;
    }
  }

  /** `Token.WatchedMethod`: the wrapped method and its watchers. */
  class WatchedMethod {
    const name: MethodName
    var watchers: seq<Observers.CallbackId>

    constructor (name: MethodName)
      ensures this.name == name && watchers == []
    {
      this.name := name;
      watchers := [];
    }

    /** `add_watcher`. */
    method AddWatcher(callback: Observers.CallbackId)
      modifies this
      ensures watchers == old(watchers) + [callback]
    {
      watchers := watchers + [callback];
    }

    /** `__call__`: the method, then every watcher in order. */
    function Call(): (calls: seq<Invocation>)
      reads this
      ensures |calls| == 1 + |watchers| && calls[0] == Original(name)
      ensures forall i :: 0 <= i < |watchers| ==> calls[i + 1] == Watcher(watchers[i])
    {
      [Original(name)] + WatcherCalls(watchers)
    }
  }

  function WatcherCalls(watchers: seq<Observers.CallbackId>): (calls: seq<Invocation>)
    ensures |calls| == |watchers|
    ensures forall i :: 0 <= i < |watchers| ==> calls[i] == Watcher(watchers[i])
  {
    if watchers == [] then [] else [Watcher(watchers[0])] + WatcherCalls(watchers[1..])
  }

  class World {
    /** `_tokens`: id -> token; the world's own token sits at id 0. */
    var tokens: map<int, Token>
    var locked: bool
    /** The classes of the actors running on this machine (`_actors`). */
    var actors: seq<ActorClass>
    const asToken: Token

    /** Every entry is a token that has that id, knows this world and has
        not been removed. */
    ghost predicate Valid()
      reads `tokens, tokens.Values
    {
      forall k :: k in tokens ==>
        tokens[k].id == Some(k) && tokens[k].world == this && !tokens[k].removedFromWorld
    }

    /** `World.__init__`: id 0, an empty table, locked; then, unlocked for
        the moment, the world adds itself as token 0. */
    constructor ()
      ensures tokens == map[0 := asToken] && locked && actors == []
      ensures asToken.id == Some(0) && asToken.world == this
      ensures Valid()
      ensures fresh(asToken) && fresh(asToken.observer)
    {
      var t := new Token(map[], {}, []);
      asToken := t;
      tokens := map[];
      actors := [];
      locked := true;
      new;
      t.id := Some(0);
      var wasLocked := EnterUnlocked();
      var r := AddToken(t);
      assert r.Pass?;
      ExitUnlocked(wasLocked);
    }

    /** `__contains__`: membership is by id, so a token is in the world
        exactly when `get_token` finds its id. */
    predicate Contains(t: Token)
      reads this, t
      ensures Contains(t) <==> t.id.Some? && GetToken(t.id.value).Ok?
    {
      t.id.Some? && t.id.value in tokens
    }

    /** `is_locked`, the test the safety wrapper makes: while the world
        holds a token, a wrapped method of a token in this world is refused
        exactly when the world is locked. */
    function IsLocked(): (r: bool)
      reads this
      ensures tokens != map[] ==> (r <==> SafetyCheckOutcome(true, this).Fail?)
    {
      locked
    }

    /** `get_token`: the token registered under `id`, or KeyError. */
    function GetToken(id: int): (r: Result<Token, ApiError>)
      reads this
      ensures r.Ok? <==> id in tokens
      ensures r.Ok? ==> tokens[id] == r.value
      ensures r.Err? ==> r.error == NoSuchTokenId
    {
      if id in tokens then Ok(tokens[id]) else Err(NoSuchTokenId)
    }

    /** A non-empty set of ids has a member to pick. */
    static lemma NonEmptyHasMember(s: set<int>)
      ensures s != {} ==> exists x :: x in s
    {
      if forall x :: x !in s {
        assert s == {};
      }
    }

    /** `get_last_id`: the largest registered id (`max(self._tokens)`), or
        ValueError for an empty table. */
    method GetLastId() returns (r: Result<int, ApiError>)
      ensures r.Ok? <==> tokens != map[]
      ensures r.Err? ==> r.error == EmptyWorld
      ensures r.Ok? ==> r.value in tokens && forall k :: k in tokens ==> k <= r.value
    {
      var keys := tokens.Keys;
      if keys == {} {
        return Err(EmptyWorld);
      }
      NonEmptyHasMember(keys);
      var m: int :| m in keys;
      var rest := keys - {m};
      while rest != {}
        invariant rest <= keys && m in keys
        invariant forall k :: k in keys && k !in rest ==> k <= m
        decreases |rest|
      {
        NonEmptyHasMember(rest);
        var x: int :| x in rest;
        if x > m {
          m := x;
        }
        rest := rest - {x};
      }
      r := Ok(m);
    }

    /** The world's own token is bound to this world, or (once removed) to
        none: what the safety wrapper of a world method reads as
        `self.world`.  `__init__` makes it this world. */
    ghost predicate OwnsItself()
      reads this, asToken
    {
      asToken.world == this || asToken.world == null
    }

    /** `set_actors`, public and not read-only, so `add_safety_check` wraps
        it: the call raises ApiUsageError when the world the token reads
        (the world itself) is truthy and locked, and otherwise stores the
        actors. */
    method SetActors(actors: seq<ActorClass>) returns (r: Outcome<ApiError>)
      modifies this
      ensures r == SafetyCheckOutcome(IsSafetyChecked("set_actors", true, false), asToken.world)
      ensures asToken.world == this ==> (r.Fail? <==> tokens != map[] && locked)
      ensures OwnsItself() && !locked ==> r.Pass?
      ensures this.actors == if r.Pass? then actors else old(this.actors)
      ensures tokens == old(tokens) && locked == old(locked)
    {
      r := SafetyCheckOutcome(IsSafetyChecked("set_actors", true, false), asToken.world);
      if r.Pass? {
        this.actors := actors;
      }
    }

    /** `set_actors` inside `with world._unlock_temporarily()`, the way the
        game stage connects everyone: the safety check passes, the actors
        are stored, and the lock is as it was. */
    method SetActorsUnlocked(actors: seq<ActorClass>) returns (r: Outcome<ApiError>)
      requires OwnsItself()
      modifies this
      ensures r == Pass && this.actors == actors
      ensures tokens == old(tokens) && locked == old(locked)
    {
      var relock := EnterUnlocked();
      r := SetActors(actors);
      ExitUnlocked(relock);
    }

    /** `set_actors` outside the unlock block: a new world holds itself and
        is locked, so the wrapper refuses the call and the actors stay. */
    static method SetActorsOnNewWorld(actors: seq<ActorClass>) returns (r: Outcome<ApiError>, stored: seq<ActorClass>)
      ensures r == Fail(UnsafeInvocation) && stored == []
    {
      var w := new World();
      r := w.SetActors(actors);
      stored := w.actors;
    }

    /** `__getstate__` / `__setstate__`: a world is never pickled. */
    method GetState() returns (r: Outcome<ApiError>)
      ensures r == Fail(CantPickleWorld)
    {
      r := Fail(CantPickleWorld);
    }

    /** Entering `with world._unlock_temporarily()`: the world is unlocked
        inside the block; the result says whether leaving relocks it (only
        the outermost unlock of a locked world does). */
    method EnterUnlocked() returns (relock: bool)
      modifies this
      ensures !locked && relock == old(locked)
      ensures tokens == old(tokens) && actors == old(actors)
    {
      relock := locked;
      locked := false;
    }

    /** Leaving the block, normally or through an exception (the `finally`). */
    method ExitUnlocked(relock: bool)
      modifies this
      ensures locked == (relock || old(locked))
      ensures tokens == old(tokens) && actors == old(actors)
    {
      if relock {
        locked := true;
      }
    }

    /** `_add_token`: after the registration checks the token is entered
        under its id, takes this world, clears its removed flag, enables
        forum observation and gets its extensions. */
    method AddToken(token: Token) returns (r: Outcome<ApiError>)
      requires Valid()
      modifies this, token, token.observer
      ensures Valid()
      ensures r == AddCheck(old(token.Registration()), old(token.id))
      ensures r.Fail? ==> tokens == old(tokens) && token.world == old(token.world) &&
                          token.removedFromWorld == old(token.removedFromWorld) &&
                          token.extensions == old(token.extensions) &&
                          token.observer.isEnabled == old(token.observer.isEnabled)
      ensures r.Pass? ==> tokens == old(tokens)[old(token.id).value := token]
      ensures r.Pass? ==> token.world == this && !token.removedFromWorld && token.observer.isEnabled
      ensures r.Pass? ==> token.extensions == ExtensionsByClass(actors, token.extend)
      ensures token.id == old(token.id) && token.watched == old(token.watched)
      ensures locked == old(locked) && actors == old(actors)
      ensures forall t :: t in old(tokens.Values) && t != token ==> t.id == old(t.id) && t.world == old(t.world)
    {
      r := AddCheck(token.Registration(), token.id);
      if r.Fail? {
        return;
      }
      var id := token.id.value;
      tokens := tokens[id := token];
      token.world := this;
      token.removedFromWorld := false;
      token.observer.SetObservation(true);
      var ext: map<ExtensionKey, Extension> := map[];
      var i := 0;
      while i < |actors|
        invariant 0 <= i <= |actors|
        invariant ext == ExtensionsByClass(actors[..i], token.extend)
      {
        assert actors[..i + 1][..i] == actors[..i];
        var c := actors[i];
        if c in token.extend {
          ext := ext[ByClass(c) := Extension(token.extend[c].cls, i)];
        }
        i := i + 1;
      }
      assert actors[..|actors|] == actors;
      token.extensions := ext;
    }

    /** The checks of `require_active_token`, in order: an id, then the
        assertion of `has_world` (a token whose world reference is truthy
        must be in that world; a world is falsy when its table is empty),
        then a world reference. */
    static function ActiveCheck(token: Token): Outcome<ApiError>
      reads token, (if token.world != null then {token.world} else {})`tokens
    {
      if token.id.None? then Fail(TokenDoesntHaveId)
      else if token.world != null && token.world.tokens != map[] && token.id.value !in token.world.tokens
      then Fail(StaleWorldReference)
      else if token.world == null then Fail(TokenNotInWorld)
      else Pass
    }

    /** `_remove_token`: after `require_active_token` the token loses its
        extensions, observation, world and, once its entry is deleted, its id.
        Deleting an id this world does not hold raises KeyError after the
        token has already been cleared. */
    method RemoveToken(token: Token) returns (r: Outcome<ApiError>)
      requires Valid()
      modifies this, token, token.observer
      ensures Valid()
      ensures old(ActiveCheck(token)).Fail? ==>
                r == old(ActiveCheck(token)) && tokens == old(tokens) && token.id == old(token.id) &&
                token.world == old(token.world) && token.removedFromWorld == old(token.removedFromWorld) &&
                token.extensions == old(token.extensions) && token.observer.isEnabled == old(token.observer.isEnabled)
      ensures old(ActiveCheck(token)).Pass? ==>
                token.world == null && token.removedFromWorld && token.extensions == map[] &&
                !token.observer.isEnabled
      ensures old(ActiveCheck(token)).Pass? && old(token.id.value) !in old(tokens) ==>
                r == Fail(NoSuchTokenId) && tokens == old(tokens) && token.id == old(token.id)
      ensures r.Pass? <==> old(ActiveCheck(token)).Pass? && old(token.id.value) in old(tokens)
      ensures r.Pass? ==> tokens == old(tokens) - {old(token.id.value)} && token.id == None
      ensures locked == old(locked) && actors == old(actors) && token.watched == old(token.watched)
      ensures forall t :: t in old(tokens.Values) && t != token ==> t.id == old(t.id) && t.world == old(t.world)
    {
      r := ActiveCheck(token);
      if r.Fail? {
        return;
      }
      token.observer.SetObservation(false);
      token.extensions := map[];
      token.removedFromWorld := true;
      token.world := null;
      var id := token.id.value;
      if id !in tokens {
        return Fail(NoSuchTokenId);
      }
      tokens := tokens - {id};
      token.id := None;
    }
  }

  /** The safety check of a wrapped method: the call raises iff the token
      has a truthy world that is locked; unwrapped members never raise. */
  function SafetyCheckOutcome(wrapped: bool, world: World?): (r: Outcome<ApiError>)
    reads world
    ensures r.Fail? <==> wrapped && world != null && world.tokens != map[] && world.locked
    ensures r.Fail? ==> r.error == UnsafeInvocation
  {
    if wrapped && world != null && world.tokens != map[] && world.locked then Fail(UnsafeInvocation) else Pass
  }
}
