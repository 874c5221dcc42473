/** Tokens and the world of the older engine (kxg/engine/token_and_world.py).
    A token moves through three statuses -- before setup, registered, after
    teardown -- and the `check_for_safety` wrapper decides from that status,
    the method's decorator flags and the class-wide `Token._locked` flag
    whether a token method may run.  The world is itself a token (id 0)
    holding an id -> token table. */
module LegacyTokens {
  import opened Wrappers
  import IdFactories
  import TokenWorld

  datatype Status = BeforeSetup | Registered | AfterTeardown

  /** The flags set by `@read_only`, `@before_setup` and `@after_teardown`. */
  datatype Tags = Tags(readOnly: bool, beforeSetup: bool, afterTeardown: bool)

  /** A member of a token class body, as `TokenMetaclass.__new__` sees it. */
  datatype Member = Member(name: string, isFunction: bool, tags: Tags)

  /** A member once the metaclass is done with it: its flags, and whether
      it is wrapped by `check_for_safety`. */
  datatype Prepared = Prepared(tags: Tags, checked: bool)

  /** The errors `check_for_safety` raises. */
  datatype AccessError = TokenSetupError | NullTokenIdError | TokenAccessError | TokenTeardownError

  /** `before_setup_special_cases` and `read_only_special_cases`. */
  const BeforeSetupNames: set<string> := {"__init__", "__extend__"}
  const ReadOnlyNames: set<string> := {"__str__", "__repr__"}

  /** `TokenMetaclass.__new__` for one member: `__init__` and `__extend__`
      are flagged before-setup, and every function that is neither flagged
      read-only nor `__str__`/`__repr__` is wrapped. */
  function Prepare(m: Member): Prepared
  {
    var beforeSetup := m.isFunction && m.name in BeforeSetupNames;
    var readOnly := m.tags.readOnly || m.name in ReadOnlyNames;
    Prepared(m.tags.(beforeSetup := m.tags.beforeSetup || beforeSetup), m.isFunction && !readOnly)
  }

  /** The decision of the `check_for_safety` wrapper: before setup only
      before-setup methods run; a registered token needs an id and
      unrestricted access; after teardown only after-teardown methods
      run. */
  function Access(status: Status, tags: Tags, hasId: bool, locked: bool): Outcome<AccessError>
  {
    match status
    case BeforeSetup => if tags.beforeSetup then Pass else Fail(TokenSetupError)
    case Registered =>
      if !hasId then Fail(NullTokenIdError)
      else if locked then Fail(TokenAccessError)
      else Pass
    case AfterTeardown => if tags.afterTeardown then Pass else Fail(TokenTeardownError)
  }

  /** Invoking a prepared member: an unwrapped one always runs. */
  function Invoke(p: Prepared, status: Status, hasId: bool, locked: bool): Outcome<AccessError>
  {
    if p.checked then Access(status, p.tags, hasId, locked) else Pass
  }

  /** Read-only members, `__str__`, `__repr__` and anything that is not a
      function run whatever the token's status and the lock. */
  lemma ReadOnlyAlwaysRuns(m: Member, status: Status, hasId: bool, locked: bool)
    requires m.tags.readOnly || m.name in ReadOnlyNames || !m.isFunction
    ensures Invoke(Prepare(m), status, hasId, locked) == Pass
  {
  }

  /** A wrapped method runs on a registered token exactly when the token
      has an id and access is unrestricted; the lock matters for nothing
      else. */
  lemma LockMattersOnlyWhenRegistered(m: Member, status: Status, hasId: bool, locked: bool)
    requires m.isFunction && !m.tags.readOnly && m.name !in ReadOnlyNames
    ensures status == Registered ==> (Invoke(Prepare(m), status, hasId, locked).Pass? <==> hasId && !locked)
    ensures status != Registered ==> Invoke(Prepare(m), status, hasId, locked) == Invoke(Prepare(m), status, hasId, !locked)
  {
  }

  /** Before setup a wrapped method runs iff it is flagged before-setup or
      is the constructor or `__extend__`; after teardown iff it is flagged
      after-teardown. */
  lemma SetupAndTeardownRows(m: Member, hasId: bool, locked: bool)
    requires m.isFunction && !m.tags.readOnly && m.name !in ReadOnlyNames
    ensures Invoke(Prepare(m), BeforeSetup, hasId, locked).Pass? <==> m.tags.beforeSetup || m.name in BeforeSetupNames
    ensures Invoke(Prepare(m), AfterTeardown, hasId, locked).Pass? <==> m.tags.afterTeardown
  {
  }

  /** `Token._locked`, shared by every token. */
  class AccessLock {
    var locked: bool

    constructor ()
      ensures locked
    {
      locked := true;
    }

    /** Entering `with unrestricted_token_access()`. */
    method Enter()
      modifies this
      ensures !locked
    {
      locked := false;
    }

    /** Leaving the block, normally or through an exception (the
        `finally`): the lock is set whatever it was on entry, so an inner
        block ends the unrestricted access of an enclosing one. */
    method Exit()
      modifies this
      ensures locked
    {
      locked := true;
    }
  }

  /** Nesting one unrestricted block inside another: once the inner block
      is left, the rest of the outer block runs with access restricted
      again. */
  method NestedUnrestricted() returns (lockedInOuterBlock: bool, lockedAfter: bool)
    ensures lockedInOuterBlock && lockedAfter
  {
    var lock := new AccessLock();
    lock.Enter();
    lock.Enter();
    lock.Exit();
    lockedInOuterBlock := lock.locked;
    lock.Exit();
    lockedAfter := lock.locked;
  }

  datatype TokenError = AlreadyHasId | AlreadyRegistered

  /** `Token`: its id (`None` stands for the `_id` attribute that only
      `give_id` creates; nothing sets it back) and status. */
  class Token {
    var id: Option<int>
    var status: Status

    constructor ()
      ensures id.None? && status == BeforeSetup
    {
      id := None;
      status := BeforeSetup;
    }

    /** `give_id`: a token without an id, before setup, takes the next id
        of the factory. */
    method GiveId(factory: IdFactories.IdFactory) returns (r: Outcome<TokenError>)
      modifies this, factory
      ensures r.Fail? <==> old(id).Some? || old(status) != BeforeSetup
      ensures r.Fail? ==> r.error == (if old(id).Some? then AlreadyHasId else AlreadyRegistered)
      ensures r.Fail? ==> id == old(id) && factory.numIdsAssigned == old(factory.numIdsAssigned)
      ensures r.Pass? ==> id == Some(IdFactories.NthId(factory.offset, factory.spacing, old(factory.numIdsAssigned)))
      ensures r.Pass? ==> factory.numIdsAssigned == old(factory.numIdsAssigned) + 1
      ensures status == old(status)
    {
      if id.Some? {
        return Fail(AlreadyHasId);
      }
      if status != BeforeSetup {
        return Fail(AlreadyRegistered);
      }
      var next := factory.Next();
      id := Some(next);
      r := Pass;
    }
  }

  /** An entry of the world's table: the world itself under id 0, or a
      token. */
  datatype Entry = WorldItself | Held(token: Token)

  /** The assertion failures and lookup errors of the world's methods. */
  datatype WorldError =
    | IdReused          // "Can't reuse %d as an id number."
    | NotRegistered     // "Can't remove an unregistered token."
    | UnknownId         // KeyError from `del self._tokens[id]`
    | NoIdAttribute     // `get_id()` on a token never given an id
    | EmptyTable        // `max(0)`: TypeError, a lone int is not iterable

  /** `World`. */
  class World {
    var status: Status
    var tokens: map<int, Entry>
    /** The ids of the actors playing on this machine. */
    var actors: seq<int>

    /** `__init__`: the world takes id 0 and its table holds only
        itself. */
    constructor ()
      ensures tokens == map[0 := WorldItself] && status == BeforeSetup && actors == []
    {
      status := BeforeSetup;
      tokens := map[0 := WorldItself];
      actors := [];
    }

    /** `set_actors`: the world learns its actors and is registered. */
    method SetActors(actors: seq<int>)
      modifies this
      ensures this.actors == actors && status == Registered && tokens == old(tokens)
    {
      this.actors := actors;
      status := Registered;
    }

    /** `__contains__`: membership is by id. */
    function Contains(t: Token): (r: Result<bool, WorldError>)
      reads this, t
      ensures r.Err? <==> t.id.None?
      ensures r.Err? ==> r.error == NoIdAttribute
      ensures r.Ok? ==> (r.value <==> t.id.value in tokens)
    {
      if t.id.None? then Err(NoIdAttribute) else Ok(t.id.value in tokens)
    }

    /** `get_last_id`: `max(0, *ids)`, the largest id and at least 0;
        with an empty table `max` gets a single int and raises. */
    method GetLastId() returns (r: Result<int, WorldError>)
      ensures r.Err? <==> tokens == map[]
      ensures r.Err? ==> r.error == EmptyTable
      ensures r.Ok? ==> r.value >= 0 && (r.value == 0 || r.value in tokens)
      ensures r.Ok? ==> forall k :: k in tokens ==> k <= r.value
    {
      if tokens == map[] {
        return Err(EmptyTable);
      }
      var m := 0;
      var rest := tokens.Keys;
      while rest != {}
        invariant rest <= tokens.Keys && m >= 0 && (m == 0 || m in tokens)
        invariant forall k :: k in tokens && k !in rest ==> k <= m
        decreases |rest|
      {
        TokenWorld.World.NonEmptyHasMember(rest);
        var x: int :| x in rest;
        if x > m {
          m := x;
        }
        rest := rest - {x};
      }
      r := Ok(m);
    }

    /** `_add_token`: `get_id()` raises for a token never given an id,
        before the null-id assertion can be reached; a token with an unused
        id is entered under it and becomes registered; no other entry
        changes. */
    method AddToken(t: Token) returns (r: Outcome<WorldError>)
      modifies this, t
      ensures r.Fail? <==> old(t.id).None? || old(t.id).value in old(tokens)
      ensures r.Fail? ==> r.error == (if old(t.id).None? then NoIdAttribute else IdReused)
      ensures r.Fail? ==> tokens == old(tokens) && t.status == old(t.status)
      ensures r.Pass? ==> tokens == old(tokens)[old(t.id).value := Held(t)] && t.status == Registered
      ensures t.id == old(t.id) && status == old(status) && actors == old(actors)
    {
      if t.id.None? {
        return Fail(NoIdAttribute);
      }
      if t.id.value in tokens {
        return Fail(IdReused);
      }
      tokens := tokens[t.id.value := Held(t)];
      t.status := Registered;
      r := Pass;
    }

    /** `_remove_token`: as in `_add_token`, a token never given an id
        makes `get_id()` raise; a registered token is deleted from the table and
        torn down; no other entry changes. */
    method RemoveToken(t: Token) returns (r: Outcome<WorldError>)
      modifies this, t
      ensures r.Fail? <==> old(t.id).None? || old(t.status) != Registered || old(t.id).value !in old(tokens)
      ensures r.Fail? ==> r.error == (if old(t.id).None? then NoIdAttribute
                                      else if old(t.status) != Registered then NotRegistered
                                      else UnknownId)
      ensures r.Fail? ==> tokens == old(tokens) && t.status == old(t.status)
      ensures r.Pass? ==> tokens == old(tokens) - {old(t.id).value} && t.status == AfterTeardown
      ensures t.id == old(t.id) && status == old(status) && actors == old(actors)
    {
      if t.id.None? {
        return Fail(NoIdAttribute);
      }
      if t.status != Registered {
        return Fail(NotRegistered);
      }
      if t.id.value !in tokens {
        return Fail(UnknownId);
      }
      tokens := tokens - {t.id.value};
      t.status := AfterTeardown;
      r := Pass;
    }
  }
}
