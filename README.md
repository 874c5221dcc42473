# kxg game engine: a Dafny model of its core

kxg is a Python engine for turn-free, message-driven multiplayer games.
All of a game's state lives in a **world** of **tokens**. Actors change
the state only through **messages**. A message is checked, relayed to
every actor and executed on every copy of the world by a **forum**. In a
networked game a server relays the messages, and a client whose message
the server rejects undoes it (a *hard sync error*) or merely learns of
the disagreement (a *soft sync error*). Each actor hands out token ids
from its own **id factory**, so ids never clash. Around this core sit:

- a **theater** that runs the game through stages;
- a length-prefixed TCP **network** layer;
- a **keychain** that maps key sequences to callbacks;
- a **grid graph** with a priority queue and breadth-first path search;
- 2-D **vector and rectangle** geometry;
- a one-shot **timer**;
- the "guess my number" demo game.

The model has one Dafny module per source component. Each module is
imperative wherever the source updates objects in place: classes with
`modifies` frames and loops with invariants. Pure computations are
functions and lemmas.

| module | file | models |
|---|---|---|
| Wrappers | wrappers.dfy | Option, Result and Outcome for the error paths |
| IdFactories | kxg_ids.dfy | id factories and how the forum assigns them (kxg/forums.py) |
| Observers | kxg_observer.dfy | the callback lists of `ForumObserver` (kxg/forums.py, kxg/engine/forum_observer.py) |
| TokenWorld | kxg_world.dfy | tokens, their registration, and the world's id table (kxg/tokens.py, kxg/world.py) |
| Tables | kxg_tables.dfy | the world's id table as a value, and the undo algebra over it |
| Messages | kxg_messages.dfy | messages: checking, executing, sync errors, undo (kxg/messages.py) |
| Forums | kxg_forums.dfy | forum dispatch, actors, referee reporting, remote forum and actors (kxg/forums.py, kxg/actors.py) |
| Multiplayer | kxg_multiplayer.dfy | the client forum and the server actor (kxg/multiplayer.py) |
| Theaters | kxg_theater.dfy | the theater and its stages (kxg/theater.py) |
| LegacyIds, LegacyTokens, LegacyMessages, LegacyForums | engine_*.dfy | the older engine under kxg/engine/ |
| ModulesEngine | modules_engine.dfy | the oldest engine (modules/engine.py) |
| Network | network.dfy | framing, hosts and clients (modules/network.py) |
| KeyChains | keychain.dfy | the keychain trie and lenses (modules/keychain.py, modules/gui.py) |
| GuiTables | gui_tables.dfy | the code/name lookup tables of modules/gui.py |
| MapQueue, MapGraph, MapSearch | map_*.dfy | kxg/misc/map.py |
| Geometry | geometry.dfy | modules/geometry.py |
| Timers | timer.dfy | kxg/tools.py and modules/tools.py |
| Guess | guess.dfy | demos/guess_my_number.py |

Inputs the source takes from the outside world are parameters of the
model:

- socket reads and writes, the clock and random draws;
- whether a user-written hook accepts or handles a message.

User callbacks are recorded in an event log or a list of calls instead
of being called.

## Model

| member | source | states |
|---|---|---|
| IdFactories.IdFactory.constructor | kxg/forums.py:373-376 | a new factory keeps its offset and spacing and has handed out no id |
| IdFactories.IdFactory.Get | kxg/forums.py:384-385 | `get` returns the factory's offset, the actor's own id |
| IdFactories.IdFactory.Next | kxg/forums.py:387-391 | the k-th call returns `offset + k * spacing` and advances the counter by one |
| IdFactories.NthIdIsMember | kxg/forums.py:381-391 | every id a factory hands out is a member of that factory (`id % spacing == offset % spacing`) |
| IdFactories.NthIdIncreasing | kxg/forums.py:387-391 | the ids one factory hands out strictly increase, so they never repeat |
| IdFactories.SortedPositionFacts | kxg/forums.py:215 | the stable sort by `not is_referee()` gives each actor a distinct position below n, referees first, each group in its original order |
| IdFactories.AssignIdFactories | kxg/forums.py:213-222 | each actor's offset is `last_id + 1` plus its position in the sorted actor list |
| IdFactories.AssignmentFacts | kxg/forums.py:213-222 | the offsets are `last_id + 1 .. last_id + n`, pairwise distinct, referees before players, each group in list order |
| IdFactories.AssignedFactoriesDisjoint | kxg/forums.py:213-222 | two actors' factories never hand out the same id and no id is a member of both |
| IdFactories.RefereeGetsIdOne | kxg/actors.py:178-180 | on a fresh world the referee gets id 1, which the referee's `_set_forum` asserts |
| Observers.ForumObserver.constructor | kxg/forums.py:10-46 | observation starts enabled and each event's list holds one entry per decoration naming that event, in name order (`inspect.getmembers` sorts the methods by name); at kxg/engine/forum_observer.py lines 7-39: the legacy observer starts the same way: three empty lists, observation allowed, then every decorated method registered |
| Observers.ForumObserver.AddCallback | kxg/forums.py:58-66 | subscribing appends one (class, callback) entry to that event's list and leaves the other lists alone; with observation disabled it fails and changes nothing; at kxg/forums.py lines 94-97: `_add_callback` checks the enabled flag before appending; at kxg/engine/forum_observer.py lines 41-48: the legacy `handle_*` methods subscribe the same way; at kxg/engine/forum_observer.py lines 68-71: the legacy `_add_callback` asserts that observation is allowed, then appends |
| Observers.ForumObserver.DropCallbackAsWritten | kxg/forums.py:99-110 | `_drop_callback` as written reads the missing attribute `self.callbacks`, so every enabled unsubscribe fails and a disabled one fails the observation check; at kxg/engine/forum_observer.py lines 73-84: the legacy `_drop_callback` reads the same missing attribute |
| Observers.ForumObserver.DropCallback | kxg/forums.py:67-75 | unsubscribing refills that event's list with the entries that do not match (same class and the callback, or any callback when none is given), keeps the other lists, and fails when observation is disabled; at kxg/engine/forum_observer.py lines 50-57: the legacy `ignore_*` methods, corrected, drop the matching entries the same way |
| Observers.ForumObserver.CallCallbacks | kxg/forums.py:112-121 | reacting calls, in list order, exactly the callbacks whose class the message is an instance of; disabled observation fails; at kxg/engine/forum_observer.py lines 59-66: the legacy `react_to_*` methods call the matching callbacks, in order; at kxg/engine/forum_observer.py lines 86-93: the legacy `_call_callbacks` asserts that observation is allowed and filters with `isinstance` |
| Observers.ForumObserver.SetObservation | kxg/forums.py:85-90 | enabling or disabling observation sets the flag and leaves every callback list unchanged; at kxg/engine/forum_observer.py lines 103-104: `_disable_forum_observation` clears the flag and keeps the lists |
| Observers.MatchingMembers | kxg/forums.py:117-119 | a callback is called for a message if and only if some entry pairs it with a class the message is an instance of |
| Observers.WithoutMatchesSpec | kxg/forums.py:99-110 | an entry survives unsubscribing if and only if it was registered and does not match the class and callback |
| Observers.UnsubscribeLeavesUnrelated | kxg/forums.py:67-75 | unsubscribing from a class does not change which callbacks a message of other classes reaches, nor their order |
| Observers.UnsubscribeStopsHandlers | kxg/forums.py:67-75 | after unsubscribing every callback of a class, a message of that class reaches none of them |
| Observers.OnlyMatchesKeepsTheWrongEntries | kxg/forums.py:106-110 | the comprehension as written keeps exactly the matching entries, so unsubscribing A from [(A, f), (B, g)] leaves [(A, f)] where [(B, g)] is meant; at kxg/engine/forum_observer.py lines 80-84: the legacy comprehension keeps the matching entries too |
| TokenWorld.AddCheck | kxg/world.py:132-138 | the registration checks as evidently intended: adding passes if and only if the token is pending and has an id; otherwise the error names the first failed check (no id, already in the world, removed) |
| TokenWorld.ImportFromTokens | kxg/world.py:6 | `from .tokens import ...` succeeds exactly when kxg/tokens.py defines every name asked for, and raises ImportError otherwise |
| TokenWorld.AddTokenAsWrittenRefusesAll | kxg/world.py:129-137 | as written, kxg/world.py cannot be imported, since `before_world` is missing from kxg/tokens.py; with the import repaired, `_add_token` still refuses every token: AttributeError without a `world_registration` attribute, and with one, TypeError on every token `AddCheck` would admit |
| TokenWorld.Token.constructor | kxg/tokens.py:203-208 | a new token has no id, no world and no extensions, is pending, and has forum observation disabled |
| TokenWorld.Token.ResetRegistration | tests/20_test_tokens.py:113-151 | only a removed token can be reset, after which it is pending again; resetting a pending or active token fails and changes nothing |
| TokenWorld.Token.GiveId | kxg/tokens.py:308-325 | a token without an id gets the factory's next id and the factory advances by one; a token that has an id keeps it, the factory does not move, and the call fails |
| TokenWorld.Token.WatchMethod | kxg/tokens.py:260-293 | watching an unknown name fails; otherwise the method is wrapped once and the callback is appended to its watchers, existing watchers kept |
| TokenWorld.Token.Invoke | kxg/tokens.py:194-197 | calling a token method runs the method first, then (when it is watched) each watcher in registration order |
| TokenWorld.Token.CreateExtensions | kxg/tokens.py:360-395 | `_create_extensions` succeeds if and only if every extension constructor for an actor present takes three arguments, and then holds one extension per such actor |
| TokenWorld.Token.AddToWorld | kxg/tokens.py:354-358 | `_add_to_world` sets the world, enables observation and creates the extensions, failing exactly as `_create_extensions` does |
| TokenWorld.Token.RemoveFromWorld | kxg/tokens.py:397-412 | `_remove_from_world` clears the extensions, the world and the id and disables observation |
| TokenWorld.WatchedMethod.constructor | kxg/tokens.py:190-192 | a new wrapper holds the method and no watchers |
| TokenWorld.WatchedMethod.AddWatcher | kxg/tokens.py:199-200 | `add_watcher` appends the watcher |
| TokenWorld.WatchedMethod.Call | kxg/tokens.py:194-197 | `__call__` makes 1 + n calls: the method, then watcher i at position i + 1 |
| TokenWorld.World.constructor | kxg/world.py:11-18 | a new world has id 0, is locked again after the construction, has no actors, and its table holds exactly itself under id 0 |
| TokenWorld.World.GetToken | kxg/world.py:42-48 | `get_token` returns the token registered under the id, and fails exactly when no token has that id |
| TokenWorld.World.GetLastId | kxg/world.py:50-56 | `get_last_id` is the largest registered id, and fails only for an empty table |
| TokenWorld.World.Contains | kxg/world.py:31-33 | `token in world` looks the token up by id: it holds exactly when the token has an id and `get_token` finds it |
| TokenWorld.World.IsLocked | kxg/world.py:65-70 | `is_locked` is the test the safety wrapper makes: on a world holding tokens, it is true exactly when a wrapped method of a token in this world is refused |
| TokenWorld.World.SetActors | kxg/world.py:58-64 | `set_actors` is a public, not read-only method, so the safety wrapper of kxg/tokens.py:132-164 guards it: on a world that is its own `world`, the call raises ApiUsageError exactly when the world holds tokens and is locked, and otherwise replaces the actor list; a refused call leaves the actors as they were, and the tokens and the lock never change |
| TokenWorld.World.SetActorsUnlocked | kxg/world.py:58-64 | inside `_unlock_temporarily` (kxg/world.py:100-127) `set_actors` always succeeds and stores the actors, and the lock is restored afterwards |
| TokenWorld.World.SetActorsOnNewWorld | kxg/world.py:58-64 | on a freshly built world, which is locked and registers itself with the id 0, `set_actors` raises ApiUsageError and keeps no actors |
| TokenWorld.World.GetState | kxg/world.py:35-39 | pickling a world always fails |
| TokenWorld.World.EnterUnlocked | kxg/world.py:101-128 | entering `_unlock_temporarily` unlocks the world and remembers whether it was locked |
| TokenWorld.World.ExitUnlocked | kxg/world.py:101-128 | leaving the block relocks the world exactly when entering unlocked it, so nested blocks restore the outer state |
| TokenWorld.World.AddToken | kxg/world.py:130-169 | `_add_token` passes exactly when `AddCheck` does; then the token is registered under its id, linked to this world, active and observing, with one extension per extended actor class (a later actor of a class replacing an earlier one), and no other token changes |
| TokenWorld.World.RemoveToken | kxg/world.py:171-186 | `_remove_token` fails without change unless the token has an id and a world that holds it; otherwise the token is cleared (no world, no extensions, observation off, removed), and its entry and id are deleted when this world holds the id |
| TokenWorld.SafetyCheckOutcome | kxg/tokens.py:132-167 | a safety-checked call raises if and only if the method is wrapped and the token's world exists, is non-empty (truthy) and is locked; World.SetActors returns it for `set_actors` and World.IsLocked agrees with it on a non-empty world |
| TokenWorld.IsSafetyChecked | kxg/tokens.py:112-129 | `add_safety_check` wraps a member exactly when it is a plain function, not marked read-only and not `_`-prefixed: a private name, a read-only method or a non-function is never wrapped, and every other public function is |
| Messages.CheckPasses | kxg/messages.py:138-159 | `_check` answers true if and only if every token to add has an id that is new to the world and a member of the checking factory, every token to remove is in the world, and `on_check` accepts |
| Messages.FactoryIdsPassCheck | kxg/messages.py:127-159 | ids handed out by the checking factory (`_assign_token_ids` before `_check`) always pass the factory test, so such a message passes when its ids are new and its removals present |
| Messages.GetState | kxg/messages.py:35-39 | `__getstate__` omits exactly the empty token lists and keeps every other attribute |
| Messages.SetState | kxg/messages.py:41-44 | `__setstate__` starts from empty lists, so an omitted list comes back empty |
| Messages.PickleRoundTrip | kxg/messages.py:35-44 | unpickling a pickled message gives back every attribute, the omitted empty lists included |
| Messages.RefereeMessagesMisattributed | kxg/messages.py:52-53 | on a fresh world the referee's sender id is 1, which `was_sent_by_referee` as written (id 0) does not recognise and the corrected test does |
| Messages.SentByRefereeIdentifiesReferee | kxg/messages.py:52-53 | with the corrected test (sender id 1), on a fresh world a message is attributed to the referee exactly when the first referee stamped it; with the test as written (id 0), no actor's message ever is |
| Messages.Message.constructor | kxg/messages.py:30-33 | a new message has empty token lists, no sender id and no error state |
| Messages.Message.WasSent | kxg/messages.py:46-47 | `was_sent` tests whether a sender id was stamped; `was_sent_by` and `was_sent_by_referee` fail exactly when it is false (their rows) |
| Messages.Message.WasSentBy | kxg/messages.py:49-50 | `was_sent_by` compares the sender id with the factory's own id, and fails on a message that was never sent |
| Messages.Message.WasSentByReferee | kxg/messages.py:52-53 | `was_sent_by_referee` as written tests sender id 0, and fails on a message that was never sent |
| Messages.Message.HasSoftSyncError | kxg/messages.py:55-59 | a message never has both a soft and a hard sync error |
| Messages.Message.HasHardSyncError | kxg/messages.py:58-59 | `has_hard_sync_error` is never true of a message whose error state is the soft one |
| Messages.Message.AddToken | kxg/messages.py:61-64 | `add_token` appends the token, and fails without change on a message already sent |
| Messages.Message.AddTokens | kxg/messages.py:66-68 | `add_tokens` appends the tokens in order, and fails without change on a message already sent |
| Messages.Message.RemoveToken | kxg/messages.py:70-73 | `remove_token` appends the token to the removals, and fails without change on a message already sent |
| Messages.Message.RemoveTokens | kxg/messages.py:75-77 | `remove_tokens` appends the tokens to the removals in order, and fails without change on a message already sent |
| Messages.Message.SetSenderId | kxg/messages.py:118-119 | `_set_sender_id` stamps the factory's id, after which the message counts as sent |
| Messages.Message.SetErrorState | kxg/messages.py:121-125 | `_set_error_state` records a soft error exactly when `on_check_for_soft_sync_error` accepts, and a hard error otherwise |
| Messages.Message.AssignTokenIds | kxg/messages.py:127-136 | `_assign_token_ids` succeeds if and only if no token to add has an id and none is listed twice; token i then gets the factory's next id plus i and the factory advances by the list's length; a failure names the token that already had an id |
| Messages.Message.Check | kxg/messages.py:138-159 | the two loops of `_check` return what `CheckResult` says, including the exceptions a missing id or a zero spacing raise |
| Messages.Message.ExecuteRemovals | kxg/messages.py:167-168 | removing tokens that are the world's entries deletes exactly their ids, leaves each token cleared and removed, and returns the ids it read |
| Messages.Message.ExecuteAdditions | kxg/messages.py:164-165 | adding pending tokens with new, distinct ids inserts each under its id and changes no other entry |
| Messages.Message.Execute | kxg/messages.py:161-172 | `_execute` on an executable message inserts the tokens to add and then deletes the tokens to remove, and never overwrites an entry with a token from outside the message |
| Messages.Message.UndoAdditions | kxg/messages.py:182-188 | the first undo loop looks up each added id and removes that token, deleting exactly the added ids |
| Messages.Message.RestoreRemovals | kxg/messages.py:190-197 | the second undo loop resets each removed token and adds it back under the id it had |
| Messages.Message.HandleHardSyncError | kxg/messages.py:177-200 | the corrected `_handle_hard_sync_error` deletes the added ids, restores the removed tokens under their recorded ids, and then raises unless `on_hard_sync_error` is overridden |
| Messages.Message.HandleHardSyncErrorAsWritten | kxg/messages.py:190-197 | as written, the undo re-reads the id `_remove_token` cleared, so restoring the first removed token fails with a missing id |
| Messages.Message.UndoIsPossible | kxg/messages.py:161-197 | after `_execute`, the added ids are in the table and the removed tokens are out of it under distinct ids, and undoing both gives back the original table |
| Messages.Message.ExecuteReversibly | kxg/messages.py:161-172 | executing an executable message leaves the world in a state the corrected undo can take back to the original table |
| Messages.Message.ExecuteThenUndo | kxg/messages.py:161-200 | executing a message and then undoing it (corrected) leaves the id -> token table exactly as it was |
| Messages.Message.ExecuteThenUndoAsWritten | kxg/messages.py:161-200 | executing a message that removes a token and then undoing it as written always fails with a token that has no id |
| Forums.ReactEvents | kxg/forums.py:164-168 | the actors react to a message in actor order and the message reaction never raises |
| Forums.RelayEventsSpec | kxg/forums.py:142-143 | relaying fails if and only if some actor cannot tell who sent the message; otherwise actor i relays exactly when `_dispatch_message` sends it down its pipe, and nothing else is logged; at kxg/actors.py lines 136-139: a remote actor sends a message down its pipe exactly when its own client did not send it |
| Forums.NeverRelayedToSender | kxg/actors.py:136-139 | a remote actor never sends a message back to the client that sent it; at kxg/multiplayer.py lines 284-291: the server actor relays a message to its client only when the client did not send it |
| Forums.Actor.constructor | kxg/actors.py:8-12 | a new actor has no world, no forum and no id factory |
| Forums.Actor.Id | kxg/actors.py:14-17 | `id` is the offset of the actor's factory, and fails for an actor without one |
| Forums.Actor.Own | kxg/actors.py:14-17 | the actor's id as an option agrees with `id` |
| Forums.Actor.Relays | kxg/actors.py:136-139 | `_dispatch_message` relays if and only if the actor is remote and the sender is another client, and raises when a remote actor meets an unsent message or has no factory; at kxg/actors.py lines 70-71: an ordinary actor's `_dispatch_message` does nothing |
| Forums.Actor.Reacts | kxg/actors.py:141-150 | ordinary actors run their callbacks; remote actors ignore messages and raise on sync-error reactions, their observation having been disabled at construction (kxg/actors.py:76-80) |
| Forums.Actor.SetWorld | kxg/actors.py:55-57 | `_set_world` sets the world once and fails, changing nothing, when the actor already has one |
| Forums.Actor.SetForum | kxg/actors.py:59-64 | `_set_forum` stores the factory once (before checking the forum) and the forum once, failing on the first repeat; at kxg/actors.py lines 132-134: a remote actor that is connected sends its factory down its pipe; at kxg/actors.py lines 178-180: a referee that is connected must have id 1, or the call fails; at kxg/multiplayer.py lines 280-282: the server actor sends its factory to its client once connected |
| Forums.Actor.Stamp | kxg/actors.py:27-28 | `send_message` stamps the actor's id on the message and then gives token i of the additions the factory's next id plus i; tokens that had an id keep it |
| Forums.Actor.StampAndCheck | kxg/actors.py:27-36 | after stamping, the check's answer is `CheckResult` on the actor's world and factory |
| Forums.Actor.SendMessage | kxg/actors.py:22-44 | a message that fails its check is answered false and reaches no one; one that passes is handed to the forum once (relayed, executed, reacted to, in that order) and answered true; on a remote or server actor, whose override (kxg/actors.py:82-83) raises, nothing is stamped and nothing reaches the forum |
| Forums.Actor.IsReferee | kxg/actors.py:19-20 | `is_referee` tests for the `Referee` class; that no `RemoteActor` passes it is stated by Forums.Actor.IsRemote |
| Forums.Actor.IsRemote | kxg/actors.py:74-79 | a `RemoteActor` (or the server's stand-in for a client) is never the referee |
| Forums.Reporter.AsWritten | kxg/actors.py:157-159 | `Reporter.__init__` as written stores None in place of the referee |
| Forums.Reporter.constructor | kxg/actors.py:157-159 | the corrected reporter keeps the referee it is made for and is not finished |
| Forums.Reporter.Exit | kxg/actors.py:164-165 | leaving the `with` block marks the reporter finished |
| Forums.Reporter.Sender | kxg/actors.py:167-171 | a report is sent as the stored referee, is refused once the block has exited, and fails when no referee is stored |
| Forums.Reporter.SendMessage | kxg/actors.py:167-171 | `Reporter.send_message` refuses when stale and otherwise is the referee's own `send_message`, whose execution appears in the forum's log |
| Forums.ReportAsWritten | kxg/actors.py:155-176 | with the reporter as written, a token's report inside the block already fails (no referee) and after it fails as stale |
| Forums.Report | kxg/actors.py:155-176 | with the corrected reporter, a report inside the block is sent as the referee and one after it fails as stale |
| Forums.Forum.constructor | kxg/forums.py:132-134 | a new forum has no world and no actors |
| Forums.Forum.DispatchMessage | kxg/forums.py:136-168 | `dispatch_message` relays to every actor, then executes the message and lets the world react with the world unlocked, then lets every actor react; the lock is restored; an executable message inserts its additions and deletes its removals |
| Forums.Forum.ExecuteUnlocked | kxg/forums.py:150-161 | inside `_unlock_temporarily` the message executes with the world unlocked, the world reacts only when execution did not raise, and the lock is restored in every case |
| Forums.Forum.RelayToActors | kxg/forums.py:142-143 | the first loop relays to the actors in order, stopping at the first that raises |
| Forums.Forum.NotifyActors | kxg/forums.py:167-168 | the last loop lets the actors react in order, stopping at the first that raises |
| Forums.Forum.DispatchSoftSyncError | kxg/forums.py:263-290 | a soft sync error is handled and reacted to by the world while it is unlocked, then by each actor; the lock and the table are as before |
| Forums.Forum.DispatchHardSyncError | kxg/forums.py:292-315 | a hard sync error undoes the message with the world unlocked (the table comes back as the undo says), the world reacts, then each actor; the lock is restored also when the undo raises |
| Forums.Forum.UndoUnlocked | kxg/forums.py:305-307 | the undo and the world's reaction run with the world unlocked, and the lock is restored |
| Forums.Forum.Attach | kxg/forums.py:170-182 | `connect_everyone` first keeps the world and the actors, then calls the safety-checked `set_actors`: it fails with the world's ApiUsageError exactly when the world's safety check refuses, leaving the world's actors alone, and otherwise gives the world the actors' classes; on an unlocked world that holds itself it always succeeds |
| Forums.Forum.AttachAsWritten | kxg/forums.py:170-180 | as written, `connect_everyone` keeps the world and the actors, then raises AttributeError at `self.world._set_actors`: `World` has only `set_actors` |
| Forums.Forum.ConnectActors | kxg/forums.py:196-198 | the connect loop succeeds if and only if no actor is listed twice, none was connected before and every referee gets offset 1; each actor then holds the world, this forum and its own factory, and each remote actor has sent its factory |
| Forums.Forum.ConnectOne | kxg/forums.py:197-198 | one actor gets `_set_world` then `_set_forum`, succeeding only for an unconnected actor (and offset 1 for a referee) |
| Forums.Forum.ConnectEveryone | kxg/forums.py:170-198 | after `connect_everyone`, every actor has a new factory spaced by the number of actors, with the offsets `_assign_id_factories` gives from the world's last id; an empty world makes `get_last_id` raise; the callers unlock the world first (kxg/theater.py:137-138), so the safety-checked `set_actors` step passes |
| Forums.Forum.ConnectFrom | kxg/forums.py:213-222 | the factories built from the world's last id form an assignment (consecutive offsets, referees first) |
| Forums.MakeFactories | kxg/forums.py:219-220 | one new factory per offset, all with the given spacing and no ids handed out |
| Forums.ConnectedIdsUnique | kxg/forums.py:213-222 | after connecting, ids handed out by two different actors never collide |
| Forums.ReactEventsFailAt | kxg/forums.py:167-168 | one actor that raises makes the whole reaction loop raise |
| Forums.CallsForSpec | kxg/forums.py:341-361 | for one message from the server, the plain dispatch happens exactly when another client sent it, the soft and hard dispatches exactly when flagged, in that order |
| Forums.ClientCallsFails | kxg/forums.py:341-361 | the client's update raises if and only if some message was never sent or the server's factory never came |
| Forums.ClientCallsStopsAtError | kxg/forums.py:341-361 | the update stops at the first message that raises |
| Forums.ClientCallsMembers | kxg/forums.py:341-361 | messages from other clients are executed, this client's own are not, and every sync-error flag is handled |
| Forums.ClientCallsOrdered | kxg/forums.py:341-361 | the calls follow the order the messages arrived in, plain before soft before hard for one message |
| Forums.ServerVerdict | kxg/actors.py:103-123 | the server hands a message on exactly when it passed its check or its error is recoverable and this actor's client sent it; `was_sent_by` raises for an unsent message or a missing factory |
| Forums.ServerAdmitsSpec | kxg/actors.py:90-127 | the server's update raises if and only if some message it would consider was unsent or it has no factory; otherwise it executes exactly its client's messages without a hard sync error, in arrival order |
| Forums.ServerAdmitsStopsAtError | kxg/actors.py:90-127 | the server's update stops at the first message that raises |
| Forums.Bounced | kxg/actors.py:103-105 | at most one packet goes back per message |
| Forums.BouncedSpec | kxg/actors.py:103-105 | only messages of the batch are sent back, and every one that failed the server's check is |
| Forums.RemoteForum.constructor | kxg/forums.py:227-231 | a new client forum has no factory from the server and has sent nothing |
| Forums.RemoteForum.Own | kxg/forums.py:355 | the client's own id is the offset of the factory the server sent |
| Forums.RemoteForum.ReceiveIdFromServer | kxg/forums.py:233-250 | `receive_id_from_server` answers true if and only if a factory arrived, and then keeps the first one; at kxg/multiplayer.py lines 29-45: `ClientForum.receive_id_from_server` is the same as the legacy remote forum's: true exactly when a factory arrived, keeping the first |
| Forums.RemoteForum.DispatchMessage | kxg/forums.py:252-261 | the client sends the message to the server first, then dispatches it locally as a plain forum does |
| Forums.RemoteForum.ConnectEveryone | kxg/forums.py:317-325 | the client forum connects exactly one actor, which gets the factory the server sent, and fails (assertion) otherwise; at kxg/forums.py lines 366-368: `_assign_id_factories` needs the server's factory; at kxg/multiplayer.py lines 120-128: the client forum connects exactly one actor, which gets the factory the server sent; like the local forum it is called on an unlocked world (kxg/theater.py:137-138) |
| Forums.ConnectInStage | kxg/theater.py:129-138 | `on_enter_stage` connects everyone inside `_unlock_temporarily`: the forum keeps the world and the actors, the world gets the actors' classes, the lock and the token table end as they began, and an empty world fails with the `get_last_id` error |
| Forums.RemoteForum.OnUpdateGame | kxg/forums.py:332-361 | the client's update makes exactly the calls `ClientCalls` lists for the batch |
| Forums.OwnMessagesNotReexecuted | kxg/forums.py:350-351 | a client does not execute its own message a second time when the server sends it back |
| Forums.LastVerdict | kxg/actors.py:103-105 | the error state left on a message is that of its last failed check in the batch |
| Forums.ServeOne | kxg/actors.py:103-123 | one turn of the server's loop: a failed message takes its error state and is sent back, then is skipped, handed on or raises as `ServerVerdict` says |
| Forums.ServeClient | kxg/actors.py:90-127 | the server's update hands on the messages `ServerAdmits` lists, sends back exactly the failed ones in order, and leaves each message its last verdict |
| Forums.HardErrorsNotExecuted | kxg/actors.py:108-120 | a message with a hard sync error, or sent by another client, never reaches the server's forum |
| Multiplayer.Respond | kxg/multiplayer.py:242-253 | the server's response asks for a sync exactly when the check failed, and for an undo exactly when, in addition, no sync could be prepared; an undo always comes with a sync |
| Multiplayer.ServerStep | kxg/multiplayer.py:234-253 | one message: `_was_sent_by` raises for an unsent message or a missing factory; otherwise a response is made if and only if the message came under the actor's own id, and it is `Respond`'s |
| Multiplayer.OwnPositions | kxg/multiplayer.py:234-235 | the positions of the batch sent under the actor's own id, all of them, in increasing order |
| Multiplayer.ServerResponsesSpec | kxg/multiplayer.py:226-264 | when nothing raises, the server sends one response per message of its own client, in order, and no other |
| Multiplayer.ServerDispatchSpec | kxg/multiplayer.py:226-270 | when nothing raises, a message reaches the server's forum if and only if it came from the actor's own client and its check passed or a sync could be prepared |
| Multiplayer.ServerUpdateStopsAtError | kxg/multiplayer.py:226-234 | once a message raises, the rest of the batch changes nothing |
| Multiplayer.UndoneMessagesNotDispatched | kxg/multiplayer.py:269-270 | a message whose response asks for an undo is never executed on the server |
| Multiplayer.ResponsePackets | kxg/multiplayer.py:264 | one packet per response, carrying its id and both flags |
| Multiplayer.ServerOnUpdateGame | kxg/multiplayer.py:223-275 | `ServerActor.on_update_game` raises exactly when `ServerUpdate` does; otherwise it hands the forum exactly the messages `ServerUpdate` dispatches and sends exactly its responses down the pipe, leaving the actor's factory, world and forum alone |
| Multiplayer.RespondNext | kxg/multiplayer.py:234-270 | one turn of the server's loop extends the responses and dispatches as `ServerUpdate` does for one more message |
| Multiplayer.RespondStopsAtError | kxg/multiplayer.py:234-235 | a message that `_was_sent_by` cannot judge makes the whole update raise with that error |
| Multiplayer.ServerUpdateStep | kxg/multiplayer.py:234-270 | one message more: a foreign message adds nothing, one of the actor's own adds its response and is dispatched unless it needs an undo |
| Multiplayer.Find | kxg/multiplayer.py:167 | the cache lookup `sent_message_cache[packet.id]` finds the entry with that id, or there is none |
| Multiplayer.AttachKeepsMessages | kxg/multiplayer.py:166-168 | attaching responses changes no cached message and no id, and every response that arrived found its message |
| Multiplayer.AttachStopsAtError | kxg/multiplayer.py:166-167 | once a response id is unknown (a KeyError), later packets do not matter |
| Multiplayer.Reaction | kxg/multiplayer.py:187-192 | a handled message is reacted to at most twice |
| Multiplayer.ReactionSpec | kxg/multiplayer.py:187-192 | a handled message is soft-synced exactly when its response asks for a sync and undone exactly when it asks for an undo, the sync first |
| Multiplayer.Kept | kxg/multiplayer.py:172-180 | the drain keeps a prefix of the cache |
| Multiplayer.KeptSpec | kxg/multiplayer.py:172-180 | the drain stops at the newest message without a response: every message after the kept ones has its response, and the newest kept one has none |
| Multiplayer.Reversed | kxg/multiplayer.py:173 | `reversed`: the same elements, last first |
| Multiplayer.DrainIsNewestFirst | kxg/multiplayer.py:172-197 | the drain handles exactly the messages after the kept ones, newest first |
| Multiplayer.DrainedIdsDecrease | kxg/multiplayer.py:176-180 | with ids given in sending order, the handled messages' ids strictly decrease, so no response is handled before those of the messages sent after it |
| Multiplayer.ClientForum.constructor | kxg/multiplayer.py:18-27 | a new client forum has an `IdFactory(0, 1)` that has handed out nothing, and an empty cache |
| Multiplayer.ClientForum.DispatchMessage | kxg/multiplayer.py:47-64 | a sent message takes the next response id, is cached as the newest entry under it, is sent to the server and is then dispatched; the cache's ids stay increasing and below the factory's count |
| Multiplayer.ClientForum.Receive | kxg/multiplayer.py:147-168 | one packet: a message is dispatched and, when its attached response asks, soft-synced; a response is attached to its cached message, or the update fails with the cache unchanged |
| Multiplayer.ClientForum.DrainCache | kxg/multiplayer.py:172-197 | the drain pops exactly the messages `Drained` lists, reacting to each as its response says, and leaves the cache empty or with its newest message still waiting |
| Multiplayer.ClientForum.OnUpdateGame | kxg/multiplayer.py:135-197 | `on_update_game` fails exactly when some response id is unknown; otherwise the packets' calls come in arrival order, then the drain's reactions, and the cache keeps only its waiting prefix |
| Multiplayer.ReactionsStep | kxg/multiplayer.py:172-197 | one more handled message adds its own reaction at the end |
| Multiplayer.ReceiveStep | kxg/multiplayer.py:147-168 | one more packet: attaching and the calls made extend by that packet's own |
| Multiplayer.Drain | kxg/multiplayer.py:172-197 | the drain loop leaves the kept prefix of the cache and the reactions of the drained messages in order |
| Multiplayer.DrainNext | kxg/multiplayer.py:173-197 | one turn of the drain pops the newest message and appends its reaction |
| Tables.Ids | kxg/world.py:145 | the set of ids holds exactly the ids of the sequence |
| Tables.InsertAllSpec | kxg/world.py:145 | adding tokens with distinct ids one by one: the table's ids grow by exactly those ids, each holds its token, and every other entry is kept |
| Tables.DeleteAllSpec | kxg/world.py:184 | removing tokens one by one takes exactly their ids out of the table |
| Tables.UndoRestoresTable | kxg/messages.py:161-197 | executing a message (add fresh tokens, remove present ones) and then undoing it (remove the added, put the removed back) gives back the original table |
| Theaters.Stage.constructor | kxg/theater.py:68-71 | a new stage has no theater, no successor and is not finished |
| Theaters.Stage.ExitStage | kxg/theater.py:73-77 | `exit_stage` marks the stage finished and changes nothing else |
| Theaters.BracketedPrefix | kxg/theater.py:32-52 | every prefix of well-bracketed hook calls is well bracketed |
| Theaters.HookCalledWhileOpen | kxg/theater.py:32-52 | a stage's update and exit hooks are only ever called while it is the open stage |
| Theaters.OpenStageWasEntered | kxg/theater.py:32-46 | the open stage was entered and has not been exited since |
| Theaters.Theater.constructor | kxg/theater.py:14-16 | a new theater keeps its initial stage, has no current stage and has called no hook |
| Theaters.Theater.SetInitialStage | kxg/theater.py:22-26 | the `initial_stage` setter raises `TheaterAlreadyPlaying` while a stage is playing and otherwise replaces the initial stage |
| Theaters.Theater.Update | kxg/theater.py:32-48 | `update` fails when there is neither a current nor an initial stage; otherwise it first enters the initial stage if none is playing, updates the current stage, and, when that stage is finished, exits it and enters its successor, which becomes current; hook calls stay well bracketed |
| Theaters.Theater.Play | kxg/theater.py:38-48 | updating a playing stage: `on_update_stage`, then, if it finished, `on_exit_stage` and the successor's `on_enter_stage` |
| Theaters.Theater.Exit | kxg/theater.py:50-52 | `exit` calls the current stage's `on_exit_stage`, if there is one, and changes no stage |
| Theaters.Extend | kxg/theater.py:32-52 | a hook call on the open stage, or an entry with none open, keeps the calls well bracketed |
| Theaters.ThreeStages | kxg/theater.py:32-48 | three chained stages, each finishing in its first update, are entered, updated and exited in turn, and the theater ends with no current stage |
| LegacyIds.GeneratedIdsMemberIff | kxg/engine/forum_and_actor.py:422-432 | the ids a factory hands out pass its own `__contains__` test exactly when its offset already lies in `0 .. spacing - 1` |
| LegacyIds.LastActorsIdsNotMembers | kxg/engine/forum_and_actor.py:89-98 | with the offsets `_assign_id_factories` gives on any world, the actor placed last holds a factory none of whose ids pass its own `__contains__` test |
| LegacyIds.LastPlaced | kxg/engine/forum_and_actor.py:91 | the actor the stable sort (referees first) places last |
| LegacyIds.LastWith | kxg/engine/forum_and_actor.py:91 | the last actor below a position with a given referee flag |
| LegacyIds.ContainsAsWritten | kxg/engine/forum_and_actor.py:422-423 | `id in factory` (`id % spacing == offset`) can only hold for an offset in `[0, spacing)`; a zero spacing raises ZeroDivisionError and is outside the model |
| LegacyForums.ActorSteps | kxg/engine/forum_and_actor.py:43-44 | the actors react once each, in list order, with token access restricted again |
| LegacyForums.Forum.constructor | kxg/engine/forum_and_actor.py:46-56 | a connected forum holds its world and its actors and has dispatched nothing |
| LegacyForums.Forum.DispatchMessage | kxg/engine/forum_and_actor.py:11-44 | `dispatch_message` locks the message (a second lock raises, changing nothing), executes it and lets the world react with token access unrestricted, restores the restriction even when execution raises, then lets every actor react; a token creation adds the token and a destruction removes it |
| LegacyForums.Actor.constructor | kxg/engine/forum_and_actor.py:103-107 | a new actor has no world, no forum and no factory |
| LegacyForums.Actor.SetWorld | kxg/engine/forum_and_actor.py:109-111 | `set_world` succeeds once and otherwise fails, changing nothing |
| LegacyForums.Actor.SetForum | kxg/engine/forum_and_actor.py:113-118 | `set_forum` refuses a second factory, stores the factory before refusing a second forum, and otherwise stores both; at kxg/engine/forum_and_actor.py lines 187-189: a referee's `set_forum` then insists on id 1 |
| LegacyForums.Actor.GetId | kxg/engine/forum_and_actor.py:120-122 | `get_id` fails without a factory and is the factory's offset otherwise |
| LegacyForums.Actor.SendMessage | kxg/engine/forum_and_actor.py:127-151 | `send_message` stamps the sender, gives a created token the factory's next id, and dispatches the message exactly when its check passes, answering whether it did; a created token is then in the world under its new id |
| LegacyForums.Dispatch | kxg/engine/forum_and_actor.py:19 | a received message that is locked already cannot be dispatched |
| LegacyForums.ServerHandles | kxg/engine/forum_and_actor.py:384-404 | one message on the server: a failed one is flagged soft or hard and sent back, a hard failure goes no further, a message from another sender is dropped, the rest are dispatched |
| LegacyForums.ClientHandles | kxg/engine/forum_and_actor.py:320-332 | one message on a client: dispatched if another client sent it, then handled as its error flag says |
| LegacyForums.HandledNext | kxg/engine/forum_and_actor.py:373-404 | handling one more message moves the loop on, or stops it with the whole run's outcome |
| LegacyForums.HandledAll | kxg/engine/forum_and_actor.py:373-404 | a loop that handled every message without stopping did the whole run |
| LegacyForums.PlanAppend | kxg/engine/forum_and_actor.py:373-404 | one more message received extends the run by that message's handling, unless the run had stopped |
| LegacyForums.ServerDispatchesOnlyOwn | kxg/engine/forum_and_actor.py:384-404 | whatever arrives, the server dispatches only messages from its own client, and only locked ones |
| LegacyForums.ServerDispatchesNoHard | kxg/engine/forum_and_actor.py:384-404 | when no message arrives flagged as a hard sync error, none the server dispatches is |
| LegacyForums.ServerFlagsFailures | kxg/engine/forum_and_actor.py:384-391 | every message that fails the server's check is sent back flagged, and a hard failure is not dispatched |
| LegacyForums.ClientSkipsOwn | kxg/engine/forum_and_actor.py:320-321 | a client never executes its own message a second time |
| LegacyForums.RemoteActor.constructor | kxg/engine/forum_and_actor.py:344-349 | a new remote actor has sent nothing |
| LegacyForums.RemoteActor.ReactToMessage | kxg/engine/forum_and_actor.py:361-364 | the remote actor relays to its client exactly the messages another client sent |
| LegacyForums.RemoteActor.OnUpdateGame | kxg/engine/forum_and_actor.py:370-409 | `RemoteActor.on_update_game` does exactly what the server's plan lists for the batch, and fails exactly when the plan stops |
| LegacyForums.RemoteActor.Serve | kxg/engine/forum_and_actor.py:384-404 | one turn of the server's loop is `ServerHandles` |
| LegacyForums.RemoteForum.constructor | kxg/engine/forum_and_actor.py:199-203 | a new client forum has done nothing |
| LegacyForums.RemoteForum.OnUpdateGame | kxg/engine/forum_and_actor.py:303-332 | `RemoteForum.on_update_game` does exactly what the client's plan lists for the batch, and fails exactly when the plan stops |
| LegacyForums.RemoteForum.Receive | kxg/engine/forum_and_actor.py:320-332 | one turn of the client's loop is `ClientHandles` |
| LegacyTokens.ReadOnlyAlwaysRuns | kxg/engine/token_and_world.py:82-98 | members flagged read-only, `__str__`, `__repr__` and anything that is not a function are left unwrapped and run in every status, locked or not |
| LegacyTokens.LockMattersOnlyWhenRegistered | kxg/engine/token_and_world.py:113-125 | a wrapped method runs on a registered token exactly when it has an id and access is unrestricted; in any other status the lock makes no difference |
| LegacyTokens.SetupAndTeardownRows | kxg/engine/token_and_world.py:82-125 | before setup a wrapped method runs exactly when it is flagged before-setup or is `__init__`/`__extend__`; after teardown exactly when it is flagged after-teardown |
| LegacyTokens.AccessLock.constructor | kxg/engine/token_and_world.py:176 | token access starts restricted |
| LegacyTokens.AccessLock.Enter | kxg/engine/token_and_world.py:505-510 | entering `unrestricted_token_access` lifts the restriction |
| LegacyTokens.AccessLock.Exit | kxg/engine/token_and_world.py:511-512 | leaving it, normally or through an exception, restricts access whatever it was before |
| LegacyTokens.NestedUnrestricted | kxg/engine/token_and_world.py:505-512 | a nested unrestricted block ends the unrestricted access of the block around it |
| LegacyTokens.Token.constructor | kxg/engine/token_and_world.py:196-203 | a new token has no id and is before setup |
| LegacyTokens.Token.GiveId | kxg/engine/token_and_world.py:241-245 | `give_id` refuses a token that has an id or is past setup, and otherwise gives it the factory's next id |
| LegacyTokens.World.constructor | kxg/engine/token_and_world.py:299-306 | the world takes id 0 and its table holds only itself |
| LegacyTokens.World.SetActors | kxg/engine/token_and_world.py:324-334 | `set_actors` stores the actors and registers the world, leaving its table alone |
| LegacyTokens.World.Contains | kxg/engine/token_and_world.py:319-321 | a token is in the world exactly when its id is in the table; a token without an id cannot be tested |
| LegacyTokens.World.GetLastId | kxg/engine/token_and_world.py:339-341 | `get_last_id` is the largest id, and at least 0; an empty table makes `max` raise |
| LegacyTokens.World.AddToken | kxg/engine/token_and_world.py:360-367 | `_add_token` raises for a token never given an id (`get_id` reads an `_id` that only `give_id` creates) and refuses a used id; otherwise it enters the token under its id and registers it, no other entry changing |
| LegacyTokens.World.RemoveToken | kxg/engine/token_and_world.py:388-396 | `_remove_token` raises for a token never given an id, as `get_id` does, and refuses an unregistered token; otherwise it deletes its entry and tears it down, no other entry changing |
| LegacyMessages.Message.constructor | kxg/engine/message.py:11-29 | every message starts mutable, with no sender and no error flag |
| LegacyMessages.Message.GetMessages | kxg/engine/message.py:37-38 | a plain message stands for itself alone; at kxg/engine/message.py lines 121-122: a composite message stands for its parts |
| LegacyMessages.Message.SetSenderId | kxg/engine/message.py:40-41 | `set_sender_id` stores the factory's id, and is refused with nothing changed once the message is locked |
| LegacyMessages.Message.WasSentBy | kxg/engine/message.py:43-44 | `was_sent_by` is true exactly when the stored sender is the factory's id, and fails before a sender is set |
| LegacyMessages.Message.WasSentByReferee | kxg/engine/message.py:46-47 | `was_sent_by_referee` is true exactly when the sender id is 0 |
| LegacyMessages.Message.Flag | kxg/engine/message.py:49-53 | the flag methods set the error state, the later flag replacing the earlier, and are refused once the message is locked |
| LegacyMessages.Message.HasSoftSyncError | kxg/engine/message.py:55-56 | `has_soft_sync_error` is never true together with `has_hard_sync_error` |
| LegacyMessages.Message.HasHardSyncError | kxg/engine/message.py:58-59 | `has_hard_sync_error` is never true of a message flagged soft |
| LegacyMessages.Message.Lock | kxg/engine/message.py:61-62 | `lock` makes the message immutable and raises the second time; at kxg/engine/message.py lines 31-35: once locked, every assignment to the message is refused |
| LegacyMessages.Message.CheckAsWritten | kxg/engine/message.py:138-139 | as written, `CreateToken.on_check` refuses a token already in the world and otherwise raises, since an IdFactory has no `is_token_from_me`; at kxg/engine/message.py lines 153-154: `DestroyToken.on_check` passes exactly when its token is in the world |
| LegacyMessages.Message.Check | kxg/engine/message.py:138-139 | as intended, `CreateToken.on_check` passes exactly when the token is new to the world and its id belongs to the sender's factory; at kxg/engine/message.py lines 76-80: a message with the base class's hook answers the user's check (true by default) |
| LegacyMessages.Message.Execute | kxg/engine/message.py:141-142 | executing a `CreateToken` adds its token as `_add_token` says; at kxg/engine/message.py lines 156-157: executing a `DestroyToken` removes its token as `_remove_token` says; at kxg/engine/message.py lines 91-95: the base class's `on_execute` leaves the world alone |
| LegacyMessages.Message.HandleHardSyncError | kxg/engine/message.py:105-112 | the base class's hard-sync handler raises, changing nothing; at kxg/engine/message.py lines 144-160: each token message's hard-sync handler does the opposite of its `on_execute` |
| LegacyMessages.NeverBothFlags | kxg/engine/message.py:55-59 | a message never reports a soft and a hard sync error at once |
| LegacyMessages.CreateThenUndo | kxg/engine/message.py:141-145 | a token creation that executed is undone by its hard-sync handler: the table is back as it was, and the token ends torn down |
| LegacyMessages.DestroyThenUndo | kxg/engine/message.py:156-160 | a token destruction that executed is undone: the token is back under its id, registered again, and every other entry is as it was |
| ModulesEngine.ToLower | modules/engine.py:1290 | `str.lower` on one character leaves no upper-case letter and turns `A`-`Z` into `a`-`z` |
| ModulesEngine.Lowered | modules/engine.py:1290 | a word lower-cased letter by letter |
| ModulesEngine.LowerRun | modules/engine.py:1290 | the `[a-z]*` part of a match: the longest run of lower-case letters at the start |
| ModulesEngine.LoweredAll | modules/engine.py:1289-1290 | each word lower-cased, in order |
| ModulesEngine.WordsOfCamelCase | modules/engine.py:1278-1292 | a class name made of capitalised words splits back into exactly those words, lower-cased |
| ModulesEngine.LowerRunOfWord | modules/engine.py:1290 | the lower-case run after a capital ends where the next capitalised word begins |
| ModulesEngine.TypeNameHasNoUpper | modules/engine.py:1278-1292 | a message type name never holds an upper-case letter |
| ModulesEngine.WordsHaveNoUpper | modules/engine.py:1289-1290 | no word found by the regular expression keeps an upper-case letter |
| ModulesEngine.JoinHasNoUpper | modules/engine.py:1292 | joining words without upper-case letters by `_` gives none |
| ModulesEngine.CreatePlayerType | modules/engine.py:1278-1292 | `CreatePlayer` has type `create_player` |
| ModulesEngine.CreatePlayerWords | modules/engine.py:1289-1290 | `CreatePlayer` splits into `create` and `player` |
| ModulesEngine.StatusIsAtMostOne | modules/engine.py:1307-1311 | a status is never both accepted and rejected, and one that is neither `True` nor `False` is neither |
| ModulesEngine.WasAccepted | modules/engine.py:1307-1308 | `was_accepted` (`status is True`) excludes `was_rejected` |
| ModulesEngine.WasRejected | modules/engine.py:1310-1311 | `was_rejected` (`status is False`) is never true of an accepted status |
| ModulesEngine.Messenger.constructor | modules/engine.py:749-751 | a new messenger's buffer is empty |
| ModulesEngine.Messenger.SendMessage | modules/engine.py:753-754 | `send_message` appends to the buffer |
| ModulesEngine.Messenger.DeliverMessages | modules/engine.py:756-758 | `deliver_messages` hands over the buffer as it was and leaves it empty |
| ModulesEngine.SendTwiceDeliver | modules/engine.py:747-758 | messages come out in the order they were sent, and a second delivery is empty |
| ModulesEngine.IdFactory.constructor | modules/engine.py:763-764 | the first id is the world's id plus one, and nothing is handed out yet |
| ModulesEngine.IdFactory.Next | modules/engine.py:766-769 | `next` hands out its counter and counts up by one, so every id is new, above the world's, and above every id before it |
| ModulesEngine.Actor.constructor | modules/engine.py:534-536 | a new actor has no id and an empty messenger of its own |
| ModulesEngine.Actor.GiveId | modules/engine.py:542-544 | `give_id` succeeds only once |
| ModulesEngine.Actor.GetId | modules/engine.py:538-540 | `get_id` fails without an id and answers it otherwise |
| ModulesEngine.Fanout | modules/engine.py:659-662 | a copy of the message goes to each actor in order, marked as sent from here for its sender only |
| ModulesEngine.AcceptedReachesEveryone | modules/engine.py:650-678 | a message whose check did not return `True` is rejected and reaches no one; an accepted one is accepted, set up, dispatched to every actor, handled by the world, then handed to every actor, marked sent from here for its sender only |
| ModulesEngine.Forum.constructor | modules/engine.py:636-644 | a forum before `setup` has no actors, no factory and no history |
| ModulesEngine.Forum.Setup | modules/engine.py:638-644 | `setup` gives the actors the ids 0, 1, ... in list order, succeeding whenever the actors are distinct and have no id yet, and starts token ids above the world's |
| ModulesEngine.Forum.Inboxes | modules/engine.py:648-650 | the buffered messages of each actor, in the forum's order |
| ModulesEngine.Forum.Update | modules/engine.py:646-678 | `update` handles every actor's buffered messages, actor by actor and each in sending order, as `MessageEvents` says, and empties every buffer |
| ModulesEngine.Forum.UpdateSender | modules/engine.py:648-678 | one sender: its messages are handled in order and its buffer alone is emptied |
| ModulesEngine.Forum.HandleMessages | modules/engine.py:652-678 | the delivered messages of one sender are handled one after another |
| ModulesEngine.Forum.HandleMessage | modules/engine.py:653-678 | one message: rejected, or accepted, set up, dispatched to every actor, handled by the world and handed to every actor |
| ModulesEngine.UpdateEventsSnoc | modules/engine.py:648 | one more sender extends the update by that sender's messages |
| ModulesEngine.SenderEventsSnoc | modules/engine.py:652 | one more message extends a sender's handling by that message's |
| ModulesEngine.RemoveFirst | modules/engine.py:306-307 | `list.remove` takes out exactly one occurrence |
| ModulesEngine.RegisterUnregister | modules/engine.py:303-307 | registering a new subscriber and unregistering it again gives back the list |
| ModulesEngine.Publisher.constructor | modules/engine.py:300-301 | the publisher starts with the subscribers it is given, in order |
| ModulesEngine.Publisher.Register | modules/engine.py:303-304 | `register` appends |
| ModulesEngine.Publisher.Unregister | modules/engine.py:306-307 | `unregister` removes the first registration, and raises for an unknown subscriber, changing nothing |
| ModulesEngine.Publisher.Publish | modules/engine.py:309-311 | `publish` reaches every subscriber, in registration order, once per registration |
| ModulesEngine.Token.constructor | modules/engine.py:947-950 | a new token has no id and is before setup |
| ModulesEngine.Token.GiveId | modules/engine.py:977-984 | `give_id` refuses a token that has an id or is past setup, and otherwise takes the factory's next id, one never handed out before |
| ModulesEngine.TokenList.constructor | modules/engine.py:1044 | the optional list keeps the items it is given |
| ModulesEngine.World.constructor | modules/engine.py:1010-1016 | the world takes id 1 and its table holds only itself |
| ModulesEngine.World.AddToken | modules/engine.py:1044-1069 | `add_token` refuses a token with no id or a used id, and otherwise enters it under its id, appends it to the list when one is given, and registers it |
| ModulesEngine.World.RemoveToken | modules/engine.py:1075-1089 | `remove_token` refuses a token with no id or not registered, and otherwise deletes its entry, removes it from the list when one is given (raising after the deletion when it is not there) and tears it down |
| ModulesEngine.AddThenRemove | modules/engine.py:1044-1089 | adding a new token and removing it again, with the same list, gives back the table and the list and leaves the token torn down |
| Network.BigEndian | modules/network.py:215 | `struct.pack("!I", n)` writes `n` as exactly four big-endian bytes that read back as `n` |
| Network.FromBigEndian | modules/network.py:285 | `struct.unpack` of an unsigned big-endian field gives a value below 256 to the power of its byte length |
| Network.HeaderRange | modules/network.py:20-21 | the `!I` header is four bytes, so lengths below 2^32 fit |
| Network.Frame | modules/network.py:214-226 | `queue` writes the header, whose value is the data's length, followed by the data itself |
| Network.NextFrame | modules/network.py:276-295 | the parsing loop cuts a frame exactly when the header and all the data it announces are present |
| Network.NextFrameSplits | modules/network.py:283-295 | a stream holding a complete frame is that frame followed by what the loop keeps |
| Network.BigEndianUnique | modules/network.py:285 | a header is determined by the length it holds |
| Network.FrameOfHeader | modules/network.py:283-294 | a header read off the stream, followed by the data it announces, is the frame `queue` would write for that data |
| Network.Parse | modules/network.py:275-295 | parsing stops only when no complete frame is left |
| Network.ParseRestIsSuffix | modules/network.py:295 | what `receive` keeps of `stream_in` is a suffix of it |
| Network.ParseFrames | modules/network.py:210-304 | queued frames followed by any tail parse back to the same packets, in order, followed by the tail's |
| Network.ParseOneFrame | modules/network.py:294-295 | one frame in front parses to its data, then the rest |
| Network.NextFrameOfFrame | modules/network.py:283-295 | the loop cuts exactly a queued frame off the front of the stream |
| Network.ParseIncremental | modules/network.py:263-295 | bytes arriving later complete what was kept: parsing the longer stream gives the earlier packets, then those of the kept rest with the new bytes |
| Network.ReceiveChunksIsParse | modules/network.py:252-304 | receiving in chunks, keeping the incomplete rest between calls, is parsing all the chunks at once |
| Network.ChunkedRoundTrip | modules/network.py:210-304 | queued packets delivered in any chunks parse back to the same packets, in the same order, leaving nothing |
| Network.FirstSpace | modules/network.py:320 | the first space of a message, if any |
| Network.Pack | modules/network.py:319-321 | `RawClient.pack`: the packet is the message itself and its type is the text before the first space, or all of it |
| Network.Unpack | modules/network.py:323-326 | `RawClient.unpack` splits on the first space, or gives the whole packet and an empty message when there is none |
| Network.PackUnpack | modules/network.py:319-326 | unpacking a packed message gives back the type `pack` chose, and the text after its first space |
| Network.Invocations | modules/network.py:221-222 | the callbacks of a flavor run once each, in registration order, on the message |
| Network.Handle | modules/network.py:218-222 | a registered flavor runs its callbacks; any other runs the default, which after `clear_callbacks` raises |
| Network.ResumesThen | modules/network.py:275-304 | one more turn of the parsing loop after several composes into the whole run |
| Network.RunFollowsParse | modules/network.py:275-304 | when every flavor that arrives is handled, `receive` runs the callbacks of every complete frame in order and keeps the incomplete rest; it raises exactly when some flavor has no handler |
| Network.Client.constructor | modules/network.py:98-110 | a new client has identity 0, is not connected, has empty streams and no callbacks, and its defaults raise |
| Network.Client.GetIdentity | modules/network.py:115-116 | `get_identity` answers the identity |
| Network.Client.Incoming | modules/network.py:132-140 | `incoming` appends the callback to the flavor's list, starting one if needed |
| Network.Client.Outgoing | modules/network.py:142-151 | `outgoing` appends the callback (by default one doing nothing) to the flavor's list |
| Network.Client.DefaultIncoming | modules/network.py:153-154 | `default_incoming` replaces the incoming default |
| Network.Client.DefaultOutgoing | modules/network.py:156-157 | `default_outgoing` replaces the outgoing default |
| Network.Client.ClearCallbacks | modules/network.py:159-170 | `clear_callbacks` forgets every callback and makes both defaults raise |
| Network.Client.Setup | modules/network.py:175-189 | `setup` fails on a connected client and otherwise connects when `connect_ex` answers 0 |
| Network.Client.Attach | modules/network.py:196-203 | `attach` gives the client its identity and marks it connected |
| Network.Client.RunCallbacks | modules/network.py:221-222 | the callbacks of one message run in order |
| Network.Client.Dispatch | modules/network.py:218-222 | one message is handled as `Handle` says |
| Network.Client.Queue | modules/network.py:210-226 | `queue` refuses a packet too long for the header, then runs the outgoing callbacks of its type (the default raises for an unregistered type), and only then appends its frame to `stream_out`; what is sent and unsent stays the frames of every packet queued |
| Network.Client.Deliver | modules/network.py:228-238 | `deliver` removes exactly the bytes `send` accepted from the front of `stream_out` |
| Network.Client.Receive | modules/network.py:252-304 | `receive` appends the new bytes to `stream_in`, then handles every complete frame in order as `Run` says and keeps the rest |
| Network.Client.ReceiveFrame | modules/network.py:276-304 | one turn of the parsing loop cuts one frame and handles it, or stops |
| Network.Client.Update | modules/network.py:306-309 | `update` is `deliver` then `receive` |
| Network.FramesSnoc | modules/network.py:226 | queuing one more packet appends its frame |
| Network.Host.constructor | modules/network.py:30-34 | a host's first identity is 1 |
| Network.Host.Accept | modules/network.py:49-73 | `accept` makes one new connected client per pending connection, with the identities `next_id`, `next_id + 1`, ... in order |
| Network.AcceptInTurn | modules/network.py:34-59 | a host numbers its connections 1, 2, 3, ... across calls of `accept` |
| KeyChains.ThroughLenses | modules/keychain.py:152-162 | an input passes through the active lenses in order, each mapping it when it is in the lens's domain; with no lens active it is unchanged |
| KeyChains.UntouchedByLenses | modules/keychain.py:154-162 | an input outside every active lens's domain reaches the active node unchanged |
| KeyChains.Toggle | modules/keychain.py:136-148 | toggling removes one occurrence of an active lens and appends an inactive one |
| KeyChains.ToggleTwice | modules/keychain.py:131-148 | pressing a lens's name twice leaves the active lenses as they were |
| KeyChains.FollowAppend | modules/keychain.py:77-80 | following one more key of a chain is following one link from the node reached |
| KeyChains.FollowKept | modules/keychain.py:84-115 | placing nodes never moves a path that already existed |
| KeyChains.NewLinkKeepsShape | modules/keychain.py:106-113 | a new node linked under an existing parent keeps every link inside the trie and extends it |
| KeyChains.ExtendsTrans | modules/keychain.py:77-80 | growing the trie several times is growing it |
| KeyChains.Node.constructor | modules/keychain.py:201-207 | a new node has no manager, no key, no callbacks and no links |
| KeyChains.Node.Setup | modules/keychain.py:209-213 | `setup` records the manager and key and adds the callback, if any |
| KeyChains.Node.AddCallback | modules/keychain.py:216-220 | a callback other than `None` is appended with its arguments; `None` adds nothing |
| KeyChains.Node.AddLink | modules/keychain.py:226-230 | linking a key already linked fails the assertion with nothing changed; otherwise the key now leads to the node |
| KeyChains.Node.Check | modules/keychain.py:233-245 | an input the node links executes the linked node; any other breaks the sequence |
| KeyChains.Node.Execute | modules/keychain.py:247-266 | a node with links becomes active and the sequence is kept, a leaf resets the keychain, and then every callback of the node runs, in order; at modules/gui.py lines 241-258: the GUI module's `Node.execute` is the same |
| KeyChains.Node.BreakSequence | modules/keychain.py:272-274 | breaking the sequence resets the keychain and runs nothing |
| KeyChains.KeyChain.constructor | modules/keychain.py:29-37 | a new keychain has no root, no active node, an empty sequence and no lenses |
| KeyChains.KeyChain.Setup | modules/keychain.py:39-45 | `setup` makes a fresh root with no key and no callback, and activates it |
| KeyChains.KeyChain.RegisterLens | modules/keychain.py:49-63 | the lens is stored under its name, replacing any earlier one |
| KeyChains.KeyChain.Activate | modules/keychain.py:168-170 | `activate` makes the node active |
| KeyChains.KeyChain.Reset | modules/keychain.py:172-175 | `reset` empties the sequence and activates the root |
| KeyChains.KeyChain.Fire | modules/keychain.py:266 | a callback runs with its arguments |
| KeyChains.KeyChain.PlaceNode | modules/keychain.py:84-115 | an existing link is followed, and gets the callback if there is one; otherwise a new node with the key and the callback is linked under the parent; nothing else changes |
| KeyChains.KeyChain.PlaceNew | modules/keychain.py:102-115 | the new node is linked under the parent by its key |
| KeyChains.KeyChain.RegisterChain | modules/keychain.py:65-80 | an empty chain fails (`sequence[-1]`) as does a keychain not set up; otherwise the keys lead from the root to a node whose callbacks gained the callback, every other node keeps its callbacks, and no existing path moves; at modules/gui.py lines 61-75: the `Keychain` copy in the GUI module registers chains the same way |
| KeyChains.KeyChain.PlaceStep | modules/keychain.py:77-80 | one turn of the loop: the path of the first keys extends by one link |
| KeyChains.KeyChain.Handle | modules/keychain.py:118-166 | a lens name toggles its lens; with `lens_only` nothing else happens; otherwise the input, mapped by the active lenses, joins the sequence and the active node either executes the node it leads to or resets the keychain; the sequence keeps leading from the root to the active node; at modules/gui.py lines 109-147: the `Keychain` copy in the GUI module handles input the same way |
| GuiTables.Forward | modules/gui.py:289-423 | a forward table maps exactly the codes of its entries |
| GuiTables.Inverse | modules/gui.py:425-428 | the inverted table maps exactly the names of the entries |
| GuiTables.Invert | modules/gui.py:425-428 | the loop that builds `string_to_key` stores every entry's name, a later entry overwriting an earlier one, and ends with exactly the inverse |
| GuiTables.InverseIsLastWriter | modules/gui.py:426-428 | the code stored under a name is that of the last entry with the name |
| GuiTables.ForwardAt | modules/gui.py:289-423 | a code's name in the forward table is its entry's name |
| GuiTables.InverseThenForward | modules/gui.py:425-428 | looking up any name, then its code, gives the name back |
| GuiTables.ForwardThenInverse | modules/gui.py:425-470 | looking up a code's name, then the name's code, gives every code back exactly when no two codes share a name |
| GuiTables.MouseNamesUnique | modules/gui.py:457-465 | the seven mouse buttons have seven different names |
| GuiTables.MouseRoundTrip | modules/gui.py:457-470 | `mouse_to_string` maps exactly the buttons 1 to 7, and `string_to_mouse` gives each one back |
| MapQueue.Parent | kxg/misc/map.py:242 | the parent slot `(child - 1) / 2`, read as integer division, is the one slot a child hangs under |
| MapQueue.Swap | kxg/misc/map.py:245 | exchanging two slots exchanges them and keeps every other slot and the contents |
| MapQueue.RootIsMinimal | kxg/misc/map.py:232-233 | the root of a heap ranks no higher than any slot |
| MapQueue.RootIsMinimalAll | kxg/misc/map.py:213-233 | `peek` and `pop` give an item of least rank |
| MapQueue.AppendIsReadyUp | kxg/misc/map.py:203-207 | appending to a heap leaves the new slot ready for `_bubble` |
| MapQueue.SiftUpStep | kxg/misc/map.py:244-246 | one swap of `_bubble` restores the order below the slot and moves the problem one level up |
| MapQueue.SiftDownStep | kxg/misc/map.py:257-263 | one swap of `_drip` with the lower-ranked child moves the problem one level down |
| MapQueue.DripDone | kxg/misc/map.py:261-265 | `_drip` stops where the slot ranks no higher than its children, and the heap is whole |
| MapQueue.PriorityQueue.constructor | kxg/misc/map.py:191-194 | a new queue is empty and compares by the given rank |
| MapQueue.PriorityQueue.Contains | kxg/misc/map.py:200-201 | `__contains__` asks the membership set, which in a valid queue answers for the heap |
| MapQueue.PriorityQueue.Length | kxg/misc/map.py:196-197 | `len(queue)` is the length of the heap list, which on a valid queue is the number of distinct items queued |
| MapQueue.PriorityQueue.Empty | kxg/misc/map.py:234-235 | `empty` holds exactly when the queue holds nothing |
| MapQueue.PriorityQueue.Peek | kxg/misc/map.py:232-233 | `peek` on an empty queue raises; otherwise it gives a queued item of least rank |
| MapQueue.PriorityQueue.Push | kxg/misc/map.py:203-207 | `push` adds exactly the item to the heap and to the membership set, and keeps the heap ordered and, for an item not yet queued, the queue valid |
| MapQueue.PriorityQueue.Update | kxg/misc/map.py:209-211 | `update` raises for an item not queued; otherwise it keeps the contents and, when the item's rank has dropped, makes the heap whole again |
| MapQueue.PriorityQueue.Reweigh | kxg/misc/map.py:270-278 | an IndexedPQ compares by the weights dict; changing one entry changes the rank of that item only |
| MapQueue.PriorityQueue.Bubble | kxg/misc/map.py:237-246 | `_bubble` keeps the contents and turns a heap broken only above the slot into a heap |
| MapQueue.PriorityQueue.Drip | kxg/misc/map.py:248-265 | `_drip` keeps the contents and turns a heap broken only below the slot into a heap |
| MapQueue.PriorityQueue.Sink | kxg/misc/map.py:257-265 | one turn of `_drip`'s loop picks the lower-ranked child and swaps when it ranks lower |
| MapQueue.PriorityQueue.Pop | kxg/misc/map.py:213-230 | `pop` on an empty queue raises; otherwise it removes exactly the root from the heap and the set, gives an item of least rank, and keeps the queue valid |
| MapQueue.PriorityQueue.TakeRoot | kxg/misc/map.py:218-227 | the root leaves, the last item takes its place and drips down, and the heap stays ordered |
| MapQueue.RootRemoved | kxg/misc/map.py:220-226 | taking the root and moving the last item up removes just the root |
| MapQueue.MovedLastIsReadyDown | kxg/misc/map.py:223-227 | the last item moved to the root of a heap is ready for `_drip` |
| MapQueue.DistinctRemove | kxg/misc/map.py:229 | removing the popped item keeps the membership set equal to the heap's items |
| MapQueue.DistinctAppend | kxg/misc/map.py:204-205 | pushing an item not queued keeps the membership set equal to the heap's items |
| MapQueue.DistinctSlots | kxg/misc/map.py:210 | in a queue of distinct items `heap.index` finds the only slot of the item |
| MapQueue.LowerRankIsReadyUp | kxg/misc/map.py:209-211 | lowering one item's weight, as an IndexedPQ's caller does before `update`, leaves its slot ready for `_bubble` |
| MapQueue.ListIndex | kxg/misc/map.py:244 | indexing a list with a float raises TypeError, and an in-range int gives that slot |
| MapQueue.PushAsWrittenRaises | kxg/misc/map.py:242-244 | as written, `(child - 1) / 2` is a float under Python 3, so `push` onto a non-empty queue raises TypeError |
| MapQueue.DripAsWritten | kxg/misc/map.py:248-265 | `_drip` as written, with `size` one less than the heap's length, keeps the length |
| MapQueue.PopAsWrittenBreaksOrder | kxg/misc/map.py:213-265 | popping [1, 2, 3] as written leaves [3, 2], not a heap, and the next pop gives 3 while 2 is still queued; the heap [1, 2, 3] is reached by pushing 1, 2, 3 once `_bubble` divides with `//`, since as written the second push raises TypeError |
| MapGraph.ListSlot | kxg/misc/map.py:110 | a Python list index names a slot exactly when it lies between minus the length and the length, a negative one counting from the end |
| MapGraph.Node.constructor | kxg/misc/map.py:5-9 | a new node has the unset index -1, its weight, and is active |
| MapGraph.Node.GetWeight | kxg/misc/map.py:16-18 | `get_weight` fails its assertion exactly when the weight is zero, and otherwise gives the weight |
| MapGraph.Node.SetIndex | kxg/misc/map.py:20-22 | `set_index` fails its assertion on a node already indexed and otherwise records the index |
| MapGraph.Node.SetWeight | kxg/misc/map.py:23-24 | `set_weight` changes only the weight |
| MapGraph.Node.Activate | kxg/misc/map.py:29-30 | `activate` marks the node active and changes nothing else |
| MapGraph.Node.Deactivate | kxg/misc/map.py:31-32 | `deactivate` marks the node inactive and changes nothing else |
| MapGraph.Edge.constructor | kxg/misc/map.py:37-39 | a new edge joins its start to its end at the distance, 1 by default |
| MapGraph.Edge.IsActive | kxg/misc/map.py:44-45 | an edge is active exactly when both of its ends are |
| MapGraph.Edge.Cost | kxg/misc/map.py:63-66 | the cost is the product of both ends' weights and the distance, and fails when either weight is zero |
| MapGraph.Edge.SetNodes | kxg/misc/map.py:50-52 | `set_nodes` replaces both ends and keeps the distance |
| MapGraph.Edge.SetStart | kxg/misc/map.py:68-69 | `set_start` replaces only the start |
| MapGraph.Edge.SetEnd | kxg/misc/map.py:71-72 | `set_end` replaces only the end |
| MapGraph.Edge.SetDistance | kxg/misc/map.py:74-75 | `set_distance` replaces only the distance |
| MapGraph.IndexOf | kxg/misc/map.py:119 | `list.index` gives the first position of the item |
| MapGraph.Graph.constructor | kxg/misc/map.py:81-83 | a new graph has no nodes and no edges |
| MapGraph.Graph.AddNode | kxg/misc/map.py:89-98 | a node already in the graph is refused with its position; a node indexed elsewhere trips `set_index`; otherwise it is appended and its index is its position, and every node's index stays its position |
| MapGraph.Graph.AddEdge | kxg/misc/map.py:100-107 | the first edge stored for a pair of nodes stays and later ones are ignored; nothing else changes |
| MapGraph.Graph.GetNode | kxg/misc/map.py:109-110 | `get_node` is a list index into the nodes, failing out of range |
| MapGraph.Graph.GetIndex | kxg/misc/map.py:118-119 | `get_index` fails for a node not in the graph and otherwise gives its position |
| MapGraph.Graph.GetNumNodes | kxg/misc/map.py:115-116 | `get_num_nodes` counts the indices from 0 that `get_node` accepts: every index below it names a node and the count itself does not |
| MapGraph.Graph.IndexExists | kxg/misc/map.py:121-122 | `index_exists` checks only the upper bound, so a negative index passes; any index it accepts down to minus the length names a node |
| MapGraph.Graph.GetEdge | kxg/misc/map.py:127-128 | `get_edge` fails unless an edge is stored for the pair |
| MapGraph.Graph.GetEdgesFrom | kxg/misc/map.py:130-131 | `get_edges_from` fails for a node with no stored edge; otherwise its result holds every edge stored under the node and nothing else |
| MapGraph.Graph.IndexRoundTrip | kxg/misc/map.py:94-96 | in a valid graph a node's own index finds it, and is its position |
| MapGraph.TileCount | kxg/misc/map.py:150 | `[None] * rows * columns` is empty unless both are positive |
| MapGraph.RowMajor | kxg/misc/map.py:152-158 | every cell inside the grid has its own slot in the tile list |
| MapGraph.Grid.constructor | kxg/misc/map.py:148-150 | a new grid has `rows * columns` empty tiles |
| MapGraph.Grid.Get | kxg/misc/map.py:152-154 | `grid[row, column]` reads slot `row * columns + column`, failing when that is no list index |
| MapGraph.Grid.Set | kxg/misc/map.py:156-158 | `grid[row, column] = node` stores the node at that slot, which then reads back, and changes no other slot |
| MapSearch.NoRepeatsBound | kxg/misc/map.py:320-322 | a walk that never repeats a tile, all of whose tiles but the last are recorded, is at most one longer than the records, so the walk back ends |
| MapSearch.SearchAlgorithm.constructor | kxg/misc/map.py:284-292 | a new search has no routes and no route, has not found anything, is not searching, and its clock reads zero |
| MapSearch.SearchAlgorithm.Search | kxg/misc/map.py:312-314 | `search` starts the clock and marks the search running |
| MapSearch.SearchAlgorithm.TargetFound | kxg/misc/map.py:316-329 | `target_found` stores the route from the target back to the source through the records, marks it found and stops the clock; over records that lead back to the source it always succeeds, and it fails where the code would raise KeyError or loop forever, with nothing changed |
| MapSearch.SearchAlgorithm.TargetNotFound | kxg/misc/map.py:331-337 | `target_not_found` stores an empty route and the records, marks it not found and stops the clock |
| MapSearch.GlobalLookup | kxg/misc/map.py:314 | a global name resolves exactly when the module defines it, and otherwise raises NameError naming it |
| MapSearch.MissingGlobals | kxg/misc/map.py:387 | the module imports nothing, so neither `time` nor `graph` resolves, while its own `Edge` does |
| MapSearch.SearchAlgorithm.SearchAsWritten | kxg/misc/map.py:312-314 | as written, `search` marks the search running and then raises NameError at `time.time()`, with the clock not started |
| MapSearch.SearchAlgorithm.TargetFoundAsWritten | kxg/misc/map.py:316-329 | as written, `target_found` stores the route and the records and marks the search found, then raises NameError at `time.time()` before the search time is taken |
| MapSearch.SearchAlgorithm.TargetNotFoundAsWritten | kxg/misc/map.py:331-337 | as written, `target_not_found` stores an empty route, then raises NameError at `time.time()` |
| MapSearch.SearchAlgorithm.BreadthFirstSearchAsWritten | kxg/misc/map.py:378-387 | as written, a breadth-first search raises NameError in the base `search` before it explores anything, and `graph.Edge` would raise after it; no search ever runs |
| MapSearch.SearchAlgorithm.BreadthFirstSearch | kxg/misc/map.py:376-408 | a breadth-first search records how every reached node was reached along an active edge, finds the target exactly when it reached it, and then stores a route from the target back to the source along active edges, with no tile twice, and stops the clock |
| MapSearch.WalkBack | kxg/misc/map.py:317-322 | the walk from the target follows the records to the source; over records that lead back to the source it always arrives, and the route it builds is a route with no repeated tile |
| MapSearch.DescendingSnoc | kxg/misc/map.py:321-322 | each step of the walk goes to a tile recorded earlier in the search |
| MapSearch.NoRepeatsSnoc | kxg/misc/map.py:322 | a step to a tile not yet on the route keeps the route free of repeats |
| MapSearch.Explore | kxg/misc/map.py:384-406 | the exploring loop ends, says whether it reached the target, and leaves records that lead back to the source along active edges |
| MapSearch.Visit | kxg/misc/map.py:391-406 | one round records where the first queued edge came from, stops at the target, and otherwise keeps the loop's state while seeing a new node or shortening the queue |
| MapSearch.SmallerSet | kxg/misc/map.py:406 | marking a new node seen leaves fewer nodes unseen |
| MapSearch.PopKeeps | kxg/misc/map.py:391-395 | recording the node the first queued edge leads to keeps the records leading back to the source |
| MapSearch.PopKeepsQueue | kxg/misc/map.py:391-395 | the rest of the queue still leads to nodes seen but not yet recorded |
| MapSearch.PushArcs | kxg/misc/map.py:401-406 | the inner loop queues each active edge to a node not yet seen, and marks that node seen |
| Geometry.Apply | modules/geometry.py:291-313 | the componentwise operators add, subtract, multiply and divide, and division by zero raises |
| Geometry.ApplyBoth | modules/geometry.py:76 | a vector operator applies the operator to both coordinates, and fails when either fails |
| Geometry.LeftSide | modules/geometry.py:72-88 | `v op other` works on a vector or a pair; a number other than zero is refused for `+` and `-` |
| Geometry.RightSide | modules/geometry.py:92-110 | `other op v` does the same with the operands swapped |
| Geometry.AddSubtract | modules/geometry.py:291-297 | `v + w == w + v`, and `(v + w) - w == v` |
| Geometry.ZeroIsNeutral | modules/geometry.py:82-88 | `0 + v` and `v + 0` are `v`, as `sum()` needs, and any other number added or subtracted is refused |
| Geometry.ScaleUnscale | modules/geometry.py:299-313 | `v * s == s * v`, dividing by `s` undoes multiplying by it, and dividing by zero raises |
| Geometry.Neg | modules/geometry.py:278-280 | `-v` is the vector that adds to `v` to give the null vector |
| Geometry.Orthogonal | modules/geometry.py:366-369 | `get_orthogonal` is orthogonal to the vector, has its length, and its perp product with the vector is the squared length |
| Geometry.PerpAntisymmetric | modules/geometry.py:245-250 | the perp product changes sign when its operands swap and is zero for a vector with itself |
| Geometry.Dot | modules/geometry.py:240-242 | `dot_product` sums the products of the coordinates, and a vector's product with itself is never negative |
| Geometry.Perp | modules/geometry.py:245-250 | `perp_product` is the z part of the cross product, and a vector's product with itself is zero |
| Geometry.Manhattan | modules/geometry.py:355-358 | the Manhattan distance is never negative and is zero exactly between equal vectors |
| Geometry.ManhattanSymmetric | modules/geometry.py:355-358 | the Manhattan distance does not depend on the order of the vectors |
| Geometry.Projection | modules/geometry.py:389-394 | the projection onto the null axis divides by zero; onto any other axis it is parallel to the axis |
| Geometry.Components | modules/geometry.py:396-402 | the normal part and the tangent part add back up to the vector, and the normal part is orthogonal to the axis |
| Geometry.Interpolated | modules/geometry.py:227-231 | moving towards the target by extent 0 stays, by extent 1 arrives |
| Geometry.EqualsAsWrittenConfuses | modules/geometry.py:270-272 | as written, `==` builds a vector of two booleans that is true when either coordinate agrees, so (0, 1) equals (0, 2) |
| Geometry.EqualsAsWritten | modules/geometry.py:288 | `==` as written holds for equal vectors, and for unequal ones only when they share one coordinate |
| Geometry.EqualsIsIdentity | modules/geometry.py:288 | the intended `==` holds exactly for equal vectors, and implies the written one |
| Geometry.Vector.constructor | modules/geometry.py:253-256 | a new vector has the given coordinates |
| Geometry.Vector.Assign | modules/geometry.py:210-213 | `assign` copies the other vector's coordinates |
| Geometry.Vector.Combine | modules/geometry.py:114-128 | the in-place operators make the vector `v op other`, and on an error change nothing |
| Geometry.Vector.Interpolate | modules/geometry.py:227-231 | `interpolate` moves the vector to the interpolated point |
| Geometry.Vector.Project | modules/geometry.py:233-237 | `project` replaces the vector by its projection, parallel to the axis; onto the null axis it raises and changes nothing |
| Geometry.ContainsIsInsideSwapped | modules/geometry.py:625-655 | `a.contains(b)` exactly when `b.inside(a)` |
| Geometry.TouchingSymmetric | modules/geometry.py:633-647 | `touching` and `outside` do not depend on the order of the rectangles |
| Geometry.TouchingIsOverlap | modules/geometry.py:638-647 | two rectangles touch exactly when their closed extents overlap on both axes |
| Geometry.ContainsTouches | modules/geometry.py:625-655 | a rectangle touches every rectangle of non-negative size it contains, and contains and is inside itself |
| Geometry.Rect.Inside | modules/geometry.py:625-631 | `a.inside(b)` holds exactly when `b.contains(a)` |
| Geometry.Rect.Contains | modules/geometry.py:649-655 | a rectangle that contains another of non-negative size also touches it |
| Geometry.Rect.Touching | modules/geometry.py:638-647 | the four early returns of `touching` amount to the closed extents overlapping on both axes, edges included |
| Geometry.Rect.Outside | modules/geometry.py:633-636 | `a.outside(b)` holds exactly when `b` does not touch `a` |
| Geometry.Rect.Grown | modules/geometry.py:602-607 | growing by a padding pushes every side out by it and keeps the center |
| Geometry.Rect.Displaced | modules/geometry.py:613-617 | displacing moves the top-left corner by the vector and keeps the size |
| Geometry.GrowThenShrink | modules/geometry.py:602-611 | `shrink` undoes `grow` and `grow` undoes `shrink` |
| Geometry.Rect.Shrunk | modules/geometry.py:764-767 | `get_shrunk(p)` grown again by `p` gives back the original rectangle |
| Geometry.GrownContains | modules/geometry.py:602-611 | growing by a non-negative padding gives a rectangle containing the original, and shrinking one inside it |
| Geometry.DisplaceRoundTrip | modules/geometry.py:488-508 | `(r + v) - v == r`, and displacing two rectangles together keeps which contains which |
| Geometry.FromSides | modules/geometry.py:534-537 | `from_sides` has the given top-left and bottom-right corners |
| Geometry.SidesRoundTrip | modules/geometry.py:534-537 | a rectangle rebuilt from its four sides is itself |
| Geometry.FromCorners | modules/geometry.py:539-547 | `from_corners` spans the two points, whichever opposite corners they are, with a size that is never negative |
| Geometry.CornersRoundTrip | modules/geometry.py:539-547 | the order of the corners does not matter, and a rectangle of non-negative size is rebuilt from its opposite corners |
| Geometry.FromSize | modules/geometry.py:514-528 | `from_size` and `from_square` sit at the origin with the given size |
| Geometry.FromVector | modules/geometry.py:559-562 | `from_vector` is the empty rectangle all of whose points are the given point |
| Geometry.FromWidth | modules/geometry.py:518-520 | `from_width` has the given width and a height of the ratio times it |
| Geometry.FromHeight | modules/geometry.py:522-524 | `from_height` has the given height and a width of the ratio times it |
| Geometry.FromCenter | modules/geometry.py:554-557 | `from_center` has the given size with the point at its center |
| Geometry.Least | modules/geometry.py:586 | `min` gives an argument no greater than any other |
| Geometry.Greatest | modules/geometry.py:588 | `max` gives an argument no less than any other |
| Geometry.FromUnion | modules/geometry.py:583-590 | `from_union` of no rectangles raises, and otherwise contains every input |
| Geometry.UnionIsSmallest | modules/geometry.py:583-590 | every rectangle containing all the inputs contains their union |
| Geometry.FromIntersection | modules/geometry.py:592-599 | `from_intersection` of no rectangles raises, and otherwise is inside every input |
| Geometry.IntersectionIsLargest | modules/geometry.py:592-599 | every rectangle inside all the inputs is inside their intersection |
| Geometry.FromPoints | modules/geometry.py:564-570 | `from_points` of no points raises, and otherwise contains every point |
| Geometry.Clamp | modules/geometry.py:917-921 | `clamp` keeps a value inside the range, moves one outside to the nearer end, and gives `low` when the range is empty |
| Geometry.Rectangle.constructor | modules/geometry.py:470-474 | a new rectangle stores the four given numbers |
| Geometry.Rectangle.Grow | modules/geometry.py:602-607 | `grow` makes the rectangle its grown copy |
| Geometry.Rectangle.Shrink | modules/geometry.py:609-611 | `shrink` makes the rectangle its shrunk copy |
| Geometry.Rectangle.Displace | modules/geometry.py:613-617 | `displace` makes the rectangle its displaced copy |
| Geometry.Rectangle.SetX | modules/geometry.py:770-777 | `set_left`, `set_center_x` and `set_right` put that edge or center at the value and keep the size and the vertical position |
| Geometry.Rectangle.SetY | modules/geometry.py:779-786 | `set_top`, `set_center_y` and `set_bottom` do the same vertically |
| Geometry.Rectangle.SetSize | modules/geometry.py:788-796 | the size setters keep the top-left corner |
| Geometry.Rectangle.SetAt | modules/geometry.py:799-842 | the nine point setters put that point of the rectangle at the given point and keep the size |
| Geometry.Rectangle.AlignX | modules/geometry.py:658-668 | `align_left`, `align_center_x` and `align_right` line that edge or center up with the target's |
| Geometry.Rectangle.AlignY | modules/geometry.py:670-680 | `align_top`, `align_center_y` and `align_bottom` do the same vertically |
| Timers.Tick | kxg/tools.py:15-27 | an expired timer, or one already past its duration, is left alone; otherwise the time is added, and the callbacks fire exactly when this call takes the total past the duration, which expires the timer; at modules/tools.py lines 25-37: the copy in modules/tools.py updates the same way |
| Timers.ExpiredIsFinal | kxg/tools.py:15-17 | once expired, any number of `update` calls changes nothing and fires nothing |
| Timers.FiresAtMostOnce | kxg/tools.py:15-27 | over any run of updates the callbacks fire at most once, never for an expired timer, and a run that fires them leaves it expired |
| Timers.FiresWhenTotalExceeds | kxg/tools.py:19-27 | for a running timer and times that are not negative, the callbacks fire exactly when the total time exceeds the duration |
| Timers.SumNonNegative | kxg/tools.py:22 | times that are not negative add up to a total that is not negative |
| Timers.FirstIndex | kxg/tools.py:43 | `list.remove` deletes the first occurrence |
| Timers.RemoveFirst | kxg/tools.py:42-43 | `unregister` raises for a callback not registered and otherwise removes exactly one occurrence of it |
| Timers.RegisterThenUnregister | kxg/tools.py:39-43 | unregistering a callback just registered undoes the registration; for one registered before, the earlier entry goes, so it moves to the end |
| Timers.Timer.constructor | kxg/tools.py:7-13 | a new timer has the duration and callbacks, no elapsed time, and is neither expired nor paused; at modules/tools.py lines 5-11: the copy in modules/tools.py starts the same way |
| Timers.Timer.Update | kxg/tools.py:15-27 | `update` as written advances the clock as `Tick` says and calls every callback, in order, exactly when this call expired the timer; it never reads `paused`; at modules/tools.py lines 25-37: the copy in modules/tools.py updates the same way |
| Timers.PausableTick | kxg/tools.py:15-34 | the intended `update` leaves a paused timer's clock alone and fires nothing, and is `update` otherwise |
| Timers.PausableRunSpec | kxg/tools.py:15-34 | any run of intended updates while paused changes nothing and fires nothing; while running it is the run of `update` |
| Timers.Timer.UpdateUnlessPaused | kxg/tools.py:15-34 | the intended `update`: the clock moves as `PausableTick` says, the callbacks fire only when that says so, and the pause flag is kept |
| Timers.PauseThenUpdateAsWritten | kxg/tools.py:15-34 | as written, a paused timer given more than its duration still calls its callback |
| Timers.PauseThenUpdate | kxg/tools.py:15-34 | with the pause respected, the same sequence calls nothing and the timer has not expired |
| Timers.Timer.Restart | kxg/tools.py:29-31 | `restart` clears the elapsed time and the expired flag and keeps the duration and callbacks |
| Timers.Timer.Pause | kxg/tools.py:33-34 | `pause` sets `paused`, and raises TypeError once `unpause` has replaced it |
| Timers.Timer.UnpauseAsWritten | kxg/tools.py:36-37 | as written, `unpause` replaces the `pause` method by False and leaves `paused` set |
| Timers.Timer.Unpause | kxg/tools.py:36-37 | the intended `unpause` clears `paused` |
| Timers.Timer.Register | kxg/tools.py:39-40 | `register` appends the callback; at modules/tools.py lines 13-14: the copy in modules/tools.py appends the same way |
| Timers.Timer.Unregister | kxg/tools.py:42-43 | `unregister` removes the first occurrence, or raises with nothing changed; at modules/tools.py lines 16-17: the copy in modules/tools.py removes the same way |
| Timers.Timer.HasExpired | kxg/tools.py:45-46 | once `has_expired` holds, `update` changes nothing and fires nothing, whatever time it is given |
| Timers.PauseUnpauseAsWritten | kxg/tools.py:33-37 | as written, after `pause` then `unpause` the timer is still paused, and a second `pause` raises; at modules/tools.py lines 19-23: the copy in modules/tools.py has the same defect |
| Timers.PauseUnpause | kxg/tools.py:33-37 | with `unpause` corrected, the timer is no longer paused and `pause` works again |
| Guess.CheckPick | demos/guess_my_number.py:40-42 | `PickNumber.on_check` accepts exactly the numbers strictly between the bounds |
| Guess.DrawIsChecked | demos/guess_my_number.py:35-42 | `randint(lower + 1, upper - 1)` draws exactly the numbers `on_check` accepts |
| Guess.Picked | demos/guess_my_number.py:44-47 | after a checked pick the secret number lies strictly between the bounds, and the winner is unchanged |
| Guess.Guessed | demos/guess_my_number.py:64-73 | `GuessNumber.on_execute` never changes the number; the right guess makes the player the winner and ends the game, and a wrong one leaves the winner and the game state alone |
| Guess.GuessOutcome | demos/guess_my_number.py:64-73 | the right guess makes the guesser the winner and ends the game; a wrong guess keeps the number bracketed and changes neither; the number never changes and the bounds only tighten |
| Guess.WrongGuessBound | demos/guess_my_number.py:69-73 | a low guess moves only the lower bound and a high guess only the upper, each to the tighter of the guess and the old bound |
| Guess.InRangeGuessNarrows | demos/guess_my_number.py:164-172 | a wrong guess drawn, as the AI draws it, strictly between the bounds removes at least one candidate |
| Guess.PlayKeepsBracket | demos/guess_my_number.py:57-73 | over any guesses the number stays bracketed and the bounds only tighten, and once the number is guessed the game is over and won by the guesser |
| Guess.World.constructor | demos/guess_my_number.py:13-18 | the world starts with number, bounds and winner all 0, and the game not over |
| Guess.World.ExecutePick | demos/guess_my_number.py:44-47 | `PickNumber.on_execute` stores the number and the bounds |
| Guess.World.ExecuteGuess | demos/guess_my_number.py:64-73 | `GuessNumber.on_execute` updates the world as `Guessed` says |

## Left out

The current engine (kxg/):

- Nested observers are not modelled. `_get_nested_observers` (kxg/actors.py:66-68, kxg/world.py:188) and the extension accessors `has_extension`, `get_extension` and `get_extensions` are left out, so callbacks reach only the observer itself. Extensions are built (TokenWorld.Token.CreateExtensions, TokenWorld.World.AddToken) as values naming their class and actor. Their constructors do not run.
- TokenWorld.AddCheck and TokenWorld.World.AddToken: check the registration as evidently intended, where kxg/world.py as written fails on every token (see Findings; the as-written behaviour is TokenWorld.AddTokenAsWrittenRefusesAll).
- Forums.Forum.Attach and Forums.Forum.ConnectEveryone: call the world's `set_actors`, where kxg/forums.py:180 calls the undefined `_set_actors` (see Findings; the as-written behaviour is Forums.Forum.AttachAsWritten). ConnectEveryone requires a world that is unlocked and holds itself, which both callers of `connect_everyone` establish by unlocking it first (kxg/theater.py:137-138, kxg/stages.py:79-80); Attach itself models the ApiUsageError a locked world raises.
- kxg/errors.py defines only `KxgError`, `MessageSenderError`, `ImmutableMessageError`, `StaleReporterError`, `UnhandledSyncError` and `TokenWatchingError`. The `debug_only` decorator used at kxg/tokens.py:26, kxg/messages.py:202, kxg/actors.py:184, kxg/forums.py:394 and kxg/world.py:193, and the errors `ApiUsageError`, `CantPickleWorld`, `TheaterAlreadyPlaying` and `MessageAlreadySent` the core raises, are defined nowhere, so importing any of these modules as written raises NameError at its first `@debug_only`. The model treats the decorated `require_*` checks as absent and gives each raised error as a variant of its error datatypes (`UnsafeInvocation`, `CantPickleWorld`, and so on); the `before_world` ImportError is in Findings.
- Observers.ForumObserver.CallCallbacks: covers an observer without nested observers, for the reason above.
- TokenWorld.Token.WatchMethod: replacing a bound method at run time is modelled as a map from attribute names to `WatchedMethod` objects. Calling a method is TokenWorld.Token.Invoke, which returns the calls made in order instead of making them.
- User hooks are not modelled as code: `on_check`, `on_execute`, `on_undo`, `on_*_sync_error`, `on_add_to_world`, `on_report_to_referee`, the stage hooks and message handlers. Each is a parameter (accepts, handled) or an event in the forum's log.
- Tokens have no `reset_registration`, which the hard-sync undo calls (kxg/messages.py:193). TokenWorld.Token.ResetRegistration follows the behaviour the tests expect of `reset_participation` (tests/20_test_tokens.py:113-153).
- Messages.Message.Execute: characterizes the world only when `CanExecute` holds, that is, every token to add is new and every token to remove is present. When a later token fails, the partly executed state is only shown to be valid.
- Forums.Actor.SendMessage: needs the forum's world, when there is one, to be valid. That is the world invariant every other operation keeps; the source has no such check.
- kxg/multiplayer.py calls message methods that kxg/messages.py does not define: `_was_sent_by`, `_prepare_sync`, `_set_server_response_id`, `_set_server_response`, `_get_server_response_id` and `_get_server_response` (kxg/multiplayer.py:53, 54, 156, 168, 174, 234, 252, 289, 308), and `_sync` and `_undo` (kxg/multiplayer.py:87, 110). As written each call raises AttributeError. The model takes what the first six answer as parameters and records the last two as events. The world's `_react_to_*_sync_error` are defined, by ForumObserver (kxg/forums.py:79-83).
- Multiplayer: the `on_start_game`/`on_finish_game` serializer push/pop and the pipe's `deliver`/`lock` are left out. `RemoteActor.send_message` and `ServerActor.send_message` (kxg/actors.py:82-83, kxg/multiplayer.py:215-216) take no message, so a call with one raises TypeError before the NotImplementedError they were written to raise. Which of the two exceptions is raised is left out: Forums.Actor.SendMessage gives both as its `RemoteCannotSend` error.
- Multiplayer.ClientForum: its `dispatch_soft_sync_error` and `dispatch_hard_sync_error` (kxg/multiplayer.py:66-118) are recorded as the events `SoftSynced` and `HardSynced`. What they do to the world is not modelled, because they run through the undefined `_sync` and `_undo`. Forums.Forum.DispatchSoftSyncError and Forums.Forum.DispatchHardSyncError model the base forum's handlers (kxg/forums.py:263-315), which call `_handle_soft_sync_error` and `_handle_hard_sync_error` instead.
- kxg/theater.py: `PygletTheater` and `exit_theater` drive pyglet windows and are left out. Whether a stage has finished is a parameter.
- kxg/theater.py: `GameStage` (kxg/theater.py:116-194) wires the world, the forum and the actors. Its first step, connecting everyone inside an unlock block (kxg/theater.py:137-138), is Forums.ConnectInStage. The rest is left out: the `on_start_game`, `on_update_game` and `on_finish_game` calls in their order, and the uniplayer and multiplayer stages built on it. As written, `on_update_stage` calls `self.world.is_game_over()` (kxg/theater.py:171), which kxg/world.py does not define (it has `has_game_ended`), so the first update of a game stage raises AttributeError.
- Pickling across the pipe is left out: remote actors and forums exchange message values, not bytes. The state `__getstate__` and `__setstate__` keep is modelled (Messages.GetState, Messages.SetState, Messages.PickleRoundTrip, TokenWorld.World.GetState).

The older engine (kxg/engine/):

- LegacyTokens.World.constructor: does not model the call to `_configure_observer` (kxg/engine/token_and_world.py:301, 371), a method no class of the older engine defines. As written it raises AttributeError.
- LegacyTokens.World.AddToken: leaves out the same `_configure_observer` call and the extension setup that follows it.
- The older `watch_method` (kxg/engine/token_and_world.py:209-234) names an undefined variable `token`, and is left out.
- The `__metaclass__` attribute of the older token class has no effect under Python 3. LegacyTokens models the checks it would install, as the source intends.
- LegacyForums.Actor.SendMessage: requires a connected actor, one with a world, a forum and an id factory. Before connection the source fails on a `None` attribute.
- LegacyForums: `connect_everyone`'s pipe handshake, `RemoteActor.is_finished`, the start/finish serializers, `copy()`, the `handle_message` decorators and `Referee.on_update_game`'s reporter are left out. They are I/O or repeat what the current engine's model covers.

The oldest engine (modules/engine.py):

- ModulesEngine: the network loops of `ClientForum` (modules/engine.py:684-745) and `RemoteActor` (579-621) are left out. So are `Stage`, `GameStage`, `Loop`, `MultiplayerDebugger`, the `Subscriber` classes, `Prototype` and `TokenSerializer`.
- ModulesEngine: its token metaclass and `check_for_safety` repeat the older engine's, which LegacyTokens models.
- ModulesEngine: the message `check`/`setup`/`accept`/`reject`/`notify` hooks are user code and are recorded as events. Token extension setup and teardown in `add_token`/`remove_token` are left out.

Networking, input and tools:

- Network: the socket calls (`connect_ex`, `accept`, `send`, `recv`) are parameters, namely the bytes a call accepts or returns.
- Network: `recv`'s inner loop until EAGAIN is one chunk per `Receive`. `teardown` is left out.
- Network: the base `Client.pack`/`unpack` raise NotImplementedError and are left out. `PickleClient` (modules/network.py:333-347) is left out; only `RawClient` is modelled.
- Network: callbacks that raise are not modelled. A callback is recorded as called.
- KeyChains: the `verbose` printing, `Node.__eq__`/`__repr__`/`__str__` and `Lense.get_name`/`get_manager` are left out. Callbacks are recorded in `fired` instead of being called.
- GuiTables: the pygame key and event constants are not modelled. Only the mouse table is written out, and the lemmas hold for any table. The duplicated `Keychain` in modules/gui.py is modelled by KeyChains.
- MapQueue.PriorityQueue: an `IndexedPQ` compares by a weights dict. The model uses a rank function that `Reweigh` changes.
- MapQueue.PriorityQueue.Push: keeps `Valid` only for an item not yet queued. Pushing a queued item again puts it in the heap twice while the set holds it once; only the heap order is then kept.
- MapGraph: `make_graph` is left out. It reads neighbours past the grid's edge, where negative indices wrap around and the far edge raises IndexError, and it needs `sqrt(2)`. Also left out: `get_all_edges`, `get_num_edges`, `get_neighbors`, `__iter__` and `__repr__`.
- MapSearch: `DepthFirstSearch`, `A_Star`, `Dijkstra` and the `Map` class are left out.
- MapSearch.SearchAlgorithm.Search, MapSearch.SearchAlgorithm.TargetFound, MapSearch.SearchAlgorithm.TargetNotFound and MapSearch.SearchAlgorithm.BreadthFirstSearch: these supply the names kxg/misc/map.py never imports. The clock reading `time.time()` is a parameter, and the dummy `graph.Edge(source, source)` is the module's own edge. As written, each raises NameError (see Findings and the `AsWritten` members beside them).
- MapSearch.SearchAlgorithm.TargetFound: where the source would loop forever on records that cycle, the model reports `RouteLoops` instead.
- MapSearch.SearchAlgorithm.BreadthFirstSearch: does not prove that a search that fails means the target is unreachable. It proves that a route it finds is a route.
- Geometry.LeftSide and Geometry.RightSide: `other is 0` (modules/geometry.py:85, 107, 124) is an identity test that holds for the int 0 but not for a float `0.0` in Python 2. The model has only reals, so its scalar `0.0` stands for the int 0, and a float zero is not told apart from it.
- Geometry: square roots, angles and trigonometry are left out: `magnitude`, `normalize`, `scale`, `get_normal`, `get_orthonormal`, `get_distance` and the radian/degree accessors. Also left out are `Vector.random`, the `%`, `**` and `//` operators, `circle_touching_line` and the pygame conversions. Real numbers stand for floats.
- Timers: callbacks are recorded in the list `Update` returns instead of being called. Real numbers stand for floats.
- Guess: the GUI, the AI's random draws and its waiting timer are parameters. `end_game` is the `over` flag.

## Findings

| source | as written | input that shows it | evidently intended | confidence | as-written member | corrected member |
|---|---|---|---|---|---|---|
| kxg/forums.py:99-110 | `_drop_callback` reads the missing attribute `self.callbacks`, and its filter keeps the entries that match instead of dropping them | unsubscribing any callback while observation is enabled raises AttributeError; with the attribute fixed, unsubscribing A from [A, B] keeps [A] | refill the list with the entries that do not match | high (not executed) | Observers.ForumObserver.DropCallbackAsWritten | Observers.ForumObserver.DropCallback |
| kxg/engine/forum_observer.py:80-84 | the same comprehension keeps the matching entries | unsubscribing A from [A, B] keeps [A] | keep the entries that do not match | high (not executed) | Observers.OnlyMatchesKeepsTheWrongEntries | Observers.ForumObserver.DropCallback |
| kxg/messages.py:52-53 | `was_sent_by_referee` tests `sender_id == 0` | on a fresh world the referee's factory has offset 1, so its messages carry sender id 1 | test the id the referee is given, 1 | high (not executed) | Messages.RefereeMessagesMisattributed | Messages.SentByRefereeIdentifiesReferee |
| kxg/messages.py:189-194 | the hard-sync undo re-reads `token.id` after `_execute` has cleared it, so the token is added back without an id | a message that removes a token, executed on the client and then rejected by the server: `_add_token` refuses the token | restore the removed tokens under the ids they had before removal | high (not executed) | Messages.Message.ExecuteThenUndoAsWritten | Messages.Message.ExecuteThenUndo |
| kxg/actors.py:155-171 | `Reporter.__init__` stores `None` instead of the referee | the first report inside `on_update_game`'s `with` block calls `None.send_message` | keep the referee | high (not executed) | Forums.ReportAsWritten | Forums.Report |
| kxg/engine/forum_and_actor.py:422-423 | `id % spacing == offset` compares a residue with the offset | with two actors, offsets 1 and 2 and spacing 2: the ids 2, 4, ... of the second factory give 0 | `id % spacing == offset % spacing` | high (not executed) | LegacyIds.LastActorsIdsNotMembers | IdFactories.NthIdIsMember |
| kxg/engine/message.py:138-139 | `CreateToken.on_check` calls `sender.is_token_from_me`, but the actors pass their IdFactory, which has no such method | any new token created by a connected actor | test membership of the token's id in the sender's factory | medium (not executed) | LegacyMessages.Message.CheckAsWritten | LegacyMessages.Message.Check |
| kxg/misc/map.py:242-246 | `(child - 1) / 2` is a float under Python 3 and indexes a list | pushing a second item: `heap[0.0]` raises TypeError | integer division `//` | high (not executed) | MapQueue.PushAsWrittenRaises | MapQueue.Parent |
| kxg/misc/map.py:255-258 | `_drip` stops at `len - 1`, so a child in the last slot is never compared | push 1, 2, 3 (with the `//` correction of the row above, without which the second push raises) and pop: the heap becomes [3, 2] and the next pop gives 3 | loop while `child < len(heap)` | high (not executed) | MapQueue.PopAsWrittenBreaksOrder | MapQueue.PriorityQueue.Pop |
| kxg/tools.py:36-37 | `unpause` assigns `self.pause = False` | pause, unpause: still paused, and a second `pause()` raises TypeError | `self.paused = False` | high (not executed) | Timers.PauseUnpauseAsWritten | Timers.PauseUnpause |
| modules/tools.py:22-23 | the same `self.pause = False` | pause, unpause: still paused, and a second `pause()` raises TypeError | `self.paused = False` | high (not executed) | Timers.PauseUnpauseAsWritten | Timers.PauseUnpause |
| modules/geometry.py:270-272, 288 | `__eq__` is the left-side overload of `operator.eq`: it builds a vector of two booleans, which is true when either coordinate agrees | `Vector(0, 1) == Vector(0, 2)` is true | both coordinates equal | high (not executed) | Geometry.EqualsAsWrittenConfuses | Geometry.EqualsIsIdentity |
| kxg/world.py:6, 132-137 | the module imports `before_world`, which kxg/tokens.py does not define; `_add_token` reads `token.world_registration`, which no token defines, and calls `token.has_id()` although `has_id` is a property | importing kxg/world.py raises ImportError; with that repaired, adding any token raises AttributeError, and with the attribute defined, adding a pending token raises TypeError | derive the registration from `_world` and `_removed_from_world`, and read `has_id` without calling it | high (not executed) | TokenWorld.AddTokenAsWrittenRefusesAll | TokenWorld.AddCheck |
| kxg/forums.py:180 | `connect_everyone` calls `self.world._set_actors(actors)`, but kxg/world.py:58 defines `set_actors` | any `connect_everyone` raises AttributeError after the forum has kept the world, with no actor connected | call `set_actors` | high (not executed) | Forums.Forum.AttachAsWritten | Forums.Forum.Attach |
| kxg/misc/map.py:314, 329, 337, 387 | the module has no import statement, yet it calls `time.time()` and builds `graph.Edge(source, source)` | any `BreadthFirstSearch().search(map)` raises NameError at `time.time()` before exploring | `import time`, and build the dummy edge with the module's own `Edge` | high (not executed) | MapSearch.SearchAlgorithm.BreadthFirstSearchAsWritten | MapSearch.SearchAlgorithm.BreadthFirstSearch |
| kxg/tools.py:15-34 | `pause` sets `paused`, but `update` never reads it, and neither does the copy in modules/tools.py | `Timer(1.0, f)`, `pause()`, `update(2.0)`: `f` is called and the timer expires | a paused timer ignores the time it is given | medium (not executed) | Timers.PauseThenUpdateAsWritten | Timers.Timer.UpdateUnlessPaused |
