/** The theater of kxg/theater.py: it holds the current stage, enters the
    initial stage on its first update, and hands over to each finished
    stage's successor.  The stage hooks (`on_enter_stage`,
    `on_update_stage`, `on_exit_stage`) are recorded as events; whether an
    update calls `exit_stage` is a parameter of `Update`. */
module Theaters {
  import opened Wrappers

  /** `TheaterAlreadyPlaying`, and the `AttributeError` an update raises
      when there is neither a current nor an initial stage. */
  datatype TheaterError = TheaterAlreadyPlaying | NoInitialStage

  /** A call of one of a stage's hooks. */
  datatype StageEvent = Entered(stage: Stage) | Updated(stage: Stage) | Exited(stage: Stage)

  /** `Stage`. */
  class Stage {
    var theater: Theater?
    var successor: Stage?
    var isFinished: bool

    constructor ()
      ensures theater == null && successor == null && !isFinished
    {
      theater := null;
      successor := null;
      isFinished := false;
    }

    /** `exit_stage`: the stage stops once the current update ends. */
    method ExitStage()
      modifies this
      ensures isFinished
      ensures theater == old(theater) && successor == old(successor)
    {
      isFinished := true;
    }
  }

  /** The stage the events leave open: the last one entered, unless it
      has been exited since. */
  function OpenStage(events: seq<StageEvent>): Option<Stage>
  {
    if events == [] then None
    else
      var rest := OpenStage(events[..|events| - 1]);
      match events[|events| - 1]
      case Entered(s) => Some(s)
      case Updated(_) => rest
      case Exited(_) => None
  }

  /** Stages are entered one at a time: a stage is entered only when no
      stage is open, and updated and exited only while it is the open
      one. */
  ghost predicate Bracketed(events: seq<StageEvent>)
  {
    events == [] ||
    (var prefix := events[..|events| - 1];
     Bracketed(prefix) &&
     match events[|events| - 1]
     case Entered(_) => OpenStage(prefix).None?
     case Updated(s) => OpenStage(prefix) == Some(s)
     case Exited(s) => OpenStage(prefix) == Some(s))
  }

  /** Every prefix of well-bracketed events is well bracketed. */
  lemma {:induction false} BracketedPrefix(events: seq<StageEvent>, n: nat)
    requires Bracketed(events) && n <= |events|
    ensures Bracketed(events[..n])
    decreases |events|
  {
    if n < |events| {
      var m := |events| - 1;
      assert events[..m][..n] == events[..n];
      BracketedPrefix(events[..m], n);
    } else {
      assert events[..n] == events;
    }
  }

  /** Every hook call on a stage after its `on_enter_stage` and before its
      `on_exit_stage`: each update or exit of a stage happens while that
      stage is open. */
  lemma HookCalledWhileOpen(events: seq<StageEvent>, i: nat)
    requires Bracketed(events) && i < |events| && !events[i].Entered?
    ensures OpenStage(events[..i]) == Some(events[i].stage)
  {
    BracketedPrefix(events, i + 1);
    assert events[..i + 1][..i] == events[..i];
  }

  /** The open stage was entered, and has not been exited since. */
  lemma {:induction false} OpenStageWasEntered(events: seq<StageEvent>, s: Stage)
    requires OpenStage(events) == Some(s)
    ensures exists j :: 0 <= j < |events| && events[j] == Entered(s) &&
                        forall k :: j < k < |events| ==> !events[k].Exited?
  {
    var m := |events| - 1;
    var prefix := events[..m];
    if events[m].Entered? {
      assert events[m] == Entered(s);
    } else {
      OpenStageWasEntered(prefix, s);
      var j :| 0 <= j < |prefix| && prefix[j] == Entered(s) &&
               forall k :: j < k < |prefix| ==> !prefix[k].Exited?;
      assert events[j] == Entered(s);
      forall k | j < k < |events|
        ensures !events[k].Exited?
      {
        if k < m {
          assert events[k] == prefix[k];
        }
      }
    }
  }

  /** `Theater`. */
  class Theater {
    var initialStage: Stage?
    var currentStage: Stage?
    /** The stage hooks called so far, in order. */
    var events: seq<StageEvent>

    /** The hook calls are well bracketed, the open stage is the current
        one, and the current stage knows its theater. */
    ghost predicate Valid()
      reads this, currentStage
    {
      Bracketed(events) &&
      OpenStage(events) == (if currentStage == null then None else Some(currentStage)) &&
      (currentStage != null ==> currentStage.theater == this)
    }

    constructor (initial: Stage?)
      ensures Valid()
      ensures initialStage == initial && currentStage == null && events == []
    {
      initialStage := initial;
      currentStage := null;
      events := [];
    }

    /** The stage an update would hand over to if the stage it updates
        finishes. */
    function NextStage(): Stage?
      reads this, currentStage, initialStage
    {
      if currentStage != null then currentStage.successor
      else if initialStage != null then initialStage.successor else null
    }

    /** The stages an update may touch: the current or the initial stage,
        and the stage it may hand over to. */
    function Involved(): set<Stage>
      reads this, currentStage, initialStage
    {
      (if currentStage != null then {currentStage} else {}) +
      (if initialStage != null then {initialStage} else {}) +
      (if NextStage() != null then {NextStage()} else {})
    }

    /** The `initial_stage` setter: refused while a stage is playing. */
    method SetInitialStage(stage: Stage?) returns (r: Outcome<TheaterError>)
      modifies this
      ensures r.Fail? <==> old(currentStage) != null
      ensures r.Fail? ==> r.error == TheaterAlreadyPlaying && initialStage == old(initialStage)
      ensures r.Pass? ==> initialStage == stage
      ensures currentStage == old(currentStage) && events == old(events)
    {
      if currentStage != null {
        return Fail(TheaterAlreadyPlaying);
      }
      initialStage := stage;
      r := Pass;
    }

    /** `update`: with no stage playing, the initial stage becomes current
        and is entered; the current stage is updated (`finishes` says
        whether its `on_update_stage` calls `exit_stage`); a finished stage
        is exited and its successor, if any, becomes current and is
        entered. */
    method Update(finishes: bool) returns (r: Outcome<TheaterError>)
      requires Valid()
      modifies this, Involved()`theater, Involved()`isFinished
      ensures Valid()
      ensures initialStage == old(initialStage)
      ensures r.Fail? <==> old(currentStage) == null && old(initialStage) == null
      ensures r.Fail? ==> r.error == NoInitialStage && currentStage == null && events == old(events)
      ensures r.Pass? ==>
                var s := if old(currentStage) != null then old(currentStage) else old(initialStage);
                s.isFinished == (old(s.isFinished) || finishes) &&
                currentStage == (if s.isFinished then old(s.successor) else s) &&
                events == old(events) + (if old(currentStage) == null then [Entered(s)] else []) +
                            PlayCalls(s, s.isFinished, old(s.successor))
    {
      if currentStage == null {
        if initialStage == null {
          return Fail(NoInitialStage);
        }
        currentStage := initialStage;
        currentStage.theater := this;
        Record(Entered(currentStage));
      }
      Play(finishes);
      r := Pass;
    }

    /** The part of `update` after a stage is current: update it, and hand
        over to its successor if it has finished. */
    method Play(finishes: bool)
      requires Valid() && currentStage != null
      modifies this, currentStage`isFinished, {currentStage.successor}`theater
      ensures Valid()
      ensures initialStage == old(initialStage)
      ensures var s := old(currentStage);
              s.isFinished == (old(s.isFinished) || finishes) &&
              currentStage == (if s.isFinished then old(s.successor) else s) &&
              events == old(events) + PlayCalls(s, s.isFinished, old(s.successor))
    {
      var s := currentStage;
      if finishes {
        s.isFinished := true;
      }
      Record(Updated(s));
      if s.isFinished {
        Record(Exited(s));
        currentStage := s.successor;
        if currentStage != null {
          currentStage.theater := this;
          Record(Entered(currentStage));
        }
      }
    }

    /** Record one hook call, keeping the calls well bracketed. */
    method Record(e: StageEvent)
      requires Bracketed(events)
      requires if e.Entered? then OpenStage(events).None? else OpenStage(events) == Some(e.stage)
      modifies this`events
      ensures events == old(events) + [e] && Bracketed(events)
      ensures OpenStage(events) == (if e.Entered? then Some(e.stage) else if e.Exited? then None else OpenStage(old(events)))
    {
      Extend(events, e);
      events := events + [e];
    }

    /** `exit`: the current stage's `on_exit_stage` is called, and it stays
        current. */
    method Exit()
      modifies this
      ensures currentStage == old(currentStage) && initialStage == old(initialStage)
      ensures events == old(events) + if currentStage == null then [] else [Exited(currentStage)]
    {
      if currentStage != null {
        events := events + [Exited(currentStage)];
      }
    }
  }

  /** The hooks one update calls on the stage it updates: `on_update_stage`,
      then, if the stage has finished, its `on_exit_stage` and its
      successor's `on_enter_stage`. */
  function PlayCalls(s: Stage, finished: bool, next: Stage?): seq<StageEvent>
  {
    [Updated(s)] + if !finished then [] else [Exited(s)] + if next == null then [] else [Entered(next)]
  }

  /** One hook call more: it keeps the calls well bracketed when it is
      allowed by the open stage, and it opens, keeps or closes that
      stage. */
  lemma Extend(events: seq<StageEvent>, e: StageEvent)
    requires Bracketed(events)
    requires if e.Entered? then OpenStage(events).None? else OpenStage(events) == Some(e.stage)
    ensures Bracketed(events + [e])
    ensures OpenStage(events + [e]) == (if e.Entered? then Some(e.stage) else if e.Exited? then None else OpenStage(events))
  {
    assert (events + [e])[..|events|] == events;
  }

  /** Three new stages, each the successor of the one before. */
  method Chain() returns (s0: Stage, s1: Stage, s2: Stage)
    ensures fresh(s0) && fresh(s1) && fresh(s2) && s0 != s1 && s1 != s2 && s0 != s2
    ensures s0.successor == s1 && s1.successor == s2 && s2.successor == null
    ensures !s0.isFinished && !s1.isFinished && !s2.isFinished
  {
    s0 := new Stage();
    s1 := new Stage();
    s2 := new Stage();
    s0.successor := s1;
    s1.successor := s2;
  }

  /** Three stages chained by their successors, each finishing in its
      first update: three updates enter, update and exit each of them
      exactly once, in order, and leave the theater with no stage. */
  method ThreeStages() returns (t: Theater, s0: Stage, s1: Stage, s2: Stage)
    ensures t.events == [Entered(s0), Updated(s0), Exited(s0), Entered(s1), Updated(s1), Exited(s1),
                         Entered(s2), Updated(s2), Exited(s2)]
    ensures t.currentStage == null
  {
    s0, s1, s2 := Chain();
    t := new Theater(s0);
    var r;
    r := t.Update(true);
    assert t.currentStage == s1 && t.events == [Entered(s0), Updated(s0), Exited(s0), Entered(s1)];
    r := t.Update(true);
    assert t.currentStage == s2;
    assert t.events == [Entered(s0), Updated(s0), Exited(s0), Entered(s1), Updated(s1), Exited(s1), Entered(s2)];
    r := t.Update(true);
  }
}
