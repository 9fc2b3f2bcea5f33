/**
 The concurrent consume loop as a state machine over its atomic segments: the code between two
 awaits runs without interruption, and anything else may run in between. `Ref` stands for the
 identity of a Python set object: the loop rebinds `processing_tasks` to a new set after every
 wait, while the done-callbacks of older tasks stay bound to the set they were created with.
 */
module ConsumeLoop {

  /** Task identities, unique over a run. */
  type Task = nat

  /** Where the loop is suspended. `asyncio.wait` works on a snapshot of the set it is given. */
  datatype Phase = Fetching | Inline | Waiting(snapshot: set<Task>) | Ended

  datatype State<!Ref(==)> = State(
    running: bool,                 // the service flag that `stop` clears
    phase: Phase,
    current: Ref,                  // what `processing_tasks` refers to
    sets: map<Ref, set<Task>>,     // the contents of every set object
    bound: map<Task, Ref>,         // the set a task's callback discards from
    live: set<Task>,               // created and not finished
    finished: set<Task>,           // finished, callback still scheduled
    cancelRequested: set<Task>,
    endedCancelled: set<Task>)

  datatype Step<Ref> =
    | Deliver(task: Task)                       // a message arrives while fetching
    | InlineDone(ok: bool)                      // the sequential path returns or raises
    | Wake(pending: Ref, task: Task)            // `asyncio.wait` returns a new pending set
    | Finish(done: Task, cancelled: bool)
    | Callback(done: Task)
    | Stop
    | Interrupt                                 // the iterator ends or raises, or the loop is cancelled

  function Initial<Ref>(r: Ref): State<Ref> {
    State(true, Fetching, r, map[r := {}], map[], {}, {}, {}, {})
  }

  // ---------------------------------------------------------------- the steps

  /** Create a task for the message, add it to the current set and bind its callback to that set. */
  function Spawn<Ref>(s: State<Ref>, t: Task): State<Ref>
    requires s.current in s.sets
  {
    s.(phase := Fetching, live := s.live + {t}, bound := s.bound[t := s.current],
       sets := s.sets[s.current := s.sets[s.current] + {t}])
  }

  predicate Fresh<Ref>(s: State<Ref>, t: Task) {
    t !in s.bound && t !in s.live && t !in s.finished
  }

  predicate Enabled<Ref>(s: State<Ref>, step: Step<Ref>) {
    && s.current in s.sets
    && match step
       case Deliver(t) => s.phase.Fetching? && Fresh(s, t)
       case InlineDone(_) => s.phase.Inline?
       case Wake(r, t) => s.phase.Waiting? && !(s.phase.snapshot <= s.live) && r !in s.sets && Fresh(s, t)
       case Finish(t, _) => t in s.live
       case Callback(t) => t in s.finished && t in s.bound && s.bound[t] in s.sets
       case Stop => true
       case Interrupt => !s.phase.Ended?
  }

  function DeliverTo<Ref>(s: State<Ref>, maxWorkers: int, t: Task): State<Ref>
    requires s.current in s.sets
  {
    if !s.running then s.(phase := Ended)
    else if maxWorkers <= 1 then s.(phase := Inline)
    else if |s.sets[s.current]| >= maxWorkers then s.(phase := Waiting(s.sets[s.current]))
    else Spawn(s, t)
  }

  function WakeUp<Ref>(s: State<Ref>, maxWorkers: int, r: Ref, t: Task): State<Ref>
    requires s.phase.Waiting?
  {
    var pending := s.phase.snapshot * s.live;
    var done := s.phase.snapshot - s.live;
    var s' := s.(current := r, sets := s.sets[r := pending]);
    if done * s.endedCancelled != {} then s'.(phase := Ended)
    else if |pending| >= maxWorkers then s'.(phase := Waiting(pending))
    else Spawn(s', t)
  }

  function Apply<Ref>(s: State<Ref>, maxWorkers: int, step: Step<Ref>): State<Ref>
    requires Enabled(s, step)
  {
    match step
    case Deliver(t) => DeliverTo(s, maxWorkers, t)
    case InlineDone(ok) => s.(phase := if ok then Fetching else Ended)
    case Wake(r, t) => WakeUp(s, maxWorkers, r, t)
    case Finish(t, cancelled) =>
      s.(live := s.live - {t}, finished := s.finished + {t},
         endedCancelled := if cancelled then s.endedCancelled + {t} else s.endedCancelled)
    case Callback(t) =>
      s.(finished := s.finished - {t}, sets := s.sets[s.bound[t] := s.sets[s.bound[t]] - {t}])
    case Stop =>
      s.(running := false, cancelRequested := s.cancelRequested + s.sets[s.current] * s.live)
    case Interrupt => s.(phase := Ended)
  }

  /** The schedule is one the event loop can produce from `s`. */
  predicate Possible<Ref>(s: State<Ref>, maxWorkers: int, run: seq<Step<Ref>>)
    decreases |run|, 0
  {
    run == [] || (Possible(s, maxWorkers, Init(run)) && Enabled(After(s, maxWorkers, Init(run)), Last(run)))
  }

  function After<Ref>(s: State<Ref>, maxWorkers: int, run: seq<Step<Ref>>): State<Ref>
    requires Possible(s, maxWorkers, run)
    decreases |run|, 1
  {
    if run == [] then s else Apply(After(s, maxWorkers, Init(run)), maxWorkers, Last(run))
  }

  function Init<T>(run: seq<T>): seq<T>
    requires run != []
  {
    run[..|run| - 1]
  }

  function Last<T>(run: seq<T>): T
    requires run != []
  {
    run[|run| - 1]
  }

  // ---------------------------------------------------------------- the invariant

  ghost predicate Inv<Ref>(s: State<Ref>, maxWorkers: int) {
    && s.current in s.sets
    && (forall t | t in s.live + s.finished :: t in s.bound && s.bound[t] in s.sets)
    && s.live !! s.finished
    && s.cancelRequested + s.endedCancelled <= s.bound.Keys && s.live !! s.endedCancelled
    && s.live <= s.sets[s.current]
    && (maxWorkers <= 1 ==> s.sets[s.current] == {} && !s.phase.Waiting?)
    && (maxWorkers > 1 ==> |s.sets[s.current]| <= maxWorkers && !s.phase.Inline?)
    && (s.phase.Waiting? ==> s.live <= s.phase.snapshot && |s.phase.snapshot| == maxWorkers)
  }

  lemma SubsetSize<T>(a: set<T>, b: set<T>)
    requires a <= b
    ensures |a| <= |b| && (|a| == |b| ==> a == b)
  {
    assert b == a + (b - a);
    assert |b| == |a| + |b - a|;
  }

  lemma SpawnKeepsInv<Ref>(s: State<Ref>, maxWorkers: int, t: Task)
    requires Inv(s, maxWorkers) && s.phase.Fetching? && Fresh(s, t)
    requires |s.sets[s.current]| < maxWorkers && maxWorkers > 1
    ensures Inv(Spawn(s, t), maxWorkers)
  {
  }

  /** After a wait the pending set is exactly the running tasks, fewer than `maxWorkers`. */
  lemma WakeEndsThrottle<Ref>(s: State<Ref>, maxWorkers: int, r: Ref, t: Task)
    requires Inv(s, maxWorkers) && Enabled(s, Wake(r, t))
    ensures s.phase.snapshot * s.live == s.live && |s.live| < maxWorkers && maxWorkers > 1
  {
    assert s.phase.snapshot * s.live == s.live;
    SubsetSize(s.live, s.phase.snapshot);
  }

  lemma RebindKeepsInv<Ref>(s: State<Ref>, maxWorkers: int, r: Ref)
    requires Inv(s, maxWorkers) && r !in s.sets && |s.live| < maxWorkers && maxWorkers > 1
    ensures var s' := s.(current := r, sets := s.sets[r := s.live], phase := Fetching);
            Inv(s', maxWorkers) && Inv(s'.(phase := Ended), maxWorkers)
  {
  }

  lemma WakeKeepsInv<Ref>(s: State<Ref>, maxWorkers: int, r: Ref, t: Task)
    requires Inv(s, maxWorkers) && Enabled(s, Wake(r, t))
    ensures Inv(WakeUp(s, maxWorkers, r, t), maxWorkers)
    ensures !WakeUp(s, maxWorkers, r, t).phase.Waiting?
  {
    WakeEndsThrottle(s, maxWorkers, r, t);
    var s' := s.(current := r, sets := s.sets[r := s.live], phase := Fetching);
    RebindKeepsInv(s, maxWorkers, r);
    SpawnKeepsInv(s', maxWorkers, t);
    assert WakeUp(s, maxWorkers, r, t) == s'.(phase := Ended) || WakeUp(s, maxWorkers, r, t) == Spawn(s', t);
  }

  lemma StepKeepsInv<Ref>(s: State<Ref>, maxWorkers: int, step: Step<Ref>)
    requires Inv(s, maxWorkers) && Enabled(s, step)
    ensures Inv(Apply(s, maxWorkers, step), maxWorkers)
  {
    match step {
      case Wake(r, t) => WakeKeepsInv(s, maxWorkers, r, t);
      case Callback(t) =>
        SubsetSize(s.sets[s.current] - {t}, s.sets[s.current]);
      case _ =>
    }
  }

  lemma {:induction false} RunKeepsInv<Ref>(s: State<Ref>, maxWorkers: int, run: seq<Step<Ref>>)
    requires Inv(s, maxWorkers) && Possible(s, maxWorkers, run)
    ensures Inv(After(s, maxWorkers, run), maxWorkers)
    decreases |run|
  {
    if run != [] {
      RunKeepsInv(s, maxWorkers, Init(run));
      StepKeepsInv(After(s, maxWorkers, Init(run)), maxWorkers, Last(run));
    }
  }

  /**
   In every reachable state all running tasks are in the current set, however often the set was
   replaced under their callbacks, and at most `maxWorkers` of them run (none in sequential mode).
   */
  lemma ConcurrencyIsBounded<Ref>(r: Ref, maxWorkers: int, run: seq<Step<Ref>>)
    requires Possible(Initial(r), maxWorkers, run)
    ensures var s := After(Initial(r), maxWorkers, run);
            && s.current in s.sets && s.live <= s.sets[s.current]
            && (maxWorkers > 1 ==> |s.live| <= |s.sets[s.current]| <= maxWorkers)
            && (maxWorkers <= 1 ==> s.live == {})
  {
    RunKeepsInv(Initial(r), maxWorkers, run);
    var s := After(Initial(r), maxWorkers, run);
    SubsetSize(s.live, s.sets[s.current]);
  }

  /** A throttled message waits exactly while `maxWorkers` tasks run, and at most once. */
  lemma ThrottleIsExact<Ref>(r: Ref, maxWorkers: int, run: seq<Step<Ref>>, pending: Ref, t: Task)
    requires Possible(Initial(r), maxWorkers, run)
    requires After(Initial(r), maxWorkers, run).phase.Waiting?
    requires pending !in After(Initial(r), maxWorkers, run).sets && Fresh(After(Initial(r), maxWorkers, run), t)
    ensures var s := After(Initial(r), maxWorkers, run);
            && (Enabled(s, Wake(pending, t)) <==> |s.live| < maxWorkers)
            && (Enabled(s, Wake(pending, t)) ==> !Apply(s, maxWorkers, Wake(pending, t)).phase.Waiting?)
  {
    RunKeepsInv(Initial(r), maxWorkers, run);
    var s := After(Initial(r), maxWorkers, run);
    SubsetSize(s.live, s.phase.snapshot);
    assert s.phase.snapshot <= s.live ==> s.phase.snapshot == s.live;
    if Enabled(s, Wake(pending, t)) {
      WakeKeepsInv(s, maxWorkers, pending, t);
    }
  }

  // ---------------------------------------------------------------- shutdown

  /** Tasks a shutdown did not ask to stop. */
  function Missed<Ref>(s: State<Ref>): set<Task> {
    s.live - s.cancelRequested
  }

  lemma StopCancelsAll<Ref>(s: State<Ref>, maxWorkers: int)
    requires Inv(s, maxWorkers)
    ensures Missed(Apply(s, maxWorkers, Stop)) == {}
  {
  }

  /** After a stop: nothing is missed while the loop still waits, and never more than one task. */
  ghost predicate Stopped<Ref>(s: State<Ref>) {
    !s.running && |Missed(s)| <= 1 && (s.phase.Waiting? ==> Missed(s) == {})
  }

  /** The stronger form, for a loop that was not throttled when the stop came. */
  ghost predicate StoppedCleanly<Ref>(s: State<Ref>) {
    !s.running && Missed(s) == {} && !s.phase.Waiting?
  }

  lemma StepKeepsStopped<Ref>(s: State<Ref>, maxWorkers: int, step: Step<Ref>)
    requires Inv(s, maxWorkers) && Enabled(s, step)
    ensures Stopped(s) ==> Stopped(Apply(s, maxWorkers, step))
    ensures StoppedCleanly(s) ==> StoppedCleanly(Apply(s, maxWorkers, step))
  {
    var s' := Apply(s, maxWorkers, step);
    if step.Wake? {
      WakeEndsThrottle(s, maxWorkers, step.pending, step.task);
      assert Missed(s) == {} ==> Missed(s') <= {step.task};
      if Missed(s) == {} {
        SubsetSize(Missed(s'), {step.task});
      }
    } else if !s.running {
      assert Missed(s') <= Missed(s);
      SubsetSize(Missed(s'), Missed(s));
    }
  }

  lemma {:induction false} RunKeepsStopped<Ref>(s: State<Ref>, maxWorkers: int, run: seq<Step<Ref>>)
    requires Inv(s, maxWorkers) && Possible(s, maxWorkers, run)
    ensures Stopped(s) ==> Stopped(After(s, maxWorkers, run))
    ensures StoppedCleanly(s) ==> StoppedCleanly(After(s, maxWorkers, run))
    decreases |run|
  {
    if run != [] {
      RunKeepsInv(s, maxWorkers, Init(run));
      RunKeepsStopped(s, maxWorkers, Init(run));
      StepKeepsStopped(After(s, maxWorkers, Init(run)), maxWorkers, Last(run));
    }
  }

  /**
   Shutdown: at the moment of `stop` every in-flight task is asked to cancel. Afterwards no
   uncancelled task ever runs if the loop was not throttled at that moment, and at most one if
   it was: the running flag is only tested before the throttle.
   */
  lemma ShutdownReachesTasks<Ref>(r: Ref, maxWorkers: int, before: seq<Step<Ref>>, after: seq<Step<Ref>>)
    requires Possible(Initial(r), maxWorkers, before)
    requires var s := After(Initial(r), maxWorkers, before);
             Enabled(s, Stop) && Possible(Apply(s, maxWorkers, Stop), maxWorkers, after)
    ensures var s := After(Initial(r), maxWorkers, before);
            var s1 := Apply(s, maxWorkers, Stop);
            var s2 := After(s1, maxWorkers, after);
            && Missed(s1) == {} && |Missed(s2)| <= 1
            && (!s.phase.Waiting? ==> Missed(s2) == {})
  {
    var s := After(Initial(r), maxWorkers, before);
    RunKeepsInv(Initial(r), maxWorkers, before);
    StopCancelsAll(s, maxWorkers);
    StepKeepsInv(s, maxWorkers, Stop);
    RunKeepsStopped(Apply(s, maxWorkers, Stop), maxWorkers, after);
  }

  /** A wait that can return, with no cancelled task in its finished part, starts its message. */
  lemma ThrottledStopMissesOne<Ref>(s: State<Ref>, maxWorkers: int, r: Ref, t: Task)
    requires Inv(s, maxWorkers) && Enabled(s, Wake(r, t)) && Missed(s) == {}
    requires (s.phase.snapshot - s.live) * s.endedCancelled == {}
    ensures Missed(Apply(s, maxWorkers, Wake(r, t))) == {t}
  {
    WakeKeepsInv(s, maxWorkers, r, t);
    WakeEndsThrottle(s, maxWorkers, r, t);
  }

  /** Stopped, and whatever the loop still waits for is spoiled by a task that ended cancelled. */
  ghost predicate Clear<Ref>(s: State<Ref>) {
    && !s.running && Missed(s) == {}
    && (s.phase.Waiting? ==> (s.phase.snapshot - s.live) * s.endedCancelled != {})
  }

  lemma StepKeepsClear<Ref>(s: State<Ref>, maxWorkers: int, step: Step<Ref>)
    requires Inv(s, maxWorkers) && Enabled(s, step) && Clear(s)
    ensures Clear(Apply(s, maxWorkers, step))
  {
    var s' := Apply(s, maxWorkers, step);
    assert Missed(s') <= Missed(s);
    if s'.phase.Waiting? {
      assert s'.phase == s.phase;
      var t :| t in (s.phase.snapshot - s.live) * s.endedCancelled;
      assert t in (s'.phase.snapshot - s'.live) * s'.endedCancelled;
    }
  }

  lemma {:induction false} RunKeepsClear<Ref>(s: State<Ref>, maxWorkers: int, run: seq<Step<Ref>>)
    requires Inv(s, maxWorkers) && Possible(s, maxWorkers, run) && Clear(s)
    ensures Clear(After(s, maxWorkers, run))
    decreases |run|
  {
    if run != [] {
      RunKeepsInv(s, maxWorkers, Init(run));
      RunKeepsClear(s, maxWorkers, Init(run));
      StepKeepsClear(After(s, maxWorkers, Init(run)), maxWorkers, Last(run));
    }
  }

  /** A schedule after the stop at whose end a task runs that nobody asked to cancel. */
  predicate LeavesTaskRunning<Ref>(s: State<Ref>, maxWorkers: int, after: seq<Step<Ref>>) {
    Possible(s, maxWorkers, after) && Missed(After(s, maxWorkers, after)) != {}
  }

  /** While all the tasks waited for still run, one that ends normally lets the wait return. */
  lemma FinishOpensWait<Ref>(s: State<Ref>, maxWorkers: int, u: Task, r: Ref, t: Task)
    requires Inv(s, maxWorkers) && s.phase.Waiting? && s.live == s.phase.snapshot && u in s.live
    requires r !in s.sets && Fresh(s, t) && Missed(s) == {}
    ensures Enabled(s, Finish(u, false))
    ensures var s1 := Apply(s, maxWorkers, Finish(u, false));
            && Inv(s1, maxWorkers) && Enabled(s1, Wake(r, t)) && Missed(s1) == {}
            && (s1.phase.snapshot - s1.live) * s1.endedCancelled == {}
  {
    StepKeepsInv(s, maxWorkers, Finish(u, false));
    var s1 := Apply(s, maxWorkers, Finish(u, false));
    assert s1.phase.snapshot - s1.live == {u};
  }

  /** A throttled loop without a cancelled task in its wait still starts its message. */
  lemma ThrottledLoopStartsOne<Ref>(s: State<Ref>, maxWorkers: int, r: Ref, t: Task) returns (after: seq<Step<Ref>>)
    requires Inv(s, maxWorkers) && s.phase.Waiting? && r !in s.sets && Fresh(s, t) && Missed(s) == {}
    requires (s.phase.snapshot - s.live) * s.endedCancelled == {}
    ensures LeavesTaskRunning(s, maxWorkers, after)
  {
    if s.phase.snapshot <= s.live {
      assert s.live == s.phase.snapshot && |s.live| > 0;
      var u :| u in s.live;
      FinishOpensWait(s, maxWorkers, u, r, t);
      ThrottledStopMissesOne(Apply(s, maxWorkers, Finish(u, false)), maxWorkers, r, t);
      hide Inv, Apply, Missed;
      Extend(s, maxWorkers, [], Finish(u, false));
      Extend(s, maxWorkers, [] + [Finish(u, false)], Wake(r, t));
      after := [] + [Finish(u, false)] + [Wake(r, t)];
    } else {
      ThrottledStopMissesOne(s, maxWorkers, r, t);
      hide Inv, Apply, Missed;
      Extend(s, maxWorkers, [], Wake(r, t));
      after := [] + [Wake(r, t)];
    }
  }

  /**
   The documented drain fails exactly for a throttled loop: after a stop in a reachable state some
   schedule leaves a task running that was never asked to cancel if and only if the loop was
   waiting for room and no task that it waits for has ended cancelled.
   */
  lemma StopMissesExactlyWhen<Ref>(r: Ref, maxWorkers: int, before: seq<Step<Ref>>, pending: Ref, t: Task)
    requires Possible(Initial(r), maxWorkers, before)
    requires pending !in After(Initial(r), maxWorkers, before).sets && Fresh(After(Initial(r), maxWorkers, before), t)
    ensures Enabled(After(Initial(r), maxWorkers, before), Stop)
    ensures var s := After(Initial(r), maxWorkers, before);
            (exists after :: LeavesTaskRunning(Apply(s, maxWorkers, Stop), maxWorkers, after))
            <==> s.phase.Waiting? && (s.phase.snapshot - s.live) * s.endedCancelled == {}
  {
    var s := After(Initial(r), maxWorkers, before);
    RunKeepsInv(Initial(r), maxWorkers, before);
    StepKeepsInv(s, maxWorkers, Stop);
    StopCancelsAll(s, maxWorkers);
    var s1 := Apply(s, maxWorkers, Stop);
    if s.phase.Waiting? && (s.phase.snapshot - s.live) * s.endedCancelled == {} {
      var after := ThrottledLoopStartsOne(s1, maxWorkers, pending, t);
      assert LeavesTaskRunning(s1, maxWorkers, after);
    } else {
      forall after: seq<Step<Ref>> ensures !LeavesTaskRunning(s1, maxWorkers, after) {
        if Possible(s1, maxWorkers, after) {
          RunKeepsClear(s1, maxWorkers, after);
        }
      }
    }
  }

  // ---------------------------------------------------------------- the loop ends

  function DeliveryCount<Ref>(run: seq<Step<Ref>>): nat {
    if run == [] then 0 else DeliveryCount(Init(run)) + (if Last(run).Deliver? then 1 else 0)
  }

  /** Once ended, the loop stays ended: no step fetches, waits or starts a task. */
  lemma EndedStepStaysEnded<Ref>(s: State<Ref>, maxWorkers: int, step: Step<Ref>)
    requires Enabled(s, step) && s.phase.Ended?
    ensures var s' := Apply(s, maxWorkers, step);
            && s'.phase.Ended? && s'.live <= s.live && s'.bound == s.bound
            && !step.Deliver? && !step.Wake? && !step.InlineDone?
  {
  }

  lemma {:induction false} EndedStaysEnded<Ref>(s: State<Ref>, maxWorkers: int, run: seq<Step<Ref>>)
    requires Possible(s, maxWorkers, run) && s.phase.Ended?
    ensures var s' := After(s, maxWorkers, run);
            s'.phase.Ended? && s'.live <= s.live && s'.bound == s.bound && DeliveryCount(run) == 0
    decreases |run|
  {
    if run != [] {
      EndedStaysEnded(s, maxWorkers, Init(run));
      EndedStepStaysEnded(After(s, maxWorkers, Init(run)), maxWorkers, Last(run));
    }
  }

  /**
   After a stop the loop takes at most one more message, and when it does it has ended without
   starting it: every continuation of a stopped state holds at most one delivery.
   */
  lemma {:induction false} StoppedLoopEnds<Ref>(s: State<Ref>, maxWorkers: int, run: seq<Step<Ref>>)
    requires Possible(s, maxWorkers, run) && !s.running
    ensures var s' := After(s, maxWorkers, run);
            && !s'.running && DeliveryCount(run) <= 1
            && (DeliveryCount(run) == 1 ==> s'.phase.Ended?)
    decreases |run|
  {
    if run != [] {
      StoppedLoopEnds(s, maxWorkers, Init(run));
      var mid := After(s, maxWorkers, Init(run));
      if mid.phase.Ended? {
        EndedStepStaysEnded(mid, maxWorkers, Last(run));
      }
    }
  }

  /** So does the loop after any stop: a delivery ends it and starts nothing. */
  lemma StopEndsTheLoop<Ref>(s: State<Ref>, maxWorkers: int, after: seq<Step<Ref>>, t: Task)
    requires s.current in s.sets && Possible(Apply(s, maxWorkers, Stop), maxWorkers, after)
    requires Enabled(After(Apply(s, maxWorkers, Stop), maxWorkers, after), Deliver(t))
    ensures DeliveryCount(after) == 0
    ensures var s1 := After(Apply(s, maxWorkers, Stop), maxWorkers, after);
            Apply(s1, maxWorkers, Deliver(t)) == s1.(phase := Ended)
  {
    StoppedLoopEnds(Apply(s, maxWorkers, Stop), maxWorkers, after);
  }

  /** The tasks that a run saw finish cancelled. */
  function CancelledIn<Ref>(run: seq<Step<Ref>>): set<Task> {
    if run == [] then {}
    else CancelledIn(Init(run)) + CancelledBy(Last(run))
  }

  function CancelledBy<Ref>(step: Step<Ref>): set<Task> {
    if step.Finish? && step.cancelled then {step.done} else {}
  }

  lemma StepRecordsCancelled<Ref>(s: State<Ref>, maxWorkers: int, step: Step<Ref>)
    requires Enabled(s, step)
    ensures Apply(s, maxWorkers, step).endedCancelled == s.endedCancelled + CancelledBy(step)
  {
  }

  lemma {:induction false} CancelledAreRecorded<Ref>(s: State<Ref>, maxWorkers: int, run: seq<Step<Ref>>)
    requires Possible(s, maxWorkers, run)
    ensures After(s, maxWorkers, run).endedCancelled == s.endedCancelled + CancelledIn(run)
    decreases |run|
  {
    if run != [] {
      CancelledAreRecorded(s, maxWorkers, Init(run));
      StepRecordsCancelled(After(s, maxWorkers, Init(run)), maxWorkers, Last(run));
      hide Enabled, Apply, CancelledBy;
    }
  }

  /**
   Asking a cancelled task for its exception raises: a wait of any run ends the loop exactly when one
   of the tasks it waited for finished cancelled. The held-back message is then never started;
   otherwise it is started and the loop fetches again.
   */
  lemma WakeEndsExactlyWhen<Ref>(r: Ref, maxWorkers: int, run: seq<Step<Ref>>, pending: Ref, t: Task)
    requires Possible(Initial(r), maxWorkers, run)
    requires Enabled(After(Initial(r), maxWorkers, run), Wake(pending, t))
    ensures var s := After(Initial(r), maxWorkers, run);
            var s' := Apply(s, maxWorkers, Wake(pending, t));
            && (s'.phase.Ended? <==> s.phase.snapshot * CancelledIn(run) != {})
            && (s'.phase.Ended? ==> s'.live == s.live && s'.bound == s.bound)
            && (!s'.phase.Ended? ==> s'.phase.Fetching? && s'.live == s.live + {t})
  {
    CancelledAreRecorded(Initial(r), maxWorkers, run);
    RunKeepsInv(Initial(r), maxWorkers, run);
    var s := After(Initial(r), maxWorkers, run);
    WakeEndsThrottle(s, maxWorkers, pending, t);
    assert (s.phase.snapshot - s.live) * s.endedCancelled == s.phase.snapshot * CancelledIn(run);
    hide CancelledIn, Possible, After, Inv;
  }

  /**
   The loop of any run ends with a message that comes after a stop, a sequential message that raises, a
   wait that finds a cancelled task, or the iterator or the loop itself being interrupted; with nothing else.
   */
  lemma LoopEndsExactlyWhen<Ref>(r: Ref, maxWorkers: int, run: seq<Step<Ref>>, step: Step<Ref>)
    requires Possible(Initial(r), maxWorkers, run)
    requires Enabled(After(Initial(r), maxWorkers, run), step) && !After(Initial(r), maxWorkers, run).phase.Ended?
    ensures var s := After(Initial(r), maxWorkers, run);
            Apply(s, maxWorkers, step).phase.Ended? <==>
              match step
              case Deliver(_) => !s.running
              case InlineDone(ok) => !ok
              case Wake(_, _) => s.phase.snapshot * CancelledIn(run) != {}
              case Interrupt => true
              case _ => false
  {
    if step.Wake? {
      WakeEndsExactlyWhen(r, maxWorkers, run, step.pending, step.task);
    }
    hide Possible, After;
  }

  // ---------------------------------------------------------------- no message is lost

  /** Deliveries that the loop takes, its flag being set. */
  function TakenCount<Ref>(s: State<Ref>, maxWorkers: int, run: seq<Step<Ref>>): nat
    requires Possible(s, maxWorkers, run)
    decreases |run|
  {
    if run == [] then 0
    else TakenCount(s, maxWorkers, Init(run)) + (if Last(run).Deliver? && After(s, maxWorkers, Init(run)).running then 1 else 0)
  }

  /** Messages processed in the loop itself. */
  function InlineCount<Ref>(s: State<Ref>, maxWorkers: int, run: seq<Step<Ref>>): nat
    requires Possible(s, maxWorkers, run)
    decreases |run|
  {
    if run == [] then 0
    else
      InlineCount(s, maxWorkers, Init(run))
      + (if Last(run).Deliver? && After(s, maxWorkers, run).phase.Inline? then 1 else 0)
  }

  /** Messages held back by the throttle that the loop ended with. */
  function DroppedCount<Ref>(s: State<Ref>, maxWorkers: int, run: seq<Step<Ref>>): nat
    requires Possible(s, maxWorkers, run)
    decreases |run|
  {
    if run == [] then 0
    else
      DroppedCount(s, maxWorkers, Init(run))
      + (if After(s, maxWorkers, Init(run)).phase.Waiting? && After(s, maxWorkers, run).phase.Ended? then 1 else 0)
  }

  function HeldBack<Ref>(s: State<Ref>): nat { if s.phase.Waiting? then 1 else 0 }

  lemma NewBinding<Ref>(bound: map<Task, Ref>, t: Task, r: Ref)
    requires t !in bound
    ensures |bound[t := r]| == |bound| + 1
  {
    assert bound[t := r].Keys == bound.Keys + {t};
    assert |bound[t := r].Keys| == |bound.Keys + {t}|;
  }

  /** One step accounts for the messages it takes, starts, holds or drops. */
  lemma StepAccounts<Ref>(s: State<Ref>, maxWorkers: int, step: Step<Ref>)
    requires Inv(s, maxWorkers) && Enabled(s, step)
    ensures var s' := Apply(s, maxWorkers, step);
            |s'.bound| + HeldBack(s')
            + (if step.Deliver? && s'.phase.Inline? then 1 else 0)
            + (if s.phase.Waiting? && s'.phase.Ended? then 1 else 0)
            == |s.bound| + HeldBack(s) + (if step.Deliver? && s.running then 1 else 0)
  {
    if step.Deliver? {
      NewBinding(s.bound, step.task, s.current);
    } else if step.Wake? {
      WakeKeepsInv(s, maxWorkers, step.pending, step.task);
      NewBinding(s.bound, step.task, step.pending);
    }
    hide Inv;
  }

  /**
   Every message taken while the flag is set is started as a task of its own exactly once, processed
   in the loop, held back by the throttle, or dropped with the loop ending while it is held back.
   */
  lemma {:induction false} EveryMessageIsAccounted<Ref>(r: Ref, maxWorkers: int, run: seq<Step<Ref>>)
    requires Possible(Initial(r), maxWorkers, run)
    ensures var s := After(Initial(r), maxWorkers, run);
            TakenCount(Initial(r), maxWorkers, run)
            == |s.bound| + InlineCount(Initial(r), maxWorkers, run) + HeldBack(s) + DroppedCount(Initial(r), maxWorkers, run)
    decreases |run|
  {
    if run != [] {
      EveryMessageIsAccounted(r, maxWorkers, Init(run));
      RunKeepsInv(Initial(r), maxWorkers, Init(run));
      StepAccounts(After(Initial(r), maxWorkers, Init(run)), maxWorkers, Last(run));
      hide Inv, Apply;
    }
  }

  // ---------------------------------------------------------------- who occupies the slots

  function CallbackCount<Ref>(run: seq<Step<Ref>>, t: Task): nat {
    if run == [] then 0 else CallbackCount(Init(run), t) + (if Last(run) == Callback(t) then 1 else 0)
  }

  /** How a task stands after a number of its callbacks. */
  ghost predicate SlotOf<Ref>(s: State<Ref>, t: Task, callbacks: nat) {
    && callbacks <= 1
    && (t in s.live + s.finished ==> callbacks == 0)
    && (callbacks == 1 ==> t in s.bound)
    && (s.current in s.sets && t in s.sets[s.current] ==>
          t in s.live || t in s.finished || (callbacks == 1 && t in s.bound && s.bound[t] != s.current))
  }

  lemma StepKeepsSlot<Ref>(s: State<Ref>, maxWorkers: int, step: Step<Ref>, t: Task, callbacks: nat)
    requires Inv(s, maxWorkers) && Enabled(s, step) && SlotOf(s, t, callbacks)
    ensures SlotOf(Apply(s, maxWorkers, step), t, callbacks + if step == Callback(t) then 1 else 0)
  {
  }

  /**
   The callback of a task runs at most once, after the task finished, and frees its slot in the set it
   was bound to. So a slot is occupied by a running task, by a finished one whose callback is still to
   come, or by one that outlived a wait: its callback went to an older set than the current one.
   */
  lemma {:induction false} SlotsAreFreedOnce<Ref>(r: Ref, maxWorkers: int, run: seq<Step<Ref>>, t: Task)
    requires Possible(Initial(r), maxWorkers, run)
    ensures SlotOf(After(Initial(r), maxWorkers, run), t, CallbackCount(run, t))
    decreases |run|
  {
    if run != [] {
      SlotsAreFreedOnce(r, maxWorkers, Init(run), t);
      RunKeepsInv(Initial(r), maxWorkers, Init(run));
      StepKeepsSlot(After(Initial(r), maxWorkers, Init(run)), maxWorkers, Last(run), t, CallbackCount(Init(run), t));
      hide SlotOf, Inv, Apply;
    }
  }

  /**
   What becomes of a message that a running loop takes in a reachable state: in sequential mode it is
   processed in the loop; otherwise it is started at once when fewer than `maxWorkers` tasks are in
   the current set, and held back when not.
   */
  lemma DeliveredMessage<Ref>(s: State<Ref>, maxWorkers: int, t: Task)
    requires Inv(s, maxWorkers) && Enabled(s, Deliver(t)) && s.running
    ensures var s' := Apply(s, maxWorkers, Deliver(t));
            && (s'.phase.Inline? <==> maxWorkers <= 1)
            && (s'.phase == Waiting(s.sets[s.current]) <==> maxWorkers > 1 && |s.sets[s.current]| == maxWorkers)
            && (t in s'.live <==> maxWorkers > 1 && |s.sets[s.current]| < maxWorkers)
            && (t in s'.live ==> s'.phase.Fetching? && t in s'.sets[s'.current] && s'.bound[t] == s'.current)
            && s.live <= s'.live <= s.live + {t}
  {
  }

  /** The sequential path goes on fetching after a message that succeeds, and ends after one that raises. */
  lemma InlineGoesOn<Ref>(s: State<Ref>, maxWorkers: int, ok: bool)
    requires Enabled(s, InlineDone(ok))
    ensures Apply(s, maxWorkers, InlineDone(ok)) == s.(phase := if ok then Fetching else Ended)
  {
  }

  /** Such a state is reachable: two workers, three messages, one finished task. */
  lemma ThrottledStopHappens()
    ensures exists run: seq<Step<nat>> ::
              Possible(Initial(0), 2, run) && !After(Initial(0), 2, run).running && Missed(After(Initial(0), 2, run)) == {3}
  {
    var s0: State<nat> := Initial(0);
    var s2 := State(true, Fetching, 0, map[0 := {1, 2}], map[1 := 0, 2 := 0], {1, 2}, {}, {}, {});
    var s4 := s2.(phase := Waiting({1, 2}), live := {2}, finished := {1});
    var s5 := s4.(running := false, cancelRequested := {2});
    TwoTasks(s0, s2);
    ThrottleAndStop(s2, s4, s5);
    LateWake(s5);
    hide Apply, Enabled, Missed;
    Extend(s0, 2, [], Deliver(1));
    Extend(s0, 2, [] + [Deliver(1)], Deliver(2));
    var run := [] + [Deliver(1)] + [Deliver(2)];
    Extend(s0, 2, run, Deliver(9));
    Extend(s0, 2, run + [Deliver(9)], Finish(1, false));
    Extend(s0, 2, run + [Deliver(9)] + [Finish(1, false)], Stop);
    Extend(s0, 2, run + [Deliver(9)] + [Finish(1, false)] + [Stop], Wake(1, 3));
  }

  lemma LateWake(s5: State<nat>)
    requires s5 == State(false, Waiting({1, 2}), 0, map[0 := {1, 2}], map[1 := 0, 2 := 0], {2}, {1}, {2}, {})
    ensures Enabled(s5, Wake(1, 3))
    ensures !Apply(s5, 2, Wake(1, 3)).running && Missed(Apply(s5, 2, Wake(1, 3))) == {3}
  {
    assert {1, 2} * {2} == {2} && 1 in {1, 2};
    assert |{2}| < 2;
    assert s5.phase.snapshot * s5.live == {2};
    assert Apply(s5, 2, Wake(1, 3)).live == {2, 3};
  }

  lemma TwoTasks(s0: State<nat>, s2: State<nat>)
    requires s0 == Initial(0)
    requires s2 == State(true, Fetching, 0, map[0 := {1, 2}], map[1 := 0, 2 := 0], {1, 2}, {}, {}, {})
    ensures Enabled(s0, Deliver(1)) && Enabled(Apply(s0, 2, Deliver(1)), Deliver(2))
    ensures Apply(Apply(s0, 2, Deliver(1)), 2, Deliver(2)) == s2
  {
    var s1 := Apply(s0, 2, Deliver(1));
    assert s1.sets[0] == {1};
    assert s1 == State(true, Fetching, 0, map[0 := {1}], map[1 := 0], {1}, {}, {}, {});
    assert {1} + {2} == {1, 2};
  }

  lemma ThrottleAndStop(s2: State<nat>, s4: State<nat>, s5: State<nat>)
    requires s2 == State(true, Fetching, 0, map[0 := {1, 2}], map[1 := 0, 2 := 0], {1, 2}, {}, {}, {})
    requires s4 == s2.(phase := Waiting({1, 2}), live := {2}, finished := {1})
    requires s5 == s4.(running := false, cancelRequested := {2})
    ensures Enabled(s2, Deliver(9)) && Enabled(Apply(s2, 2, Deliver(9)), Finish(1, false))
    ensures Apply(Apply(s2, 2, Deliver(9)), 2, Finish(1, false)) == s4 && Apply(s4, 2, Stop) == s5
  {
    assert |s2.sets[0]| == 2;
    var s3 := s2.(phase := Waiting({1, 2}));
    assert Apply(s2, 2, Deliver(9)) == s3;
    assert {1, 2} - {1} == {2} && {} + {1} == {1};
    assert Apply(s3, 2, Finish(1, false)) == s4;
    assert {} + {1, 2} * {2} == {2};
  }

  lemma Extend<Ref>(s: State<Ref>, m: int, run: seq<Step<Ref>>, step: Step<Ref>)
    requires Possible(s, m, run) && Enabled(After(s, m, run), step)
    ensures Possible(s, m, run + [step]) && After(s, m, run + [step]) == Apply(After(s, m, run), m, step)
  {
    assert Init(run + [step]) == run && Last(run + [step]) == step;
  }
}
