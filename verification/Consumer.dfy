/**
 The consume loop over real set objects: `processingTasks` is rebound to a fresh object after a
 wait while older callbacks keep the object they were bound to. One method per atomic segment
 of the coroutine, each proved to be a step of the state machine in module ConsumeLoop.
 */
module ConsumerObject {
  import opened ConsumeLoop

  /** A Python set of tasks, updated in place. */
  class TaskSet {
    var members: set<Task>

    constructor (members: set<Task>)
      ensures this.members == members
    {
      this.members := members;
    }
  }

  class Consumer {
    const maxWorkers: int
    var running: bool
    var phase: Phase
    var processingTasks: TaskSet
    var bound: map<Task, TaskSet>
    var live: set<Task>
    var finished: set<Task>
    var cancelRequested: set<Task>
    var endedCancelled: set<Task>
    ghost var allSets: set<TaskSet>

    ghost function View(): State<TaskSet>
      reads this, allSets
    {
      State(running, phase, processingTasks, map s | s in allSets :: s.members,
            bound, live, finished, cancelRequested, endedCancelled)
    }

    ghost predicate Valid()
      reads this, allSets
    {
      Inv(View(), maxWorkers)
    }

    constructor (maxWorkers: int)
      ensures this.maxWorkers == maxWorkers && Valid() && fresh(allSets)
      ensures View() == Initial(processingTasks)
    {
      this.maxWorkers := maxWorkers;
      running, phase := true, Fetching;
      var tasks := new TaskSet({});
      processingTasks := tasks;
      bound, live, finished, cancelRequested, endedCancelled := map[], {}, {}, {}, {};
      allSets := {tasks};
    }

    /** `create_task`, `add`, `add_done_callback(processing_tasks.discard)`. */
    method Spawn(t: Task)
      requires processingTasks in allSets
      modifies this`live, this`bound, this`phase, processingTasks
      ensures View() == ConsumeLoop.Spawn(old(View()), t)
    {
      live := live + {t};
      processingTasks.members := processingTasks.members + {t};
      bound := bound[t := processingTasks];
      phase := Fetching;
      assert View().sets == old(View()).sets[processingTasks := processingTasks.members];
    }

    /** From a delivered message to the next await. */
    method Deliver(t: Task)
      requires Valid() && Enabled(View(), Step.Deliver(t))
      modifies this`live, this`bound, this`phase, processingTasks
      ensures View() == Apply(old(View()), maxWorkers, Step.Deliver(t)) && Valid()
    {
      StepKeepsInv(View(), maxWorkers, Step.Deliver(t));
      if !running {
        phase := Ended;
      } else if maxWorkers <= 1 {
        phase := Inline;
      } else if |processingTasks.members| >= maxWorkers {
        phase := Waiting(processingTasks.members);
      } else {
        Spawn(t);
      }
    }

    /** `self.processing_tasks = pending`: a new set object; the old one keeps its callbacks. */
    method Rebind(pending: set<Task>)
      modifies this`processingTasks, this`allSets
      ensures fresh(processingTasks) && allSets == old(allSets) + {processingTasks}
      ensures View() == old(View()).(current := processingTasks, sets := old(View()).sets[processingTasks := pending])
    {
      processingTasks := new TaskSet(pending);
      allSets := allSets + {processingTasks};
      assert View().sets == old(View()).sets[processingTasks := pending];
    }

    /** The rest of the segment: leave, throttle again, or start the task of the message held back. */
    method Resume(interrupted: bool, pending: set<Task>, t: Task)
      requires processingTasks in allSets
      modifies this`phase, this`live, this`bound, processingTasks
      ensures View() == if interrupted then old(View()).(phase := Ended)
                        else if |pending| >= maxWorkers then old(View()).(phase := Waiting(pending))
                        else ConsumeLoop.Spawn(old(View()), t)
    {
      if interrupted {
        phase := Ended;
      } else if |pending| >= maxWorkers {
        phase := Waiting(pending);
      } else {
        Spawn(t);
      }
    }

    /** From the return of `asyncio.wait`, with its two new sets, to the next await. */
    method Wake(t: Task)
      requires Valid() && phase.Waiting? && !(phase.snapshot <= live) && Fresh(View(), t)
      modifies this
      ensures fresh(processingTasks) && Valid()
      ensures Enabled(old(View()), Step.Wake(processingTasks, t))
      ensures View() == Apply(old(View()), maxWorkers, Step.Wake(processingTasks, t))
    {
      ghost var before := View();
      assert before.current in before.sets;
      hide Inv, ConsumeLoop.Spawn;
      var done, pending := phase.snapshot - live, phase.snapshot * live;
      Rebind(pending);
      assert processingTasks !in before.sets;
      Resume(done * endedCancelled != {}, pending, t);
      WakeKeepsInv(before, maxWorkers, processingTasks, t);
    }

    method Finish(t: Task, cancelled: bool)
      requires Valid() && t in live
      modifies this`live, this`finished, this`endedCancelled
      ensures View() == Apply(old(View()), maxWorkers, Step.Finish(t, cancelled)) && Valid()
    {
      StepKeepsInv(View(), maxWorkers, Step.Finish(t, cancelled));
      live := live - {t};
      finished := finished + {t};
      if cancelled {
        endedCancelled := endedCancelled + {t};
      }
    }

    /** The done-callback discards from the set it was bound to, which may be an old one. */
    method RunCallback(t: Task)
      requires Valid() && Enabled(View(), Step.Callback(t))
      modifies this`finished, bound[t]
      ensures View() == Apply(old(View()), maxWorkers, Step.Callback(t)) && Valid()
    {
      StepKeepsInv(View(), maxWorkers, Step.Callback(t));
      finished := finished - {t};
      bound[t].members := bound[t].members - {t};
      assert View().sets == old(View()).sets[bound[t] := bound[t].members];
    }

    /** `for task in processing_tasks: if not task.done(): task.cancel()`. */
    method CancelTasks()
      modifies this`cancelRequested
      ensures cancelRequested == old(cancelRequested) + processingTasks.members * live
    {
      var tasks := processingTasks.members;
      ghost var asked := tasks * live;
      while tasks != {}
        invariant cancelRequested + tasks * live == old(cancelRequested) + asked
        decreases |tasks|
      {
        var t :| t in tasks;
        tasks := tasks - {t};
        if t in live {
          cancelRequested := cancelRequested + {t};
        }
      }
    }

    /** Clears the flag and requests cancellation of every task of the current set that is not done. */
    method DoStop()
      requires Valid()
      modifies this`running, this`cancelRequested
      ensures View() == Apply(old(View()), maxWorkers, Step.Stop) && Valid()
      ensures live <= cancelRequested
    {
      StepKeepsInv(View(), maxWorkers, Step.Stop);
      assert live <= processingTasks.members && processingTasks in allSets;
      hide Inv;
      running := false;
      CancelTasks();
    }

    method InlineDone(ok: bool)
      requires Valid() && phase.Inline?
      modifies this`phase
      ensures View() == Apply(old(View()), maxWorkers, Step.InlineDone(ok)) && Valid()
    {
      phase := if ok then Fetching else Ended;
    }

    method Interrupt()
      requires Valid() && !phase.Ended?
      modifies this`phase
      ensures View() == Apply(old(View()), maxWorkers, Step.Interrupt) && Valid()
    {
      phase := Ended;
    }
  }
}
