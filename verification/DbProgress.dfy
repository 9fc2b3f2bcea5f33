/**
 Every schedule of tasks ends: a task is resumed only as often as its program allows, and as long as
 one has not ended, some task can be resumed, whatever was cancelled and whoever waits for whom.
 */
module DbProgress {
  import opened Common
  import opened DbSessions
  import opened DbInterleaving
  import opened DbOutcomes

  // ---------------------------------------------------------------- every task ends

  /** At most how often a task is resumed for a list of nodes; its children have their own count. */
  function Steps(nodes: seq<Node>): nat
    decreases nodes, 0
  {
    if nodes == [] then 0 else NodeSteps(nodes[0]) + Steps(nodes[1..])
  }

  function NodeSteps(n: Node): nat
    decreases n, 1
  {
    match n
    case Fail(_) => 1
    case Spawn(awaited, _) => if awaited then 2 else 1
    case Call(_, _, _, _, _, body) => 3 + Steps(body)
  }

  function StackSteps(items: seq<Item>): nat {
    if items == [] then 0
    else
      var item := items[|items| - 1];
      StackSteps(items[..|items| - 1]) + (if item.Do? then NodeSteps(item.n) else 1)
  }

  function ThreadSteps(th: Thread): nat {
    match th.root
    case NoRoot => StackSteps(th.outer)
    case InCall(_, _, _) => StackSteps(th.outer) + StackSteps(th.inner) + 2
    case Closing(_, _) => StackSteps(th.outer) + 1
  }

  lemma {:induction false} StackConcat(a: seq<Item>, b: seq<Item>)
    ensures StackSteps(a + b) == StackSteps(a) + StackSteps(b)
    decreases |b|
  {
    if b == [] {
      assert a + b == a;
    } else {
      var n := |b| - 1;
      assert (a + b)[..|a| + n] == a + b[..n];
      StackConcat(a, b[..n]);
    }
  }

  lemma {:induction false} ItemsSteps(nodes: seq<Node>)
    ensures StackSteps(Items(nodes)) == Steps(nodes)
  {
    if nodes != [] {
      ItemsSteps(nodes[1..]);
      assert (Items(nodes[1..]) + [Do(nodes[0])])[..|Items(nodes[1..])|] == Items(nodes[1..]);
    }
  }

  lemma NothingLeft(th: Thread)
    ensures ThreadSteps(th) == 0 <==> Ended(th)
  {
  }

  lemma StackReplaced(th: Thread, items: seq<Item>)
    requires HasItem(th)
    ensures ThreadSteps(WithStack(th, Stack(Popped(th)) + items)) + StackSteps([Top(th)]) == ThreadSteps(th) + StackSteps(items)
    ensures ThreadSteps(Popped(th)) + StackSteps([Top(th)]) == ThreadSteps(th)
  {
    assert Stack(th) == Stack(Popped(th)) + [Top(th)];
    StackConcat(Stack(Popped(th)), [Top(th)]);
    StackConcat(Stack(Popped(th)), items);
  }

  lemma OneItem(item: Item)
    ensures StackSteps([item]) == if item.Do? then NodeSteps(item.n) else 1
  {
    assert [item][..0] == [];
  }

  lemma EnteringProgresses(m: Machine, t: Task, th: Thread, n: CallNode)
    requires t in m.threads && HasItem(th) && Top(th) == Do(n) && MayEnter(t, th, n)
    ensures ThreadSteps(Enter(m, t, th, n).threads[t]) < ThreadSteps(th)
  {
    OneItem(Do(n));
    OneItem(Leave(n));
    ItemsSteps(n.body);
    var rest := Stack(Popped(th));
    assert rest + [Leave(n)] + Items(n.body) == rest + ([Leave(n)] + Items(n.body));
    StackConcat([Leave(n)], Items(n.body));
    StackReplaced(th, [Leave(n)] + Items(n.body));
    hide StackSteps, Items, Create, Reuse;
  }

  /** Resuming a task brings it nearer to its end. */
  lemma RunningProgresses(m: Machine, t: Task, newId: Task)
    requires Enabled(m, Run(t, newId))
    ensures ThreadSteps(RunThread(m, t, newId).threads[t]) < ThreadSteps(m.threads[t])
  {
    var th := m.threads[t];
    hide StackSteps, Items, Settle, Close;
    if HasItem(th) {
      OneItem(Top(th));
      OneItem(Join(newId));
      StackReplaced(th, [Join(newId)]);
      if Top(th).Do? && th.mode.Normal? && Top(th).n.Call? {
        EnteringProgresses(m, t, th, Top(th).n);
      }
    }
  }

  /** How often a run resumes a task; schedule entries that cannot happen do not count. */
  function RunsOf(m: Machine, run: seq<Step>, t: Task): nat {
    if run == [] then 0
    else
      var mid, step := After(m, run[..|run| - 1]), run[|run| - 1];
      RunsOf(m, run[..|run| - 1], t) + (if step.Run? && step.t == t && Enabled(mid, step) then 1 else 0)
  }

  lemma StepsLeft(m: Machine, step: Step, t: Task)
    requires Enabled(m, step) && t in m.threads && step != Reap(t)
    ensures t in Apply(m, step).threads
    ensures ThreadSteps(Apply(m, step).threads[t]) + (if step.Run? && step.t == t then 1 else 0) <= ThreadSteps(m.threads[t])
  {
    if step.Run? {
      OthersStand(m, step.t, step.newId);
      RunningProgresses(m, step.t, step.newId);
      hide RunThread;
    }
    hide StackSteps, Enabled;
  }

  lemma {:induction false} StepsAreUsedUp(m: Machine, run: seq<Step>, t: Task)
    requires t in m.threads && Reap(t) !in run
    ensures t in After(m, run).threads
    ensures RunsOf(m, run, t) + ThreadSteps(After(m, run).threads[t]) <= ThreadSteps(m.threads[t])
  {
    if run != [] {
      var n := |run| - 1;
      assert run[n] in run && forall step | step in run[..n] :: step in run;
      StepsAreUsedUp(m, run[..n], t);
      if Enabled(After(m, run[..n]), run[n]) {
        StepsLeft(After(m, run[..n]), run[n], t);
      }
      hide Apply, Enabled, ThreadSteps;
    }
  }

  /**
   From any machine, no schedule resumes a task more often than what it still has to do, and once it
   was resumed that often it has ended.
   */
  lemma EveryTaskEnds(m: Machine, run: seq<Step>, t: Task)
    requires t in m.threads && Reap(t) !in run
    ensures RunsOf(m, run, t) <= ThreadSteps(m.threads[t])
    ensures t in After(m, run).threads && (RunsOf(m, run, t) == ThreadSteps(m.threads[t]) ==> Ended(After(m, run).threads[t]))
  {
    StepsAreUsedUp(m, run, t);
    NothingLeft(After(m, run).threads[t]);
    hide ThreadSteps, Ended;
  }

  // ---------------------------------------------------------------- no deadlock

  /** When each task was started; identities may be given again. */
  type Births = map<Task, nat>

  function BirthsAfter(nodes: seq<Node>, run: seq<Step>): Births {
    if run == [] then map[0 := 0]
    else
      var mid, step, before := After(Initial(nodes), run[..|run| - 1]), run[|run| - 1], BirthsAfter(nodes, run[..|run| - 1]);
      if Enabled(mid, step) then NextBirths(mid, step, before, |run|) else before
  }

  function NextBirths(m: Machine, step: Step, births: Births, now: nat): Births {
    if step.Run? && Spawns(m, step.t) then births[step.newId := now] else births
  }

  ghost predicate Placed(t: Task, th: Thread, births: Births, now: nat) {
    t in births && births[t] <= now && (th.root.InCall? ==> OwnSession(t, th.ctx).Some?)
  }

  ghost predicate AllPlaced(m: Machine, births: Births, now: nat) {
    forall t | t in m.threads :: Placed(t, m.threads[t], births, now)
  }

  /** Every task waits only for tasks that are there and were started after it. */
  ghost predicate WaitsOrdered(m: Machine, births: Births) {
    forall t, c | t in m.threads && WaitsFor(m.threads[t], c) ::
      c in m.threads && t in births && c in births && births[t] < births[c]
  }

  ghost predicate Ordered(m: Machine, births: Births, now: nat) {
    AllPlaced(m, births, now) && WaitsOrdered(m, births)
  }

  lemma StackJoins(th: Thread, items: seq<Item>, extra: set<Task>)
    requires HasItem(th) && forall c | Join(c) in items :: c in extra
    ensures JoinsWithin(th, WithStack(th, Stack(Popped(th)) + items), extra)
    ensures JoinsWithin(th, Popped(th), {})
  {
    assert Stack(th) == Stack(Popped(th)) + [Top(th)];
  }

  /** A resumed task waits for nobody new but a task it spawned. */
  lemma RunJoins(m: Machine, t: Task, newId: Task)
    requires Enabled(m, Run(t, newId))
    ensures JoinsWithin(m.threads[t], RunThread(m, t, newId).threads[t], if Spawns(m, t) then {newId} else {})
  {
    var th := m.threads[t];
    hide Items, Settle, Close, Create, Reuse;
    if HasItem(th) {
      StackJoins(th, [Join(newId)], {newId});
      if Top(th).Do? && Top(th).n.Call? {
        var n := Top(th).n;
        forall c ensures Join(c) !in Items(n.body) { ItemsJoinNobody(n.body, c); }
        StackJoins(th, [Leave(n)] + Items(n.body), {});
        assert Stack(Popped(th)) + [Leave(n)] + Items(n.body) == Stack(Popped(th)) + ([Leave(n)] + Items(n.body));
      }
    }
  }

  lemma RunStaysPlaced(m: Machine, t: Task, newId: Task)
    requires Enabled(m, Run(t, newId)) && (m.threads[t].root.InCall? ==> OwnSession(t, m.threads[t].ctx).Some?)
    ensures var th := RunThread(m, t, newId).threads[t]; th.root.InCall? ==> OwnSession(t, th.ctx).Some?
    ensures Spawns(m, t) ==> RunThread(m, t, newId).threads[newId] == NewThread(m.threads[t].ctx, Top(m.threads[t]).n.child)
  {
    hide Items, Settle, Close, Create, Reuse;
  }

  lemma RunKeepsPlaces(m: Machine, t: Task, newId: Task, births: Births, now: nat)
    requires Ordered(m, births, now) && Enabled(m, Run(t, newId))
    ensures var births' := NextBirths(m, Run(t, newId), births, now + 1);
            RunThread(m, t, newId).threads.Keys <= births'.Keys && AllPlaced(RunThread(m, t, newId), births', now + 1)
  {
    var m', births' := RunThread(m, t, newId), NextBirths(m, Run(t, newId), births, now + 1);
    OthersStand(m, t, newId);
    RunStaysPlaced(m, t, newId);
    hide RunThread, Items, WaitsFor, Spawns, Enabled;
    forall u | u in m'.threads ensures Placed(u, m'.threads[u], births', now + 1) {
      if u in m.threads {
        assert Placed(u, m.threads[u], births, now);
      }
      assert Placed(t, m.threads[t], births, now);
    }
  }

  lemma NewWaitsForNobody(ctx: Context, nodes: seq<Node>, c: Task)
    ensures !WaitsFor(NewThread(ctx, nodes), c)
  {
    ItemsJoinNobody(nodes, c);
  }

  /** Only the resumed task may wait for somebody new, and only for the task it spawned. */
  lemma WaitsStayOrdered(m: Machine, m': Machine, t: Task, extra: set<Task>, births: Births, births': Births, now: nat)
    requires Ordered(m, births, now) && extra !! m.threads.Keys && m'.threads.Keys == m.threads.Keys + extra
    requires t in m.threads && JoinsWithin(m.threads[t], m'.threads[t], extra)
    requires forall u | u in m.threads && u != t :: m'.threads[u] == m.threads[u]
    requires forall u, c | u in extra :: !WaitsFor(m'.threads[u], c)
    requires forall u | u in births :: u in births' && (u !in extra ==> births'[u] == births[u])
    requires forall u | u in extra :: u in births' && births'[u] == now + 1
    requires m'.threads.Keys <= births'.Keys
    ensures WaitsOrdered(m', births')
  {
    hide WaitsFor, Ordered;
    forall u, c | u in m'.threads && WaitsFor(m'.threads[u], c)
      ensures c in m'.threads && u in births' && c in births' && births'[u] < births'[c]
    {
      if u == t && c in extra {
        PlacedBefore(m, births, now, u);
      } else {
        WaitIsOrdered(m, births, now, u, c);
      }
    }
  }

  lemma PlacedBefore(m: Machine, births: Births, now: nat, t: Task)
    requires Ordered(m, births, now) && t in m.threads
    ensures t in births && births[t] <= now
  {
    assert Placed(t, m.threads[t], births, now);
  }

  lemma WaitIsOrdered(m: Machine, births: Births, now: nat, t: Task, c: Task)
    requires Ordered(m, births, now) && t in m.threads && WaitsFor(m.threads[t], c)
    ensures c in m.threads && t in births && c in births && births[t] < births[c]
  {
    PlacedBefore(m, births, now, t);
    hide WaitsFor;
    assert c in m.threads;
    PlacedBefore(m, births, now, c);
  }

  lemma SpawnedWaitsForNobody(m: Machine, t: Task, newId: Task, c: Task)
    requires Enabled(m, Run(t, newId)) && Spawns(m, t)
    ensures newId in RunThread(m, t, newId).threads && !WaitsFor(RunThread(m, t, newId).threads[newId], c)
  {
    NewWaitsForNobody(m.threads[t].ctx, Top(m.threads[t]).n.child, c);
    hide Items, WaitsFor;
  }

  lemma RunKeepsOrder(m: Machine, t: Task, newId: Task, births: Births, now: nat)
    requires Ordered(m, births, now) && Enabled(m, Run(t, newId))
    ensures Ordered(RunThread(m, t, newId), NextBirths(m, Run(t, newId), births, now + 1), now + 1)
  {
    var births' := NextBirths(m, Run(t, newId), births, now + 1);
    RunKeepsPlaces(m, t, newId, births, now);
    OthersStand(m, t, newId);
    RunJoins(m, t, newId);
    forall c | Spawns(m, t) ensures !WaitsFor(RunThread(m, t, newId).threads[newId], c) {
      SpawnedWaitsForNobody(m, t, newId, c);
    }
    hide RunThread, WaitsFor, Placed, JoinsWithin, Spawns, AllPlaced, WaitsOrdered, Enabled;
    WaitsStayOrdered(m, RunThread(m, t, newId), t, if Spawns(m, t) then {newId} else {}, births, births', now);
  }

  lemma StepKeepsOrder(m: Machine, step: Step, births: Births, now: nat)
    requires Ordered(m, births, now) && Enabled(m, step)
    ensures Ordered(Apply(m, step), NextBirths(m, step, births, now + 1), now + 1)
  {
    match step {
      case Run(t, newId) => RunKeepsOrder(m, t, newId, births, now);
      case Cancel(t) => FewerKeepOrder(m, Apply(m, step), births, now);
      case Reap(t) => FewerKeepOrder(m, Apply(m, step), births, now);
    }
  }

  lemma FewerKeepOrder(m: Machine, m': Machine, births: Births, now: nat)
    requires Ordered(m, births, now) && m'.threads.Keys <= m.threads.Keys
    requires forall u | u in m'.threads :: m'.threads[u] == m.threads[u].(mode := m'.threads[u].mode)
    requires forall u, c | u in m'.threads && WaitsFor(m.threads[u], c) && c in m.threads :: c in m'.threads
    ensures Ordered(m', births, now + 1)
  {
    forall u | u in m'.threads ensures Placed(u, m'.threads[u], births, now + 1) {
      assert Placed(u, m.threads[u], births, now);
    }
    hide Placed;
    forall u, c | u in m'.threads && WaitsFor(m'.threads[u], c)
      ensures c in m'.threads && u in births && c in births && births[u] < births[c]
    {
      assert WaitsFor(m.threads[u], c);
    }
  }

  lemma {:induction false} RunKeepsOrdered(nodes: seq<Node>, run: seq<Step>)
    ensures Ordered(After(Initial(nodes), run), BirthsAfter(nodes, run), |run|)
  {
    if run == [] {
      forall c ensures !WaitsFor(NewThread(None, nodes), c) { ItemsJoinNobody(nodes, c); }
      assert Placed(0, NewThread(None, nodes), map[0 := 0], 0);
    } else {
      var n := |run| - 1;
      RunKeepsOrdered(nodes, run[..n]);
      var mid, births := After(Initial(nodes), run[..n]), BirthsAfter(nodes, run[..n]);
      if Enabled(mid, run[n]) {
        StepKeepsOrder(mid, run[n], births, n);
      } else {
        FewerKeepOrder(mid, mid, births, n);
      }
      hide Ordered, Apply, Enabled, NextBirths;
    }
  }

  /** The task waits for a child that has not ended. */
  predicate Blocked(m: Machine, t: Task)
    requires t in m.threads
  {
    var th := m.threads[t];
    HasItem(th) && th.mode.Normal? && Top(th).Join? && Top(th).child in m.threads && !Ended(m.threads[Top(th).child])
  }

  /** In every schedule, a task that has not ended can be resumed exactly when it waits for no running child. */
  lemma BlockedExactlyWhen(nodes: seq<Node>, run: seq<Step>, t: Task, newId: Task)
    requires var m := After(Initial(nodes), run); t in m.threads && !Ended(m.threads[t]) && newId !in m.threads
    ensures Enabled(After(Initial(nodes), run), Run(t, newId)) <==> !Blocked(After(Initial(nodes), run), t)
  {
    RunKeepsOrdered(nodes, run);
    MovesUnlessBlocked(After(Initial(nodes), run), BirthsAfter(nodes, run), |run|, t, newId);
    hide After, Enabled, Blocked;
  }

  lemma MovesUnlessBlocked(m: Machine, births: Births, now: nat, t: Task, newId: Task)
    requires Ordered(m, births, now) && t in m.threads && !Ended(m.threads[t]) && newId !in m.threads
    ensures Enabled(m, Run(t, newId)) <==> !Blocked(m, t)
    ensures Blocked(m, t) ==> births[t] < births[Top(m.threads[t]).child]
  {
    var th := m.threads[t];
    assert Placed(t, th, births, now);
    if HasItem(th) && Top(th).Join? {
      assert Top(th) in Stack(th);
      assert WaitsFor(th, Top(th).child);
    }
  }

  /** Who waits waits for a later task, so the wait ends at one that can be resumed. */
  lemma {:induction false} SomeoneRuns(m: Machine, births: Births, now: nat, t: Task, newId: Task) returns (u: Task)
    requires Ordered(m, births, now) && t in m.threads && !Ended(m.threads[t]) && newId !in m.threads
    ensures Enabled(m, Run(u, newId))
    decreases now - (if t in births then births[t] else 0)
  {
    MovesUnlessBlocked(m, births, now, t, newId);
    u := t;
    if Blocked(m, t) {
      var c := Top(m.threads[t]).child;
      assert Placed(c, m.threads[c], births, now) && Placed(t, m.threads[t], births, now);
      u := SomeoneRuns(m, births, now, c, newId);
    }
  }

  /** No schedule deadlocks: as long as some task has not ended, some task can be resumed. */
  lemma NeverDeadlocked(nodes: seq<Node>, run: seq<Step>, t: Task, newId: Task)
    requires var m := After(Initial(nodes), run); t in m.threads && !Ended(m.threads[t]) && newId !in m.threads
    ensures exists u :: Enabled(After(Initial(nodes), run), Run(u, newId))
  {
    RunKeepsOrdered(nodes, run);
    hide Ordered, Enabled;
    var u := SomeoneRuns(After(Initial(nodes), run), BirthsAfter(nodes, run), |run|, t, newId);
  }

  // ---------------------------------------------------------------- cancellation

  /** Any task that has not ended can be cancelled, and then every continuation leaves it cancelled. */
  lemma {:induction false} CancellationIsFinal(m: Machine, run: seq<Step>, t: Task)
    requires t in m.threads && !Ended(m.threads[t]) && Reap(t) !in run
    ensures Enabled(m, Cancel(t))
    ensures var m' := After(Apply(m, Cancel(t)), run); t in m'.threads && m'.threads[t].mode == Raised(Cancelled)
  {
    CancelledStaysCancelled(Apply(m, Cancel(t)), run, t);
  }

  /** A task that has ended is out of reach of any further step, cancellations included. */
  lemma {:induction false} EndedStays(m: Machine, run: seq<Step>, t: Task)
    requires t in m.threads && Ended(m.threads[t]) && Reap(t) !in run
    ensures t in After(m, run).threads && After(m, run).threads[t] == m.threads[t]
  {
    if run != [] {
      var n := |run| - 1;
      assert run[n] in run && forall step | step in run[..n] :: step in run;
      EndedStays(m, run[..n], t);
      var mid, step := After(m, run[..n]), run[n];
      if Enabled(mid, step) && step.Run? {
        OthersStand(mid, step.t, step.newId);
        hide RunThread;
      }
    }
  }
}
