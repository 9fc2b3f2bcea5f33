/**
 How tasks end under a scheduler: without cancellation, interleaving changes nothing about what a
 task returns or raises, and a cancelled task ends cancelled.
 */
module DbOutcomes {
  import opened Common
  import opened DbSessions
  import opened DbInterleaving

  /** What each task that ever started was given to do. */
  type Programs = map<Task, seq<Node>>

  function ProgramsAfter(nodes: seq<Node>, run: seq<Step>): Programs {
    if run == [] then map[0 := nodes]
    else
      var mid, step, before := After(Initial(nodes), run[..|run| - 1]), run[|run| - 1], ProgramsAfter(nodes, run[..|run| - 1]);
      if Enabled(mid, step) then NextPrograms(mid, step, before) else before
  }

  function NextPrograms(m: Machine, step: Step, programs: Programs): Programs {
    if step.Run? && Spawns(m, step.t) then programs[step.newId := Top(m.threads[step.t]).n.child] else programs
  }

  // ---------------------------------------------------------------- what a task will end with

  /** The effect of one item on how the task stands. */
  function Carried(item: Item, mode: Outcome, inside: bool, programs: Programs): Outcome {
    match item
    case Leave(n) => EndOf(n, mode, false)
    case Join(c) => if mode.Raised? || c !in programs then mode else OutcomeOf(programs[c], false)
    case Do(n) => if mode.Raised? then mode else NodeOutcome(n, inside)
  }

  function CarriedThrough(items: seq<Item>, mode: Outcome, inside: bool, programs: Programs): Outcome {
    if items == [] then mode
    else CarriedThrough(items[..|items| - 1], Carried(items[|items| - 1], mode, inside, programs), inside, programs)
  }

  /** What the task ends with once its stack in use has brought it to o. */
  function Beyond(th: Thread, o: Outcome, programs: Programs): Outcome {
    match th.root
    case NoRoot => o
    case InCall(n, _, _) => CarriedThrough(th.outer, EndOf(n, o, true), false, programs)
    case Closing(n, _) => CarriedThrough(th.outer, EndOf(n, o, false), false, programs)
  }

  /** What the task will end with if nobody cancels it. */
  function FinalOf(th: Thread, programs: Programs): Outcome {
    Beyond(th, if th.root.Closing? then th.mode else CarriedThrough(Stack(th), th.mode, th.root.InCall?, programs), programs)
  }

  lemma {:induction false} CarriedConcat(a: seq<Item>, b: seq<Item>, mode: Outcome, inside: bool, programs: Programs)
    ensures CarriedThrough(a + b, mode, inside, programs)
         == CarriedThrough(a, CarriedThrough(b, mode, inside, programs), inside, programs)
    decreases |b|
  {
    hide Carried;
    if b == [] {
      assert a + b == a;
    } else {
      var n := |b| - 1;
      assert (a + b)[..|a + b| - 1] == a + b[..n];
      CarriedConcat(a, b[..n], Carried(b[n], mode, inside, programs), inside, programs);
    }
  }

  lemma CarriedOne(a: seq<Item>, item: Item, mode: Outcome, inside: bool, programs: Programs)
    ensures CarriedThrough(a + [item], mode, inside, programs)
         == CarriedThrough(a, Carried(item, mode, inside, programs), inside, programs)
  {
    assert (a + [item])[..|a|] == a;
  }

  lemma {:induction false} RaisedSkips(nodes: seq<Node>, e: Exc, inside: bool, programs: Programs)
    ensures CarriedThrough(Items(nodes), Raised(e), inside, programs) == Raised(e)
  {
    if nodes != [] {
      CarriedOne(Items(nodes[1..]), Do(nodes[0]), Raised(e), inside, programs);
      RaisedSkips(nodes[1..], e, inside, programs);
    }
  }

  /** The items of a body carry a normal start to the outcome of the body. */
  lemma {:induction false} ItemsCarry(nodes: seq<Node>, inside: bool, programs: Programs)
    ensures CarriedThrough(Items(nodes), Normal, inside, programs) == OutcomeOf(nodes, inside)
  {
    if nodes != [] {
      CarriedOne(Items(nodes[1..]), Do(nodes[0]), Normal, inside, programs);
      var o := NodeOutcome(nodes[0], inside);
      if o.Normal? {
        ItemsCarry(nodes[1..], inside, programs);
      } else {
        RaisedSkips(nodes[1..], o.e, inside, programs);
      }
    }
  }

  // ---------------------------------------------------------------- the invariant

  ghost predicate JoinsKnown(items: seq<Item>, programs: Programs) {
    forall i | 0 <= i < |items| && items[i].Join? :: items[i].child in programs
  }

  ghost predicate Expected(t: Task, th: Thread, programs: Programs) {
    && t in programs && JoinsKnown(th.outer, programs) && JoinsKnown(th.inner, programs)
    && FinalOf(th, programs) == OutcomeOf(programs[t], false)
  }

  /** Every task will end as its own program says, and joined tasks are not replaced. */
  ghost predicate OnCourse(m: Machine, programs: Programs) {
    && (forall t | t in m.threads :: Expected(t, m.threads[t], programs))
    && (forall t, c | t in m.threads && WaitsFor(m.threads[t], c) :: c in m.threads)
  }

  /** Programs of tasks that nothing waits for do not matter. */
  lemma {:induction false} CarriedFrame(items: seq<Item>, mode: Outcome, inside: bool, programs: Programs, c: Task, nodes: seq<Node>)
    requires Join(c) !in items
    ensures CarriedThrough(items, mode, inside, programs[c := nodes]) == CarriedThrough(items, mode, inside, programs)
    decreases |items|
  {
    if items != [] {
      var n := |items| - 1;
      assert items[n] in items && forall i | i in items[..n] :: i in items;
      CarriedFrame(items[..n], Carried(items[n], mode, inside, programs), inside, programs, c, nodes);
    }
  }

  lemma FinalFrame(th: Thread, programs: Programs, c: Task, nodes: seq<Node>)
    requires !WaitsFor(th, c)
    ensures FinalOf(th, programs[c := nodes]) == FinalOf(th, programs)
  {
    CarriedFrame(th.outer, th.mode, false, programs, c, nodes);
    match th.root {
      case NoRoot =>
      case InCall(n, _, _) =>
        CarriedFrame(th.inner, th.mode, true, programs, c, nodes);
        CarriedFrame(th.outer, EndOf(n, CarriedThrough(th.inner, th.mode, true, programs), true), false, programs, c, nodes);
      case Closing(n, _) =>
        CarriedFrame(th.outer, EndOf(n, th.mode, false), false, programs, c, nodes);
    }
  }

  // ---------------------------------------------------------------- one step of one task

  /** Replacing the top of the stack by items that carry as much leaves the final outcome alone. */
  lemma StackStep(th: Thread, items: seq<Item>, mode: Outcome, programs: Programs)
    requires HasItem(th)
    requires var inside := th.root.InCall?;
             CarriedThrough(items, mode, inside, programs) == Carried(Top(th), th.mode, inside, programs)
    ensures FinalOf(WithStack(Popped(th), Stack(Popped(th)) + items).(mode := mode), programs) == FinalOf(th, programs)
  {
    var rest, inside := Stack(Popped(th)), th.root.InCall?;
    assert Stack(th) == rest + [Top(th)];
    hide Carried, CarriedThrough, OutcomeOf;
    CarriedOne(rest, Top(th), th.mode, inside, programs);
    CarriedConcat(rest, items, mode, inside, programs);
    var th' := WithStack(Popped(th), rest + items).(mode := mode);
    assert Stack(th') == rest + items && th'.root == th.root;
    SameBeyond(th, th', CarriedThrough(Stack(th), th.mode, inside, programs), programs);
    hide Beyond;
  }

  lemma SameBeyond(th: Thread, th': Thread, o: Outcome, programs: Programs)
    requires th'.root == th.root && (!th.root.NoRoot? ==> th'.outer == th.outer)
    ensures Beyond(th', o, programs) == Beyond(th, o, programs)
  {
  }

  lemma PopStep(th: Thread, mode: Outcome, programs: Programs)
    requires HasItem(th) && mode == Carried(Top(th), th.mode, th.root.InCall?, programs)
    ensures FinalOf(Popped(th).(mode := mode), programs) == FinalOf(th, programs)
  {
    StackStep(th, [], mode, programs);
    assert Stack(Popped(th)) + [] == Stack(Popped(th));
    assert WithStack(Popped(th), Stack(Popped(th))) == Popped(th);
  }

  /** A task that entered a call is still bound for the same end. */
  lemma EnterKeepsFinal(m: Machine, t: Task, th: Thread, n: CallNode, programs: Programs)
    requires t in m.threads && th == m.threads[t] && HasItem(th) && Top(th) == Do(n) && th.mode.Normal?
    requires MayEnter(t, th, n) && (OwnSession(t, th.ctx).Some? <==> th.root.InCall?)
    ensures FinalOf(Enter(m, t, th, n).threads[t], programs) == FinalOf(th, programs)
  {
    if th.root.InCall? {
      ItemsCarry(n.body, true, programs);
      var items := [] + [Leave(n)] + Items(n.body);
      CarriedConcat([] + [Leave(n)], Items(n.body), Normal, true, programs);
      CarriedOne([], Leave(n), OutcomeOf(n.body, true), true, programs);
      StackStep(th, items, Normal, programs);
      var rest := Stack(Popped(th));
      assert rest + items == rest + [Leave(n)] + Items(n.body);
      hide FinalOf, Items, CarriedThrough;
    } else {
      ItemsCarry(n.body, true, programs);
      assert th.outer == Popped(th).outer + [Do(n)];
      CarriedOne(Popped(th).outer, Do(n), Normal, false, programs);
      hide Items, CarriedThrough;
    }
  }

  lemma RootKeepsFinal(m: Machine, t: Task, newId: Task, programs: Programs)
    requires Enabled(m, Run(t, newId)) && !HasItem(m.threads[t])
    ensures FinalOf(RunThread(m, t, newId).threads[t], programs) == FinalOf(m.threads[t], programs)
  {
    var th := m.threads[t];
    match th.root {
      case NoRoot =>
      case InCall(n, s, _) =>
        EndsAsSettled(m.w, s, n, th.mode);
        EndsAsCaught(n, Settle(m.w, s, n, th.mode).0);
        hide Settle, Caught, EndOf;
      case Closing(n, _) =>
        EndsAsCaught(n, th.mode);
    }
  }

  // ---------------------------------------------------------------- every step

  ghost predicate JoinsWithin(th: Thread, th': Thread, extra: set<Task>) {
    forall c | WaitsFor(th', c) :: WaitsFor(th, c) || c in extra
  }

  lemma JoinsStayKnown(th: Thread, th': Thread, extra: set<Task>, programs: Programs, programs': Programs)
    requires JoinsKnown(th.outer, programs) && JoinsKnown(th.inner, programs) && JoinsWithin(th, th', extra)
    requires programs.Keys <= programs'.Keys && extra <= programs'.Keys
    ensures JoinsKnown(th'.outer, programs') && JoinsKnown(th'.inner, programs')
  {
    forall i | 0 <= i < |th'.outer| && th'.outer[i].Join? ensures th'.outer[i].child in programs' {
      assert WaitsFor(th', th'.outer[i].child);
    }
    forall i | 0 <= i < |th'.inner| && th'.inner[i].Join? ensures th'.inner[i].child in programs' {
      assert WaitsFor(th', th'.inner[i].child);
    }
  }

  lemma {:induction false} ItemsJoinNobody(nodes: seq<Node>, c: Task)
    ensures Join(c) !in Items(nodes)
  {
    if nodes != [] { ItemsJoinNobody(nodes[1..], c); }
  }

  /** The task of the step: bound for the same end, and waiting for nobody new but a task it spawned. */
  ghost predicate GoodStep(m: Machine, t: Task, th: Thread, th': Thread, newId: Task, programs: Programs, programs': Programs) {
    && FinalOf(th', programs') == FinalOf(th, programs)
    && JoinsWithin(th, th', if programs' == programs then {} else {newId})
  }

  lemma SpawnIsGood(m: Machine, t: Task, newId: Task, programs: Programs)
    requires OnCourse(m, programs) && Enabled(m, Run(t, newId)) && Spawns(m, t)
    ensures var child := Top(m.threads[t]).n.child;
            && RunItem(m, t, newId).threads[newId] == NewThread(m.threads[t].ctx, child)
            && FinalOf(RunItem(m, t, newId).threads[t], programs[newId := child]) == FinalOf(m.threads[t], programs)
            && JoinsWithin(m.threads[t], RunItem(m, t, newId).threads[t], {newId})
  {
    var th := m.threads[t];
    var n, programs' := Top(th).n, programs[newId := Top(th).n.child];
    FinalFrame(th, programs, newId, n.child);
    var rest := Stack(Popped(th));
    assert Stack(th) == rest + [Top(th)];
    if n.awaited {
      CarriedOne([], Join(newId), Normal, th.root.InCall?, programs');
      assert [] + [Join(newId)] == [Join(newId)];
      StackStep(th, [Join(newId)], Normal, programs');
      hide FinalOf, CarriedThrough, Items;
    } else {
      PopStep(th, Normal, programs');
      hide FinalOf, CarriedThrough, Items;
    }
  }

  lemma JoinIsGood(m: Machine, t: Task, newId: Task, programs: Programs)
    requires OnCourse(m, programs) && Enabled(m, Run(t, newId)) && HasItem(m.threads[t]) && Top(m.threads[t]).Join?
    ensures FinalOf(RunItem(m, t, newId).threads[t], programs) == FinalOf(m.threads[t], programs)
  {
    var th := m.threads[t];
    var c := Top(th).child;
    if th.mode.Normal? {
      assert Expected(c, m.threads[c], programs);
      assert CarriedThrough([], m.threads[c].mode, false, programs) == m.threads[c].mode;
    }
    PopStep(th, if th.mode.Normal? then m.threads[c].mode else th.mode, programs);
    hide FinalOf, CarriedThrough, Carried, OutcomeOf;
  }

  /** Items other than spawns and joins. */
  lemma PlainItemIsGood(m: Machine, t: Task, newId: Task, programs: Programs)
    requires Inv(m) && Enabled(m, Run(t, newId)) && HasItem(m.threads[t]) && !Trespasses(m, Run(t, newId))
    requires !Top(m.threads[t]).Join? && !Spawns(m, t)
    ensures FinalOf(RunItem(m, t, newId).threads[t], programs) == FinalOf(m.threads[t], programs)
    ensures JoinsWithin(m.threads[t], RunItem(m, t, newId).threads[t], {})
  {
    var th := m.threads[t];
    var rest := Stack(Popped(th));
    assert Stack(th) == rest + [Top(th)];
    match Top(th) {
      case Leave(n) =>
        EndsAsCaught(n, th.mode);
        PopStep(th, EndOf(n, th.mode, false), programs);
        hide FinalOf, EndOf, Caught;
      case Do(n) =>
        if th.mode.Raised? {
          PopStep(th, th.mode, programs);
          hide FinalOf;
        } else if n.Fail? {
          PopStep(th, Raised(n.e), programs);
          hide FinalOf;
        } else {
          CallIsGood(m, t, newId, programs);
        }
    }
  }

  lemma CallIsGood(m: Machine, t: Task, newId: Task, programs: Programs)
    requires Inv(m) && Enabled(m, Run(t, newId)) && HasItem(m.threads[t]) && !Trespasses(m, Run(t, newId))
    requires m.threads[t].mode.Normal? && Top(m.threads[t]).Do? && Top(m.threads[t]).n.Call?
    ensures FinalOf(RunItem(m, t, newId).threads[t], programs) == FinalOf(m.threads[t], programs)
    ensures JoinsWithin(m.threads[t], RunItem(m, t, newId).threads[t], {})
  {
    var th := m.threads[t];
    var n := Top(th).n;
    assert ThreadOk(t, th, m.w);
    EnterKeepsFinal(m, t, th, n, programs);
    var rest := Stack(Popped(th));
    assert Stack(th) == rest + [Top(th)];
    forall c ensures Join(c) !in Items(n.body) { ItemsJoinNobody(n.body, c); }
    hide FinalOf, Items, Inv, ThreadOk;
  }

  /** Every step of a task, without cancellation. */
  lemma RunIsGood(m: Machine, t: Task, newId: Task, programs: Programs)
    requires Inv(m) && OnCourse(m, programs) && Enabled(m, Run(t, newId)) && !Trespasses(m, Run(t, newId))
    ensures var programs' := NextPrograms(m, Run(t, newId), programs);
            && FinalOf(RunThread(m, t, newId).threads[t], programs') == FinalOf(m.threads[t], programs)
            && JoinsWithin(m.threads[t], RunThread(m, t, newId).threads[t], if Spawns(m, t) then {newId} else {})
  {
    hide FinalOf, Inv, Trespasses, RunItem;
    var th := m.threads[t];
    if !HasItem(th) {
      RootKeepsFinal(m, t, newId, programs);
    } else if Spawns(m, t) {
      SpawnIsGood(m, t, newId, programs);
    } else if Top(th).Join? {
      JoinIsGood(m, t, newId, programs);
      JoinPops(m, t, newId);
    } else {
      PlainItemIsGood(m, t, newId, programs);
    }
  }

  lemma JoinPops(m: Machine, t: Task, newId: Task)
    requires Enabled(m, Run(t, newId)) && HasItem(m.threads[t]) && Top(m.threads[t]).Join?
    ensures JoinsWithin(m.threads[t], RunItem(m, t, newId).threads[t], {})
  {
    var th := m.threads[t];
    assert Stack(th) == Stack(Popped(th)) + [Top(th)];
  }

  lemma OthersStand(m: Machine, t: Task, newId: Task)
    requires Enabled(m, Run(t, newId))
    ensures var m' := RunThread(m, t, newId);
            && m'.threads.Keys == m.threads.Keys + (if Spawns(m, t) then {newId} else {})
            && forall u | u in m.threads && u != t :: m'.threads[u] == m.threads[u]
  {
    hide Items, Settle, Close, Create, Reuse;
  }

  lemma RunKeepsCourse(m: Machine, t: Task, newId: Task, programs: Programs)
    requires Inv(m) && OnCourse(m, programs) && Enabled(m, Run(t, newId)) && !Trespasses(m, Run(t, newId))
    ensures OnCourse(RunThread(m, t, newId), NextPrograms(m, Run(t, newId), programs))
  {
    var m', programs' := RunThread(m, t, newId), NextPrograms(m, Run(t, newId), programs);
    RunIsGood(m, t, newId, programs);
    OthersStand(m, t, newId);
    var extra := if Spawns(m, t) then {newId} else {};
    JoinsStayKnown(m.threads[t], m'.threads[t], extra, programs, programs');
    assert Expected(t, m'.threads[t], programs');
    forall u | u in m.threads && u != t ensures Expected(u, m'.threads[u], programs') {
      assert Expected(u, m.threads[u], programs);
      if Spawns(m, t) {
        FinalFrame(m.threads[u], programs, newId, Top(m.threads[t]).n.child);
      }
    }
    if Spawns(m, t) {
      var child := Top(m.threads[t]).n.child;
      SpawnIsGood(m, t, newId, programs);
      NewIsExpected(m, t, newId, child, programs');
    }
    hide Expected, RunThread, Inv;
    forall u, c | u in m'.threads && WaitsFor(m'.threads[u], c) ensures c in m'.threads {
      if u == newId && u !in m.threads {
        var child := Top(m.threads[t]).n.child;
        ItemsJoinNobody(child, c);
      }
    }
  }

  lemma NewIsExpected(m: Machine, t: Task, newId: Task, child: seq<Node>, programs: Programs)
    requires t in m.threads && newId in programs && programs[newId] == child
    ensures Expected(newId, NewThread(m.threads[t].ctx, child), programs)
  {
    ItemsCarry(child, false, programs);
    forall c ensures Join(c) !in Items(child) { ItemsJoinNobody(child, c); }
    forall i | 0 <= i < |Items(child)| ensures !Items(child)[i].Join? {
      assert Items(child)[i] in Items(child);
    }
    hide Items, CarriedThrough, OutcomeOf;
  }

  // ---------------------------------------------------------------- what every schedule keeps

  predicate NoCancel(run: seq<Step>) {
    forall step | step in run :: !step.Cancel?
  }

  lemma ReapKeepsCourse(m: Machine, t: Task, programs: Programs)
    requires OnCourse(m, programs) && Enabled(m, Reap(t))
    ensures OnCourse(m.(threads := m.threads - {t}), programs)
  {
    hide Expected;
    var threads := m.threads - {t};
    forall u, c | u in threads && WaitsFor(threads[u], c) ensures c in threads {
      assert WaitsFor(m.threads[u], c);
    }
  }

  lemma StartsOnCourse(nodes: seq<Node>)
    ensures OnCourse(Initial(nodes), map[0 := nodes])
  {
    NewIsExpected(Initial(nodes), 0, 0, nodes, map[0 := nodes]);
    forall c ensures Join(c) !in Items(nodes) { ItemsJoinNobody(nodes, c); }
    hide Expected, Items;
  }

  lemma {:induction false} RunKeepsOnCourse(nodes: seq<Node>, run: seq<Step>)
    requires AllLawful(Initial(nodes), run) && NoCancel(run)
    ensures OnCourse(After(Initial(nodes), run), ProgramsAfter(nodes, run))
  {
    if run == [] {
      StartsOnCourse(nodes);
    } else {
      var n := |run| - 1;
      assert run[n] in run && forall step | step in run[..n] :: step in run;
      RunKeepsOnCourse(nodes, run[..n]);
      RunKeepsInv(nodes, run[..n]);
      var mid, programs := After(Initial(nodes), run[..n]), ProgramsAfter(nodes, run[..n]);
      if Enabled(mid, run[n]) {
        match run[n] {
          case Run(t, newId) => RunKeepsCourse(mid, t, newId, programs);
          case Reap(t) => ReapKeepsCourse(mid, t, programs);
          case Cancel(_) => assert false;
        }
      }
      hide Inv, OnCourse, RunThread, Trespasses, Enabled;
    }
  }

  /**
   Scheduling changes nothing about what a task returns or raises: in every schedule without
   cancellation and trespass, each task that ended stands as its own program says.
   */
  lemma OutcomesSurviveAnySchedule(nodes: seq<Node>, run: seq<Step>, t: Task)
    requires AllLawful(Initial(nodes), run) && NoCancel(run)
    requires t in After(Initial(nodes), run).threads && Ended(After(Initial(nodes), run).threads[t])
    ensures t in ProgramsAfter(nodes, run)
    ensures After(Initial(nodes), run).threads[t].mode == OutcomeOf(ProgramsAfter(nodes, run)[t], false)
  {
    RunKeepsOnCourse(nodes, run);
    var th := After(Initial(nodes), run).threads[t];
    assert Expected(t, th, ProgramsAfter(nodes, run));
    assert CarriedThrough([], th.mode, false, ProgramsAfter(nodes, run)) == th.mode;
  }

  /** The first task keeps its program as long as its identity is not freed. */
  lemma {:induction false} FirstProgram(nodes: seq<Node>, run: seq<Step>)
    requires Reap(0) !in run
    ensures 0 in After(Initial(nodes), run).threads
    ensures 0 in ProgramsAfter(nodes, run) && ProgramsAfter(nodes, run)[0] == nodes
  {
    if run != [] {
      var n := |run| - 1;
      assert run[n] in run && forall step | step in run[..n] :: step in run;
      FirstProgram(nodes, run[..n]);
      var mid := After(Initial(nodes), run[..n]);
      if Enabled(mid, run[n]) && run[n].Run? {
        OthersStand(mid, run[n].t, run[n].newId);
        hide RunThread;
      }
    }
  }

  /** So the tree that was started returns what its sequential meaning does. */
  lemma SequentialOutcomeIsReached(nodes: seq<Node>, run: seq<Step>)
    requires AllLawful(Initial(nodes), run) && NoCancel(run) && Reap(0) !in run
    ensures 0 in After(Initial(nodes), run).threads
    ensures Ended(After(Initial(nodes), run).threads[0]) ==>
              After(Initial(nodes), run).threads[0].mode == Exec(nodes, 0, None, Fresh()).0
  {
    FirstProgram(nodes, run);
    ExecEnds(nodes, 0, None, Fresh());
    hide Ended, Exec, OutcomeOf;
    if Ended(After(Initial(nodes), run).threads[0]) {
      OutcomesSurviveAnySchedule(nodes, run, 0);
    }
  }

  // ---------------------------------------------------------------- single calls and cancellation

  /** A root call whose body is done: after its two segments the task stands as the call ends. */
  lemma RootCallEnds(m: Machine, t: Task, newId: Task)
    requires Enabled(m, Run(t, newId)) && m.threads[t].root.InCall? && m.threads[t].inner == []
    ensures var m1 := Apply(m, Run(t, newId));
            && Enabled(m1, Run(t, newId))
            && var th, th2 := m.threads[t], Apply(m1, Run(t, newId)).threads[t];
               && th2.mode == EndOf(th.root.call, th.mode, true)
               && th2.root.NoRoot? && th2.outer == th.outer && th2.ctx == th.root.saved
  {
    var th := m.threads[t];
    EndsAsSettled(m.w, th.root.s, th.root.call, th.mode);
    hide Settle, EndOf, Caught, Close;
  }

  /** Waiting for a child that ended takes over how it ended. */
  lemma JoinTakesOver(m: Machine, t: Task, newId: Task)
    requires Enabled(m, Run(t, newId)) && HasItem(m.threads[t]) && Top(m.threads[t]).Join? && m.threads[t].mode.Normal?
    ensures Apply(m, Run(t, newId)).threads[t] == Popped(m.threads[t]).(mode := m.threads[Top(m.threads[t]).child].mode)
  {
  }

  lemma StepKeepsCancelled(m: Machine, step: Step, t: Task)
    requires Enabled(m, step) && t in m.threads && m.threads[t].mode == Raised(Cancelled) && step != Reap(t)
    ensures t in Apply(m, step).threads && Apply(m, step).threads[t].mode == Raised(Cancelled)
  {
    if step.Run? && step.t == t && m.threads[t].root.InCall? {
      EndsAsSettled(m.w, m.threads[t].root.s, m.threads[t].root.call, Raised(Cancelled));
    }
    hide Items, Close, Create, Reuse;
  }

  /** A cancelled task passes the cancellation through all its calls, and ends cancelled. */
  lemma {:induction false} CancelledStaysCancelled(m: Machine, run: seq<Step>, t: Task)
    requires t in m.threads && m.threads[t].mode == Raised(Cancelled) && Reap(t) !in run
    ensures t in After(m, run).threads && After(m, run).threads[t].mode == Raised(Cancelled)
  {
    if run != [] {
      var n := |run| - 1;
      assert run[n] in run && forall step | step in run[..n] :: step in run;
      CancelledStaysCancelled(m, run[..n], t);
      if Enabled(After(m, run[..n]), run[n]) {
        StepKeepsCancelled(After(m, run[..n]), run[n], t);
      }
      hide Apply, Enabled;
    }
  }
}
