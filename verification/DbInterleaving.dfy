/**
 The same call trees under a scheduler: tasks are cut at their awaits and interleaved in any order,
 children outlive the calls that spawned them, and any task may be cancelled at any await. A task
 is known by the identity of its object, which Python gives to a new object once the old one is gone.
 */
module DbInterleaving {
  import opened Common
  import opened DbSessions

  type CallNode = n: Node | n.Call? witness Call(Decorated, false, false, false, false, [])

  /** What is left to do: a node, the end of a nested call, or a child to wait for. */
  datatype Item = Do(n: Node) | Leave(call: CallNode) | Join(child: Task)

  /** The call that opened the task's session, while its body runs and while the session closes. */
  datatype Root = NoRoot | InCall(call: CallNode, s: Session, saved: Context) | Closing(call: CallNode, s: Session)

  /** The last item of a stack is next; `inner` is the body of the root call, `outer` what follows it. */
  datatype Thread = Thread(ctx: Context, outer: seq<Item>, root: Root, inner: seq<Item>, mode: Outcome)

  datatype Machine = Machine(w: World, threads: map<Task, Thread>)

  /** `newId` is the identity a spawned task gets; `Reap` frees a finished task nobody waits for. */
  datatype Step = Run(t: Task, newId: Task) | Cancel(t: Task) | Reap(t: Task)

  // ---------------------------------------------------------------- one segment of a task

  function Items(nodes: seq<Node>): seq<Item> {
    if nodes == [] then [] else Items(nodes[1..]) + [Do(nodes[0])]
  }

  function Stack(th: Thread): seq<Item> {
    if th.root.NoRoot? then th.outer else th.inner
  }

  function WithStack(th: Thread, items: seq<Item>): Thread {
    if th.root.NoRoot? then th.(outer := items) else th.(inner := items)
  }

  predicate Ended(th: Thread) {
    th.root.NoRoot? && th.outer == []
  }

  predicate HasItem(th: Thread) {
    !th.root.Closing? && Stack(th) != []
  }

  function Top(th: Thread): Item
    requires HasItem(th)
  {
    Stack(th)[|Stack(th)| - 1]
  }

  function Popped(th: Thread): Thread
    requires HasItem(th)
  {
    WithStack(th, Stack(th)[..|Stack(th)| - 1])
  }

  function NewThread(ctx: Context, nodes: seq<Node>): Thread {
    Thread(ctx, Items(nodes), NoRoot, [], Normal)
  }

  /** A task opens a session only outside any call that opened one; inside, `OwnSession` finds it. */
  predicate MayEnter(t: Task, th: Thread, n: Node) {
    n.Call? ==> OwnSession(t, th.ctx).Some? || th.root.NoRoot?
  }

  predicate Enabled(m: Machine, step: Step) {
    match step
    case Run(t, newId) =>
      && t in m.threads && !Ended(m.threads[t]) && newId !in m.threads
      && (HasItem(m.threads[t]) && m.threads[t].mode.Normal? ==>
            match Top(m.threads[t])
            case Do(n) => MayEnter(t, m.threads[t], n)
            case Leave(_) => true
            case Join(c) => c in m.threads && Ended(m.threads[c]))
    case Cancel(t) => t in m.threads && !Ended(m.threads[t])
    case Reap(t) => t in m.threads && Ended(m.threads[t]) && forall u | u in m.threads :: !WaitsFor(m.threads[u], t)
  }

  predicate WaitsFor(th: Thread, t: Task) {
    Join(t) in th.outer || Join(t) in th.inner
  }

  /** The call enters: reuse the task's own session, or open one. */
  function Enter(m: Machine, t: Task, th: Thread, n: CallNode): Machine
    requires HasItem(th) && MayEnter(t, th, n)
  {
    var rest := Popped(th);
    match OwnSession(t, th.ctx)
    case Some(s) =>
      Machine(Reuse(m.w, t, s), m.threads[t := WithStack(th, Stack(rest) + [Leave(n)] + Items(n.body))])
    case None =>
      var s := m.w.nextSession;
      Machine(Create(m.w, t, n.entry),
              m.threads[t := Thread(Some((t, s)), rest.outer, InCall(n, s, th.ctx), Items(n.body), Normal)])
  }

  function RunItem(m: Machine, t: Task, newId: Task): Machine
    requires Enabled(m, Run(t, newId)) && HasItem(m.threads[t])
  {
    var th := m.threads[t];
    var rest := Popped(th);
    match Top(th)
    case Leave(n) => m.(threads := m.threads[t := rest.(mode := Caught(n, th.mode))])
    case Join(c) =>
      m.(threads := m.threads[t := if th.mode.Normal? then rest.(mode := m.threads[c].mode) else rest])
    case Do(n) =>
      if th.mode.Raised? then m.(threads := m.threads[t := rest])
      else
        match n
        case Fail(e) => m.(threads := m.threads[t := rest.(mode := Raised(e))])
        case Spawn(awaited, child) =>
          var waiting := if awaited then WithStack(th, Stack(rest) + [Join(newId)]) else rest;
          m.(threads := m.threads[t := waiting][newId := NewThread(th.ctx, child)])
        case Call(_, _, _, _, _, _) => Enter(m, t, th, n)
  }

  /** From one await of a task to its next. */
  function RunThread(m: Machine, t: Task, newId: Task): Machine
    requires Enabled(m, Run(t, newId))
  {
    var th := m.threads[t];
    if HasItem(th) then RunItem(m, t, newId)
    else
      match th.root
      case NoRoot => m
      case InCall(n, s, saved) =>
        var (o, w) := Settle(m.w, s, n, th.mode);
        Machine(w, m.threads[t := th.(ctx := saved, root := Closing(n, s), mode := o)])
      case Closing(n, s) =>
        Machine(Close(m.w, s, n.entry), m.threads[t := th.(root := NoRoot, inner := [], mode := Caught(n, th.mode))])
  }

  function Apply(m: Machine, step: Step): Machine
    requires Enabled(m, step)
  {
    match step
    case Run(t, newId) => RunThread(m, t, newId)
    case Cancel(t) => m.(threads := m.threads[t := m.threads[t].(mode := Raised(Cancelled))])
    case Reap(t) => m.(threads := m.threads - {t})
  }

  /** A schedule entry that cannot happen is skipped. */
  function After(m: Machine, run: seq<Step>): Machine {
    if run == [] then m
    else
      var mid, step := After(m, run[..|run| - 1]), run[|run| - 1];
      if Enabled(mid, step) then Apply(mid, step) else mid
  }

  function Initial(nodes: seq<Node>): Machine {
    Machine(Fresh(), map[0 := NewThread(None, nodes)])
  }

  // ---------------------------------------------------------------- the invariant

  /** The task that created a session. */
  function CreatorOf(log: seq<Event>, s: Session): Option<Task> {
    if log == [] then None
    else
      var e := log[|log| - 1];
      if e.Created? && e.s == s then Some(e.owner) else CreatorOf(log[..|log| - 1], s)
  }

  lemma CreatorSnoc(log: seq<Event>, e: Event)
    ensures forall s :: CreatorOf(log + [e], s) == if e.Created? && e.s == s then Some(e.owner) else CreatorOf(log, s)
  {
    assert (log + [e])[..|log|] == log;
  }

  ghost predicate SameCreators(w: World, w': World) {
    forall s: Session :: CreatorOf(w'.log, s) == CreatorOf(w.log, s)
  }

  /** A task's own session is the one its root call opened, and that is open until it is settled. */
  ghost predicate ThreadOk(t: Task, th: Thread, w: World) {
    match th.root
    case NoRoot => true
    case InCall(_, s, saved) =>
      && th.ctx == Some((t, s)) && OwnSession(t, saved).None? && CreatorOf(w.log, s) == Some(t)
      && s < w.nextSession && StatusOf(w.log, s) == Open(t)
    case Closing(_, s) =>
      && OwnSession(t, th.ctx).None? && CreatorOf(w.log, s) == Some(t)
      && s < w.nextSession && (StatusOf(w.log, s).Open? || StatusOf(w.log, s).Settled?)
  }

  predicate Holds(th: Thread, s: Session) {
    !th.root.NoRoot? && th.root.s == s
  }

  /** A context names a session with the task that created it. */
  predicate KnownContext(ctx: Context, w: World) {
    ctx.Some? ==> ctx.value.1 < w.nextSession && CreatorOf(w.log, ctx.value.1) == Some(ctx.value.0)
  }

  ghost predicate Contexts(threads: map<Task, Thread>, w: World) {
    forall t | t in threads ::
      KnownContext(threads[t].ctx, w) && (threads[t].root.InCall? ==> KnownContext(threads[t].root.saved, w))
  }

  ghost predicate Exclusive(threads: map<Task, Thread>) {
    forall t, u, s: Session | t in threads && u in threads && Holds(threads[t], s) && Holds(threads[u], s) :: t == u
  }

  ghost predicate RestFinished(threads: map<Task, Thread>, w: World) {
    forall s: Session | s < w.nextSession :: StatusOf(w.log, s).Finished? || exists t :: t in threads && Holds(threads[t], s)
  }

  ghost predicate Inv(m: Machine) {
    && Sane(m.w) && Exclusive(m.threads) && RestFinished(m.threads, m.w) && Contexts(m.threads, m.w)
    && forall t | t in m.threads :: ThreadOk(t, m.threads[t], m.w)
  }

  predicate Spawns(m: Machine, t: Task) {
    && t in m.threads && HasItem(m.threads[t]) && m.threads[t].mode.Normal?
    && Top(m.threads[t]).Do? && Top(m.threads[t]).n.Spawn?
  }

  /** A spawned task does not get the identity that the context it inherits names as an owner. */
  predicate Apart(m: Machine, step: Step) {
    step.Run? && Spawns(m, step.t) && m.threads[step.t].ctx.Some? ==> m.threads[step.t].ctx.value.0 != step.newId
  }

  /** A task outside any call of its own enters one, and finds a session under its identity. */
  predicate Trespasses(m: Machine, step: Step) {
    && step.Run? && step.t in m.threads && HasItem(m.threads[step.t]) && m.threads[step.t].mode.Normal?
    && Top(m.threads[step.t]).Do? && Top(m.threads[step.t]).n.Call?
    && m.threads[step.t].root.NoRoot? && OwnSession(step.t, m.threads[step.t].ctx).Some?
  }

  // ---------------------------------------------------------------- one step keeps it

  /** The world changed at session s only, which now has a status that suits the thread. */
  lemma WorldStep(m: Machine, w: World, t: Task, th: Thread, s: Session)
    requires Inv(m) && t in m.threads && Sane(w) && w.nextSession == m.w.nextSession && s < w.nextSession
    requires (forall x: Session | x != s :: StatusOf(w.log, x) == StatusOf(m.w.log, x)) && SameCreators(m.w, w)
    requires Holds(m.threads[t], s) && ThreadOk(t, th, w)
    requires th.root.NoRoot? || th.root.s == s
    requires th.root.NoRoot? ==> StatusOf(w.log, s).Finished?
    requires KnownContext(th.ctx, w) && (th.root.InCall? ==> KnownContext(th.root.saved, w))
    ensures Inv(Machine(w, m.threads[t := th]))
  {
    var threads := m.threads[t := th];
    hide StatusOf, Sane, CreatorOf;
    forall x: Session | x < w.nextSession
      ensures StatusOf(w.log, x).Finished? || exists u :: u in threads && Holds(threads[u], x)
    {
      if x != s && !StatusOf(w.log, x).Finished? {
        var u :| u in m.threads && Holds(m.threads[u], x);
        assert u != t && threads[u] == m.threads[u];
      } else if x == s && !th.root.NoRoot? {
        assert Holds(threads[t], x);
      }
    }
  }

  /** Only the thread changed, not what it holds. */
  lemma ThreadStep(m: Machine, t: Task, th: Thread)
    requires Inv(m) && t in m.threads && th.root == m.threads[t].root && th.ctx == m.threads[t].ctx
    ensures Inv(m.(threads := m.threads[t := th]))
  {
    hide StatusOf, Sane, CreatorOf;
    var threads := m.threads[t := th];
    assert forall u, s: Session :: u in m.threads ==> (Holds(threads[u], s) <==> Holds(m.threads[u], s));
  }

  lemma SpawnKeepsInv(m: Machine, t: Task, th: Thread, newId: Task, nodes: seq<Node>)
    requires Inv(m) && t in m.threads && th.root == m.threads[t].root && th.ctx == m.threads[t].ctx
    requires newId !in m.threads
    ensures Inv(m.(threads := m.threads[t := th][newId := NewThread(th.ctx, nodes)]))
  {
    ThreadStep(m, t, th);
    hide StatusOf, Sane, CreatorOf, Items;
    var before := m.threads[t := th];
    var threads := before[newId := NewThread(th.ctx, nodes)];
    assert forall u | u in before :: threads[u] == before[u];
  }

  lemma ReuseKeepsInv(m: Machine, t: Task, th: Thread, s: Session)
    requires Inv(m) && t in m.threads && OwnSession(t, m.threads[t].ctx) == Some(s) && m.threads[t].root.InCall?
    requires th.root == m.threads[t].root && th.ctx == m.threads[t].ctx
    ensures Inv(Machine(Reuse(m.w, t, s), m.threads[t := th]))
  {
    assert ThreadOk(t, m.threads[t], m.w);
    StatusSnoc(m.w.log, Used(s, t));
    CreatorSnoc(m.w.log, Used(s, t));
    var w := Reuse(m.w, t, s);
    assert StatusOf(w.log, s) == Open(t) == StatusOf(m.w.log, s);
    hide StatusOf, CreatorOf;
    WorldStep(m, w, t, th, s);
  }

  lemma CreateNames(w: World, t: Task, entry: Entry)
    ensures var w1 := Create(w, t, entry);
            && CreatorOf(w1.log, w.nextSession) == Some(t)
            && forall s: Session | s != w.nextSession :: CreatorOf(w1.log, s) == CreatorOf(w.log, s)
  {
    var e, u := Created(w.nextSession, t, entry.Direct?), Used(w.nextSession, t);
    assert w.log + [e, u] == w.log + [e] + [u];
    CreatorSnoc(w.log, e);
    CreatorSnoc(w.log + [e], u);
  }

  lemma SettleNamesNobody(w: World, s: Session, n: Node, o: Outcome)
    requires n.Call?
    ensures SameCreators(w, Settle(w, s, n, o).1)
    ensures SameCreators(w, Close(w, s, n.entry))
  {
    SettleIs(w, s, n, o);
    CreatorSnoc(w.log, Committed(s));
    CreatorSnoc(w.log, RolledBack(s));
    CreatorSnoc(w.log, Closed(s));
    hide Settle, CreatorOf;
  }

  lemma OpenKeepsInv(m: Machine, t: Task, th: Thread, entry: Entry, call: CallNode)
    requires Inv(m) && t in m.threads && m.threads[t].root.NoRoot? && OwnSession(t, m.threads[t].ctx).None?
    requires th.ctx == Some((t, m.w.nextSession)) && th.root == InCall(call, m.w.nextSession, m.threads[t].ctx)
    ensures Inv(Machine(Create(m.w, t, entry), m.threads[t := th]))
  {
    var w, threads := Create(m.w, t, entry), m.threads[t := th];
    CreateOpens(m.w, t, entry);
    CreateNames(m.w, t, entry);
    assert ThreadOk(t, m.threads[t], m.w);
    hide StatusOf, Sane, CreatorOf;
    forall s: Session | s < w.nextSession
      ensures StatusOf(w.log, s).Finished? || exists u :: u in threads && Holds(threads[u], s)
    {
      if s == m.w.nextSession {
        assert Holds(threads[t], s);
      } else if !StatusOf(w.log, s).Finished? {
        var u :| u in m.threads && Holds(m.threads[u], s);
        assert u != t && threads[u] == m.threads[u];
      }
    }
    forall u | u in threads ensures ThreadOk(u, threads[u], w) {
      assert u != t ==> ThreadOk(u, m.threads[u], m.w);
    }
    assert forall u | u in m.threads :: ThreadOk(u, m.threads[u], m.w);
  }

  lemma RunItemKeepsInv(m: Machine, t: Task, newId: Task)
    requires Inv(m) && Enabled(m, Run(t, newId)) && HasItem(m.threads[t]) && !Trespasses(m, Run(t, newId))
    ensures Inv(RunItem(m, t, newId))
  {
    var th := m.threads[t];
    var rest := Popped(th);
    hide Inv, Items;
    match Top(th) {
      case Leave(n) => ThreadStep(m, t, rest.(mode := Caught(n, th.mode)));
      case Join(c) => ThreadStep(m, t, if th.mode.Normal? then rest.(mode := m.threads[c].mode) else rest);
      case Do(n) =>
        if th.mode.Raised? {
          ThreadStep(m, t, rest);
        } else {
          match n {
            case Fail(e) => ThreadStep(m, t, rest.(mode := Raised(e)));
            case Spawn(awaited, child) =>
              var waiting := if awaited then WithStack(th, Stack(rest) + [Join(newId)]) else rest;
              SpawnKeepsInv(m, t, waiting, newId, child);
            case Call(entry, _, _, _, _, body) =>
              match OwnSession(t, th.ctx) {
                case Some(s) => ReuseKeepsInv(m, t, WithStack(th, Stack(rest) + [Leave(n)] + Items(body)), s);
                case None =>
                  var s := m.w.nextSession;
                  OpenKeepsInv(m, t, Thread(Some((t, s)), rest.outer, InCall(n, s, th.ctx), Items(body), Normal), entry, n);
              }
          }
        }
    }
  }

  lemma RootStepKeepsInv(m: Machine, t: Task, newId: Task)
    requires Inv(m) && Enabled(m, Run(t, newId)) && !HasItem(m.threads[t])
    ensures Inv(RunThread(m, t, newId))
  {
    var th := m.threads[t];
    assert ThreadOk(t, th, m.w);
    match th.root {
      case NoRoot =>
      case InCall(n, s, saved) =>
        var (o, w) := Settle(m.w, s, n, th.mode);
        SettleKeepsSane(m.w, s, n, th.mode);
        SettleNamesNobody(m.w, s, n, th.mode);
        hide StatusOf, Settle, Sane, CreatorOf;
        WorldStep(m, w, t, th.(ctx := saved, root := Closing(n, s), mode := o), s);
      case Closing(n, s) =>
        CloseFinishes(m.w, s, n.entry);
        SettleNamesNobody(m.w, s, n, th.mode);
        hide StatusOf, Sane, CreatorOf;
        WorldStep(m, Close(m.w, s, n.entry), t, th.(root := NoRoot, inner := [], mode := Caught(n, th.mode)), s);
    }
  }

  lemma ReapKeepsInv(m: Machine, t: Task)
    requires Inv(m) && t in m.threads && Ended(m.threads[t])
    ensures Inv(m.(threads := m.threads - {t}))
  {
    hide StatusOf, Sane, CreatorOf;
    var threads := m.threads - {t};
    forall s: Session | s < m.w.nextSession
      ensures StatusOf(m.w.log, s).Finished? || exists u :: u in threads && Holds(threads[u], s)
    {
      if !StatusOf(m.w.log, s).Finished? {
        var u :| u in m.threads && Holds(m.threads[u], s);
        assert u in threads && threads[u] == m.threads[u];
      }
    }
  }

  lemma StepKeepsInv(m: Machine, step: Step)
    requires Inv(m) && Enabled(m, step) && !Trespasses(m, step)
    ensures Inv(Apply(m, step))
  {
    hide Inv, RunItem;
    match step {
      case Run(t, newId) =>
        if HasItem(m.threads[t]) {
          RunItemKeepsInv(m, t, newId);
        } else {
          RootStepKeepsInv(m, t, newId);
        }
      case Cancel(t) => ThreadStep(m, t, m.threads[t].(mode := Raised(Cancelled)));
      case Reap(t) => ReapKeepsInv(m, t);
    }
  }

  /** No step of the run trespasses. */
  predicate AllLawful(m: Machine, run: seq<Step>) {
    run != [] ==>
      var mid, step := After(m, run[..|run| - 1]), run[|run| - 1];
      AllLawful(m, run[..|run| - 1]) && !(Enabled(mid, step) && Trespasses(mid, step))
  }

  lemma {:induction false} RunKeepsInv(nodes: seq<Node>, run: seq<Step>)
    requires AllLawful(Initial(nodes), run)
    ensures Inv(After(Initial(nodes), run))
  {
    if run == [] {
      hide Items;
    } else {
      var n := |run| - 1;
      RunKeepsInv(nodes, run[..n]);
      var mid := After(Initial(nodes), run[..n]);
      if Enabled(mid, run[n]) {
        StepKeepsInv(mid, run[n]);
      }
      hide Inv, Apply, Enabled, Trespasses;
    }
  }

  // ---------------------------------------------------------------- identities kept apart

  /** No step of the run spawns a task under an identity that its inherited context names. */
  predicate AllApart(m: Machine, run: seq<Step>) {
    run != [] ==> AllApart(m, run[..|run| - 1]) && Apart(After(m, run[..|run| - 1]), run[|run| - 1])
  }

  /** Outside calls no task finds a session under its identity. */
  ghost predicate Unnamed(m: Machine) {
    forall t | t in m.threads && m.threads[t].root.NoRoot? :: OwnSession(t, m.threads[t].ctx).None?
  }

  lemma StepKeepsUnnamed(m: Machine, step: Step)
    requires Inv(m) && Unnamed(m) && Enabled(m, step) && Apart(m, step)
    ensures Unnamed(Apply(m, step)) && !Trespasses(m, step)
  {
    hide StatusOf, CreatorOf, Items, Exclusive, RestFinished, Contexts, Sane;
    if step.Run? {
      var th := m.threads[step.t];
      assert ThreadOk(step.t, th, m.w);
    }
  }

  /** Keeping identities apart is enough for a run without trespass. */
  lemma {:induction false} ApartIsLawful(nodes: seq<Node>, run: seq<Step>)
    requires AllApart(Initial(nodes), run)
    ensures AllLawful(Initial(nodes), run) && Unnamed(After(Initial(nodes), run))
  {
    if run != [] {
      var n := |run| - 1;
      ApartIsLawful(nodes, run[..n]);
      RunKeepsInv(nodes, run[..n]);
      var mid := After(Initial(nodes), run[..n]);
      if Enabled(mid, run[n]) {
        StepKeepsUnnamed(mid, run[n]);
      }
      hide Inv, Apply, Enabled, Trespasses, Unnamed, Apart;
    }
  }

  // ---------------------------------------------------------------- what every schedule keeps

  /**
   Under every schedule, with children outliving their parents and cancellations at any await, in
   which no task trespasses (it is enough that no spawned task gets the identity its inherited
   context names): every session lives by the rules, the ones not finished are each held by the one
   task that created them, and all are finished when all tasks have ended.
   */
  lemma SessionsSurviveAnySchedule(nodes: seq<Node>, run: seq<Step>)
    requires AllLawful(Initial(nodes), run) || AllApart(Initial(nodes), run)
    ensures var m := After(Initial(nodes), run);
            && (forall s: Session | s >= m.w.nextSession :: StatusOf(m.w.log, s).Unborn?)
            && (forall s: Session | s < m.w.nextSession ::
                  || StatusOf(m.w.log, s).Finished?
                  || (exists t :: t in m.threads && Holds(m.threads[t], s) && CreatorOf(m.w.log, s) == Some(t)
                                  && StatusOf(m.w.log, s) in {Open(t), Settled(true), Settled(false)}))
            && ((forall t | t in m.threads :: Ended(m.threads[t])) ==>
                  forall s: Session | s < m.w.nextSession :: StatusOf(m.w.log, s).Finished?)
  {
    if AllApart(Initial(nodes), run) {
      ApartIsLawful(nodes, run);
    }
    RunKeepsInv(nodes, run);
    var m := After(Initial(nodes), run);
    hide StatusOf, CreatorOf, After, AllApart, AllLawful;
    forall s: Session | s < m.w.nextSession && !StatusOf(m.w.log, s).Finished?
      ensures exists t :: t in m.threads && Holds(m.threads[t], s) && CreatorOf(m.w.log, s) == Some(t)
                          && StatusOf(m.w.log, s) in {Open(t), Settled(true), Settled(false)}
    {
      var t :| t in m.threads && Holds(m.threads[t], s);
      HolderIsCreator(m, t, s);
    }
  }

  lemma HolderIsCreator(m: Machine, t: Task, s: Session)
    requires Inv(m) && t in m.threads && Holds(m.threads[t], s)
    ensures CreatorOf(m.w.log, s) == Some(t) && StatusOf(m.w.log, s) in {Open(t), Settled(true), Settled(false)}
  {
    assert ThreadOk(t, m.threads[t], m.w);
    OpenForCreator(m.w.log, s);
  }

  /** A session is open for the task that created it. */
  lemma {:induction false} OpenForCreator(log: seq<Event>, s: Session)
    ensures StatusOf(log, s).Open? ==> CreatorOf(log, s) == Some(StatusOf(log, s).owner)
  {
    if log != [] {
      OpenForCreator(log[..|log| - 1], s);
    }
  }

  /** Every call of every schedule can enter: below a call that opened a session, the session is found. */
  lemma EveryCallCanEnter(nodes: seq<Node>, run: seq<Step>, t: Task, n: Node)
    requires AllApart(Initial(nodes), run) && t in After(Initial(nodes), run).threads
    ensures var th := After(Initial(nodes), run).threads[t];
            && (HasItem(th) ==> MayEnter(t, th, n))
            && (th.root.InCall? <==> OwnSession(t, th.ctx).Some?)
            && (th.root.InCall? ==> OwnSession(t, th.ctx) == Some(th.root.s))
  {
    ApartIsLawful(nodes, run);
    RunKeepsInv(nodes, run);
    var m := After(Initial(nodes), run);
    assert ThreadOk(t, m.threads[t], m.w);
  }

  // ---------------------------------------------------------------- exactly when a session breaks

  ghost predicate SomeBroken(w: World) {
    exists s: Session :: StatusOf(w.log, s) == Broken
  }

  /** A trespasser uses a session that is finished. */
  lemma TrespassBreaks(m: Machine, step: Step)
    requires Inv(m) && Enabled(m, step) && Trespasses(m, step)
    ensures SomeBroken(Apply(m, step).w)
  {
    var t := step.t;
    var s := OwnSession(t, m.threads[t].ctx).value;
    assert m.threads[t].ctx == Some((t, s));
    assert KnownContext(m.threads[t].ctx, m.w);
    if u :| u in m.threads && Holds(m.threads[u], s) {
      HolderIsCreator(m, u, s);
    }
    assert Apply(m, step).w == Reuse(m.w, t, s);
    StatusSnoc(m.w.log, Used(s, t));
    assert StatusOf(Apply(m, step).w.log, s) == Broken;
  }

  /** What is broken stays broken. */
  lemma BrokenStays(m: Machine, step: Step, s: Session)
    requires Enabled(m, step) && StatusOf(m.w.log, s) == Broken
    ensures StatusOf(Apply(m, step).w.log, s) == Broken
  {
    var log := m.w.log;
    if step.Run? {
      var t, th := step.t, m.threads[step.t];
      var created, used := Created(m.w.nextSession, t, true), Used(m.w.nextSession, t);
      if HasItem(th) {
        if th.mode.Normal? && Top(th).Do? && Top(th).n.Call? {
          EnterKeepsBroken(m, t, th, Top(th).n, s);
        }
        hide StatusOf, Enter, Items;
      } else if th.root.InCall? {
        SettleIs(m.w, th.root.s, th.root.call, th.mode);
        StatusSnoc(log, Committed(th.root.s));
        StatusSnoc(log, RolledBack(th.root.s));
        hide StatusOf, Settle;
      } else {
        StatusSnoc(log, Closed(th.root.s));
        hide StatusOf;
      }
    }
  }

  lemma EnterKeepsBroken(m: Machine, t: Task, th: Thread, n: CallNode, s: Session)
    requires HasItem(th) && MayEnter(t, th, n) && StatusOf(m.w.log, s) == Broken
    ensures StatusOf(Enter(m, t, th, n).w.log, s) == Broken
  {
    match OwnSession(t, th.ctx) {
      case Some(own) =>
        StatusSnoc(m.w.log, Used(own, t));
      case None =>
        var e, u := Created(m.w.nextSession, t, n.entry.Direct?), Used(m.w.nextSession, t);
        assert m.w.log + [e, u] == m.w.log + [e] + [u];
        StatusSnoc(m.w.log, e);
        StatusSnoc(m.w.log + [e], u);
    }
    hide StatusOf, Items;
  }

  lemma {:induction false} TrespassIsRemembered(nodes: seq<Node>, run: seq<Step>)
    requires !AllLawful(Initial(nodes), run)
    ensures SomeBroken(After(Initial(nodes), run).w)
  {
    var n := |run| - 1;
    var mid := After(Initial(nodes), run[..n]);
    assert After(Initial(nodes), run) == if Enabled(mid, run[n]) then Apply(mid, run[n]) else mid;
    if AllLawful(Initial(nodes), run[..n]) {
      RunKeepsInv(nodes, run[..n]);
      hide Inv, Trespasses, Apply, SomeBroken, AllLawful;
      TrespassBreaks(mid, run[n]);
    } else {
      TrespassIsRemembered(nodes, run[..n]);
      var s: Session :| StatusOf(mid.w.log, s) == Broken;
      if Enabled(mid, run[n]) {
        hide Apply, Trespasses, AllLawful;
        BrokenStays(mid, run[n], s);
      }
    }
  }

  /**
   Over whole schedules of any trees, any identities and cancellations: some session is used, settled
   or closed against the rules exactly when some task trespasses, that is, enters a call outside of
   any call of its own while its inherited context names its own identity.
   */
  lemma SessionBreaksExactlyWhen(nodes: seq<Node>, run: seq<Step>)
    ensures SomeBroken(After(Initial(nodes), run).w) <==> !AllLawful(Initial(nodes), run)
  {
    if AllLawful(Initial(nodes), run) {
      RunKeepsInv(nodes, run);
    } else {
      TrespassIsRemembered(nodes, run);
    }
  }

  // ---------------------------------------------------------------- reused identities

  lemma ReusedNameIsFinished(m: Machine, o: Task, s: Session)
    requires Inv(m) && o !in m.threads && KnownContext(Some((o, s)), m.w)
    ensures StatusOf(m.w.log, s).Finished?
  {
    if u :| u in m.threads && Holds(m.threads[u], s) {
      HolderIsCreator(m, u, s);
    }
  }

  /** After a spawn: the new task's first call, when its body starts with one. */
  function AfterFirstCall(m: Machine, t: Task, newId: Task, otherId: Task): Machine
    requires Enabled(m, Run(t, newId))
    requires Enabled(Apply(m, Run(t, newId)), Run(newId, otherId))
  {
    Apply(Apply(m, Run(t, newId)), Run(newId, otherId))
  }

  lemma SpawnedMayRun(m: Machine, t: Task, newId: Task, otherId: Task)
    requires Enabled(m, Run(t, newId)) && Spawns(m, t)
    requires Top(m.threads[t]).n.child != [] && Top(m.threads[t]).n.child[0].Call?
    requires otherId !in m.threads && otherId != newId
    ensures Enabled(Apply(m, Run(t, newId)), Run(newId, otherId))
  {
    var child := Top(m.threads[t]).n.child;
    assert Items(child) == Items(child[1..]) + [Do(child[0])];
    var m1 := Apply(m, Run(t, newId));
    assert m1.threads[newId] == NewThread(m.threads[t].ctx, child);
  }

  /**
   Python reuses the identity of a task object that is gone. In any state a schedule reaches, a new
   task whose body starts with a call breaks a session by that call if and only if it was given the
   identity that its inherited context names: it then uses a session that is already closed.
   */
  lemma SpawnBreaksExactlyWhen(m: Machine, t: Task, newId: Task, otherId: Task)
    requires Inv(m) && Enabled(m, Run(t, newId)) && Spawns(m, t)
    requires Top(m.threads[t]).n.child != [] && Top(m.threads[t]).n.child[0].Call?
    requires otherId !in m.threads && otherId != newId
    ensures Enabled(Apply(m, Run(t, newId)), Run(newId, otherId))
    ensures (exists s :: StatusOf(AfterFirstCall(m, t, newId, otherId).w.log, s) == Broken) <==> !Apart(m, Run(t, newId))
  {
    SpawnedMayRun(m, t, newId, otherId);
    var m1 := Apply(m, Run(t, newId));
    var m2 := AfterFirstCall(m, t, newId, otherId);
    StepKeepsInv(m, Run(t, newId));
    if Apart(m, Run(t, newId)) {
      StepKeepsInv(m1, Run(newId, otherId)) by {
        FirstItem(Top(m.threads[t]).n.child);
      }
    } else {
      var s := m.threads[t].ctx.value.1;
      ReusedNameIsFinished(m, newId, s);
      FirstItem(Top(m.threads[t]).n.child);
      assert m2.w == Reuse(m.w, newId, s);
      StatusSnoc(m.w.log, Used(s, newId));
      assert StatusOf(m2.w.log, s) == Broken;
    }
  }

  lemma FirstItem(nodes: seq<Node>)
    requires nodes != []
    ensures Items(nodes) != [] && Items(nodes)[|Items(nodes)| - 1] == Do(nodes[0])
  {
  }

  lemma OneMore(m: Machine, run: seq<Step>, step: Step)
    requires Enabled(After(m, run), step)
    ensures After(m, run + [step]) == Apply(After(m, run), step)
    ensures AllApart(m, run) && Apart(After(m, run), step) ==> AllApart(m, run + [step])
  {
    assert (run + [step])[..|run|] == run;
  }

  /** A call that spawns a task and returns; the spawned task spawns one that makes a call. */
  function LateCall(): CallNode {
    Call(Decorated, true, true, true, false, [LateChild()])
  }

  function LateChild(): Node {
    Spawn(false, [Spawn(false, [Call(Decorated, true, true, true, false, [])])])
  }

  lemma OneItem(n: Node)
    ensures Items([n]) == [Do(n)]
  {
    assert [n][1..] == [];
  }

  /** What the child of the late call has inherited and still has to do. */
  predicate ChildWaits(th: Thread) {
    th == NewThread(Some((0, 0)), LateChild().child)
  }

  lemma FirstCallOpens(m: Machine, call: CallNode)
    requires m.threads == map[0 := Thread(None, [Do(call)], NoRoot, [], Normal)] && m.w.nextSession == 0
    ensures Enabled(m, Run(0, 9)) && Apart(m, Run(0, 9))
    ensures Apply(m, Run(0, 9)).threads == map[0 := Thread(Some((0, 0)), [], InCall(call, 0, None), Items(call.body), Normal)]
  {
    hide Items, Create;
  }

  lemma CallOpens()
    ensures var m := Initial([LateCall()]);
            && Enabled(m, Run(0, 9)) && Apart(m, Run(0, 9))
            && var m1 := Apply(m, Run(0, 9));
               m1.threads == map[0 := Thread(Some((0, 0)), [], InCall(LateCall(), 0, None), [Do(LateChild())], Normal)]
  {
    OneItem(LateCall());
    OneItem(LateChild());
    hide Enabled, Apart, RunThread, Items;
    FirstCallOpens(Initial([LateCall()]), LateCall());
  }

  lemma ChildSpawned(m: Machine)
    requires m.threads == map[0 := Thread(Some((0, 0)), [], InCall(LateCall(), 0, None), [Do(LateChild())], Normal)]
    ensures Enabled(m, Run(0, 1)) && Apart(m, Run(0, 1))
    ensures var m1 := Apply(m, Run(0, 1));
            && m1.threads.Keys == {0, 1} && ChildWaits(m1.threads[1])
            && m1.threads[0] == Thread(Some((0, 0)), [], InCall(LateCall(), 0, None), [], Normal)
  {
    hide Items;
  }

  lemma CallConcludes(m: Machine)
    requires m.threads.Keys == {0, 1} && ChildWaits(m.threads[1])
    requires m.threads[0] == Thread(Some((0, 0)), [], InCall(LateCall(), 0, None), [], Normal)
    ensures Enabled(m, Run(0, 9)) && Apart(m, Run(0, 9))
    ensures var m1 := Apply(m, Run(0, 9));
            && m1.threads.Keys == {0, 1} && ChildWaits(m1.threads[1])
            && m1.threads[0].root == Closing(LateCall(), 0) && m1.threads[0].outer == []
  {
    hide Settle, ChildWaits, Commit;
  }

  lemma CallCloses(m: Machine)
    requires m.threads.Keys == {0, 1} && ChildWaits(m.threads[1])
    requires m.threads[0].root == Closing(LateCall(), 0) && m.threads[0].outer == []
    ensures Enabled(m, Run(0, 9)) && Apart(m, Run(0, 9))
    ensures var m1 := Apply(m, Run(0, 9));
            m1.threads.Keys == {0, 1} && ChildWaits(m1.threads[1]) && Ended(m1.threads[0]) && m1.threads[0].inner == []
  {
    hide Close, ChildWaits;
  }

  lemma ParentGoes(m: Machine)
    requires m.threads.Keys == {0, 1} && ChildWaits(m.threads[1]) && Ended(m.threads[0]) && m.threads[0].inner == []
    ensures Enabled(m, Reap(0)) && Apart(m, Reap(0))
    ensures var m1 := Apply(m, Reap(0)); m1.threads.Keys == {1} && ChildWaits(m1.threads[1])
  {
    OneItem(LateChild().child[0]);
    assert LateChild().child == [LateChild().child[0]];
  }

  /** The first task returns, is closed and gone, while its child is about to spawn. */
  lemma ChildOutlives() returns (run: seq<Step>)
    ensures AllApart(Initial([LateCall()]), run)
    ensures var m := After(Initial([LateCall()]), run); m.threads.Keys == {1} && ChildWaits(m.threads[1])
  {
    var m0 := Initial([LateCall()]);
    assert After(m0, []) == m0 && AllApart(m0, []);
    hide Initial, Enabled, Apart, After, AllApart, ChildWaits, Ended, RunThread, LateCall, LateChild;
    CallOpens();
    OneMore(m0, [], Run(0, 9));
    run := [] + [Run(0, 9)];
    ChildSpawned(After(m0, run));
    OneMore(m0, run, Run(0, 1));
    run := run + [Run(0, 1)];
    CallConcludes(After(m0, run));
    OneMore(m0, run, Run(0, 9));
    run := run + [Run(0, 9)];
    CallCloses(After(m0, run));
    OneMore(m0, run, Run(0, 9));
    run := run + [Run(0, 9)];
    ParentGoes(After(m0, run));
    OneMore(m0, run, Reap(0));
    run := run + [Reap(0)];
  }

  lemma WaitingChildSpawns(m: Machine)
    requires m.threads.Keys == {1} && ChildWaits(m.threads[1])
    ensures Enabled(m, Run(1, 0)) && Spawns(m, 1) && !Apart(m, Run(1, 0))
    ensures Top(m.threads[1]).n.child != [] && Top(m.threads[1]).n.child[0].Call?
  {
    OneItem(LateChild().child[0]);
    assert LateChild().child == [LateChild().child[0]];
  }

  /** Such a spawn is reachable: a session is used again after it was closed. */
  lemma ReusedIdentityHappens()
    ensures exists run: seq<Step>, s: Session :: StatusOf(After(Initial([LateCall()]), run).w.log, s) == Broken
  {
    var m0 := Initial([LateCall()]);
    var run := ChildOutlives();
    ApartIsLawful([LateCall()], run);
    RunKeepsInv([LateCall()], run);
    var m := After(m0, run);
    WaitingChildSpawns(m);
    hide Inv, After, AllApart, Items, Enabled, Apart, Spawns, Apply, Initial, StatusOf, LateCall, ChildWaits, Top;
    SpawnBreaksExactlyWhen(m, 1, 0, 9);
    OneMore(m0, run, Run(1, 0));
    OneMore(m0, run + [Run(1, 0)], Run(0, 9));
    var s :| StatusOf(AfterFirstCall(m, 1, 0, 9).w.log, s) == Broken;
    assert StatusOf(After(m0, run + [Run(1, 0)] + [Run(0, 9)]).w.log, s) == Broken;
  }

  // ---------------------------------------------------------------- the statistics under every schedule

  /** A decorated root call in flight, whose close is still to be counted. */
  predicate Due(th: Thread) {
    !th.root.NoRoot? && th.root.call.entry.Decorated?
  }

  function ToBeCounted(threads: map<Task, Thread>): set<Task> {
    set t | t in threads && Due(threads[t])
  }

  lemma PutThread(threads: map<Task, Thread>, t: Task, th: Thread)
    ensures var before := ToBeCounted(threads) - {t};
            && ToBeCounted(threads[t := th]) == (if Due(th) then before + {t} else before)
            && |ToBeCounted(threads[t := th])| == |before| + (if Due(th) then 1 else 0)
            && |ToBeCounted(threads)| == |before| + (if t in threads && Due(threads[t]) then 1 else 0)
  {
    var before := ToBeCounted(threads) - {t};
    assert ToBeCounted(threads[t := th]) == (if Due(th) then before + {t} else before);
    assert ToBeCounted(threads) == (if t in threads && Due(threads[t]) then before + {t} else before);
  }

  /** A step that leaves the statistics and what is due alone. */
  lemma QuietThread(threads: map<Task, Thread>, t: Task, th: Thread)
    requires t in threads && th.root == threads[t].root
    ensures ToBeCounted(threads[t := th]) == ToBeCounted(threads)
  {
    PutThread(threads, t, th);
  }

  ghost predicate Balanced(m: Machine) {
    BalancesUpTo(Fresh(), m.w, |ToBeCounted(m.threads)|)
  }

  lemma BalanceAdds(w0: World, w1: World, w2: World, a: int, b: int)
    requires BalancesUpTo(w0, w1, a) && BalancesUpTo(w1, w2, b)
    ensures BalancesUpTo(w0, w2, a + b)
  {
    hide Tally;
  }

  lemma ReuseBalances(w: World, t: Task, s: Session)
    ensures Balances(w, Reuse(w, t, s))
  {
    var e := Used(s, t);
    hide Tally;
    TallySnoc(Creations, w.log, e);
    TallySnoc(DirectCreations, w.log, e);
    TallySnoc(Usages, w.log, e);
    TallySnoc(Commits, w.log, e);
    TallySnoc(Rollbacks, w.log, e);
  }

  lemma SpawnKeepsDue(threads: map<Task, Thread>, t: Task, th: Thread, newId: Task, ctx: Context, nodes: seq<Node>)
    requires t in threads && th.root == threads[t].root && newId !in threads
    ensures |ToBeCounted(threads[t := th][newId := NewThread(ctx, nodes)])| == |ToBeCounted(threads)|
  {
    QuietThread(threads, t, th);
    PutThread(threads[t := th], newId, NewThread(ctx, nodes));
  }

  lemma EnterKeepsBalance(m: Machine, t: Task, th: Thread, n: CallNode)
    requires Balanced(m) && t in m.threads && th == m.threads[t] && HasItem(th) && MayEnter(t, th, n)
    ensures Balanced(Enter(m, t, th, n))
  {
    var m' := Enter(m, t, th, n);
    hide BalancesUpTo, Create, Reuse, ToBeCounted, Items;
    match OwnSession(t, th.ctx) {
      case Some(s) =>
        ReuseBalances(m.w, t, s);
        BalanceAdds(Fresh(), m.w, m'.w, |ToBeCounted(m.threads)|, 0);
        QuietThread(m.threads, t, m'.threads[t]);
      case None =>
        CreateBalances(m.w, t, n.entry);
        PutThread(m.threads, t, m'.threads[t]);
        BalanceAdds(Fresh(), m.w, m'.w, |ToBeCounted(m.threads)|, ToClose(n.entry));
    }
  }

  lemma ItemKeepsBalance(m: Machine, t: Task, newId: Task)
    requires Balanced(m) && Enabled(m, Run(t, newId)) && HasItem(m.threads[t])
    ensures Balanced(RunItem(m, t, newId))
  {
    var th := m.threads[t];
    var rest := Popped(th);
    hide BalancesUpTo, ToBeCounted, Enter;
    if th.mode.Normal? && Top(th).Do? && Top(th).n.Spawn? {
      var n := Top(th).n;
      var waiting := if n.awaited then WithStack(th, Stack(rest) + [Join(newId)]) else rest;
      SpawnKeepsDue(m.threads, t, waiting, newId, th.ctx, n.child);
    } else if th.mode.Normal? && Top(th).Do? && Top(th).n.Call? {
      EnterKeepsBalance(m, t, th, Top(th).n);
    } else {
      QuietThread(m.threads, t, RunItem(m, t, newId).threads[t]);
    }
  }

  lemma RootKeepsBalance(m: Machine, t: Task, newId: Task)
    requires Balanced(m) && Enabled(m, Run(t, newId)) && !HasItem(m.threads[t])
    ensures Balanced(RunThread(m, t, newId))
  {
    var th := m.threads[t];
    var m' := RunThread(m, t, newId);
    hide BalancesUpTo, ToBeCounted, Close;
    match th.root {
      case NoRoot =>
      case InCall(n, s, saved) =>
        SettleBalances(m.w, s, n, th.mode);
        hide Settle;
        BalanceAdds(Fresh(), m.w, m'.w, |ToBeCounted(m.threads)|, 0);
        PutThread(m.threads, t, m'.threads[t]);
      case Closing(n, s) =>
        CloseBalances(m.w, s, n.entry);
        BalanceAdds(Fresh(), m.w, m'.w, |ToBeCounted(m.threads)|, -ToClose(n.entry));
        PutThread(m.threads, t, m'.threads[t]);
    }
  }

  lemma ReapKeepsBalance(m: Machine, t: Task)
    requires Balanced(m) && Enabled(m, Reap(t))
    ensures Balanced(m.(threads := m.threads - {t}))
  {
    assert ToBeCounted(m.threads - {t}) == ToBeCounted(m.threads);
  }

  /**
   Under every schedule at all: creations plus reuses are the uses, commits and rollbacks are
   counted once each, and the closed counter lags the creations by the sessions that
   `get_session_generator` opened itself and by the decorated calls still in flight.
   */
  lemma {:induction false} StatisticsBalanceAlways(nodes: seq<Node>, run: seq<Step>)
    ensures var m := After(Initial(nodes), run);
            BalancesUpTo(Fresh(), m.w, |ToBeCounted(m.threads)|)
  {
    if run == [] {
      hide Items;
      assert ToBeCounted(Initial(nodes).threads) == {};
    } else {
      var n := |run| - 1;
      StatisticsBalanceAlways(nodes, run[..n]);
      var mid := After(Initial(nodes), run[..n]);
      hide BalancesUpTo, RunItem, Items;
      if Enabled(mid, run[n]) {
        match run[n] {
          case Run(t, newId) =>
            if HasItem(mid.threads[t]) {
              ItemKeepsBalance(mid, t, newId);
            } else {
              RootKeepsBalance(mid, t, newId);
            }
          case Cancel(t) => QuietThread(mid.threads, t, mid.threads[t].(mode := Raised(Cancelled)));
          case Reap(t) => ReapKeepsBalance(mid, t);
        }
      }
    }
  }
}
