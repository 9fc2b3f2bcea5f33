/**
 Context-bound database sessions: what a tree of calls does to sessions and statistics. A task
 starts a session when its context holds none of its own and reuses it below; a child task
 inherits a copy of the context but not the right to use the session in it.
 */
module DbSessions {
  import opened Common

  type Task = nat
  type Session = nat

  /** `except Exception` sees an Error; a cancellation passes it by. */
  datatype Exc = Error | Cancelled

  datatype Outcome = Normal | Raised(e: Exc)

  /** How a call enters: through `db_context_session`, or `get_session_generator` directly. */
  datatype Entry = Decorated | Direct

  datatype Node =
    | Call(entry: Entry, autoCommit: bool, commitOk: bool, rollbackOk: bool, caught: bool, body: seq<Node>)
    | Fail(e: Exc)
    | Spawn(awaited: bool, child: seq<Node>)

  datatype Event =
    | Created(s: Session, owner: Task, direct: bool)
    | Used(s: Session, owner: Task)
    | Committed(s: Session)
    | RolledBack(s: Session)
    | Closed(s: Session)

  datatype Stats = Stats(created: nat, closed: nat, committed: nat, rolledBack: nat, reused: nat)

  datatype World = World(nextSession: Session, nextTask: Task, stats: Stats, log: seq<Event>)

  /** The value of the context variable: the owning task and its session. */
  type Context = Option<(Task, Session)>

  // ---------------------------------------------------------------- the meaning of a call tree

  function OwnSession(task: Task, ctx: Context): Option<Session> {
    if ctx.Some? && ctx.value.0 == task then Some(ctx.value.1) else None
  }

  function Reuse(w: World, task: Task, s: Session): World {
    w.(stats := w.stats.(reused := w.stats.reused + 1), log := w.log + [Used(s, task)])
  }

  function Create(w: World, task: Task, entry: Entry): World {
    w.(nextSession := w.nextSession + 1, stats := w.stats.(created := w.stats.created + 1),
       log := w.log + [Created(w.nextSession, task, entry.Direct?), Used(w.nextSession, task)])
  }

  function Commit(w: World, s: Session): World {
    w.(stats := w.stats.(committed := w.stats.committed + 1), log := w.log + [Committed(s)])
  }

  function RollBack(w: World, s: Session): World {
    w.(stats := w.stats.(rolledBack := w.stats.rolledBack + 1), log := w.log + [RolledBack(s)])
  }

  function Close(w: World, s: Session, entry: Entry): World {
    w.(stats := if entry.Decorated? then w.stats.(closed := w.stats.closed + 1) else w.stats,
       log := w.log + [Closed(s)])
  }

  /** The end of the outermost call: commit if asked, roll back on an Exception. */
  function Settle(w: World, s: Session, n: Node, o: Outcome): (Outcome, World)
    requires n.Call?
  {
    if o.Normal? && !n.autoCommit then (Normal, w)
    else if o.Normal? && n.commitOk then (Normal, Commit(w, s))
    else if o == Raised(Cancelled) then (o, w)
    else if n.rollbackOk then (Raised(Error), RollBack(w, s))
    else (Raised(Error), w)
  }

  function Caught(n: Node, o: Outcome): Outcome
    requires n.Call?
  {
    if n.caught && o == Raised(Error) then Normal else o
  }

  function Exec(nodes: seq<Node>, task: Task, ctx: Context, w: World): (Outcome, World)
    decreases nodes, 0
  {
    if nodes == [] then (Normal, w)
    else
      var (o, w1) := ExecNode(nodes[0], task, ctx, w);
      if o.Normal? then Exec(nodes[1..], task, ctx, w1) else (o, w1)
  }

  function ExecNode(n: Node, task: Task, ctx: Context, w: World): (Outcome, World)
    decreases n, 1
  {
    match n
    case Fail(e) => (Raised(e), w)
    case Spawn(awaited, child) =>
      var (o, w1) := Exec(child, w.nextTask, ctx, w.(nextTask := w.nextTask + 1));
      (if awaited then o else Normal, w1)
    case Call(entry, _, _, _, _, body) =>
      match OwnSession(task, ctx)
      case Some(s) =>
        var (o, w1) := Exec(body, task, ctx, Reuse(w, task, s));
        (Caught(n, o), w1)
      case None =>
        var s := w.nextSession;
        var (o, w1) := Exec(body, task, Some((task, s)), Create(w, task, entry));
        var (o2, w2) := Settle(w1, s, n, o);
        (Caught(n, o2), Close(w2, s, entry))
  }

  // ---------------------------------------------------------------- the life of a session

  datatype Status =
    | Unborn
    | Open(owner: Task)
    | Settled(committed: bool)
    | Finished(verdict: Option<bool>)
    | Broken

  function Advance(st: Status, e: Event): Status {
    match (st, e)
    case (Unborn, Created(_, t, _)) => Open(t)
    case (Open(t), Used(_, u)) => if t == u then st else Broken
    case (Open(_), Committed(_)) => Settled(true)
    case (Open(_), RolledBack(_)) => Settled(false)
    case (Open(_), Closed(_)) => Finished(None)
    case (Settled(c), Closed(_)) => Finished(Some(c))
    case (_, _) => Broken
  }

  /** The status of session `s` after a log: created once, used only by its creator while open,
      committed or rolled back at most once, closed once, and nothing after. */
  function StatusOf(log: seq<Event>, s: Session): Status {
    if log == [] then Unborn
    else
      var before, e := StatusOf(log[..|log| - 1], s), log[|log| - 1];
      if e.s == s then Advance(before, e) else before
  }

  lemma StatusSnoc(log: seq<Event>, e: Event)
    ensures forall s :: StatusOf(log + [e], s) == if e.s == s then Advance(StatusOf(log, s), e) else StatusOf(log, s)
  {
    assert (log + [e])[..|log|] == log;
  }

  /** Sessions not yet numbered are unborn, and nothing has gone wrong. */
  ghost predicate Sane(w: World) {
    && (forall s: Session | s >= w.nextSession :: StatusOf(w.log, s) == Unborn)
    && (forall s :: StatusOf(w.log, s) != Broken)
  }

  ghost predicate OwnIsOpen(task: Task, ctx: Context, w: World) {
    && task < w.nextTask && (ctx.Some? ==> ctx.value.0 < w.nextTask && ctx.value.1 < w.nextSession)
    && (OwnSession(task, ctx).Some? ==> StatusOf(w.log, OwnSession(task, ctx).value) == Open(task))
  }

  /** Execution leaves older sessions as they were and every session it started finished. */
  ghost predicate Tidy(w: World, w': World) {
    && Sane(w') && w.nextSession <= w'.nextSession && w.nextTask <= w'.nextTask
    && (forall s: Session | s < w.nextSession :: StatusOf(w'.log, s) == StatusOf(w.log, s))
    && (forall s: Session | w.nextSession <= s < w'.nextSession :: StatusOf(w'.log, s).Finished?)
  }

  lemma {:induction false} ExecIsTidy(nodes: seq<Node>, task: Task, ctx: Context, w: World)
    requires Sane(w) && OwnIsOpen(task, ctx, w)
    ensures Tidy(w, Exec(nodes, task, ctx, w).1)
    decreases nodes, 0
  {
    if nodes != [] {
      var (o, w1) := ExecNode(nodes[0], task, ctx, w);
      ExecNodeIsTidy(nodes[0], task, ctx, w);
      if o.Normal? {
        ExecIsTidy(nodes[1..], task, ctx, w1);
      }
    }
  }

  lemma {:induction false} ExecNodeIsTidy(n: Node, task: Task, ctx: Context, w: World)
    requires Sane(w) && OwnIsOpen(task, ctx, w)
    ensures Tidy(w, ExecNode(n, task, ctx, w).1)
    decreases n, 1
  {
    match n {
      case Fail(_) =>
      case Spawn(_, child) =>
        ExecIsTidy(child, w.nextTask, ctx, w.(nextTask := w.nextTask + 1));
      case Call(entry, _, _, _, _, body) =>
        match OwnSession(task, ctx) {
          case Some(s) =>
            var w1 := Reuse(w, task, s);
            StatusSnoc(w.log, Used(s, task));
            ExecIsTidy(body, task, ctx, w1);
          case None =>
            var s := w.nextSession;
            var w1 := Create(w, task, entry);
            CreateOpens(w, task, entry);
            var (o, w2) := Exec(body, task, Some((task, s)), w1);
            ExecIsTidy(body, task, Some((task, s)), w1);
            var (o3, w3) := Settle(w2, s, n, o);
            SettleAndCloseFinish(w2, s, n, o);
        }
    }
  }

  lemma CreateOpens(w: World, task: Task, entry: Entry)
    requires Sane(w)
    ensures var w1 := Create(w, task, entry);
            && Sane(w1) && StatusOf(w1.log, w.nextSession) == Open(task)
            && (forall s: Session | s < w.nextSession :: StatusOf(w1.log, s) == StatusOf(w.log, s))
  {
    var e, u := Created(w.nextSession, task, entry.Direct?), Used(w.nextSession, task);
    assert w.log + [e, u] == w.log + [e] + [u];
    StatusSnoc(w.log, e);
    StatusSnoc(w.log + [e], u);
  }

  lemma SettleIs(w: World, s: Session, n: Node, o: Outcome)
    requires n.Call?
    ensures var w1 := Settle(w, s, n, o).1; w1 == w || w1 == Commit(w, s) || w1 == RollBack(w, s)
  {
  }

  ghost predicate OnlyChanges(w: World, w': World, s: Session) {
    && Sane(w') && w'.nextSession == w.nextSession && w'.nextTask == w.nextTask
    && (forall x | x != s :: StatusOf(w'.log, x) == StatusOf(w.log, x))
  }

  lemma SettleKeepsSane(w: World, s: Session, n: Node, o: Outcome)
    requires n.Call? && Sane(w) && s < w.nextSession && StatusOf(w.log, s).Open?
    ensures var w1 := Settle(w, s, n, o).1;
            OnlyChanges(w, w1, s) && (StatusOf(w1.log, s).Open? || StatusOf(w1.log, s).Settled?)
  {
    SettleIs(w, s, n, o);
    StatusSnoc(w.log, Committed(s));
    StatusSnoc(w.log, RolledBack(s));
    hide StatusOf, Settle;
  }

  lemma CloseFinishes(w: World, s: Session, entry: Entry)
    requires Sane(w) && s < w.nextSession && (StatusOf(w.log, s).Open? || StatusOf(w.log, s).Settled?)
    ensures var w1 := Close(w, s, entry); OnlyChanges(w, w1, s) && StatusOf(w1.log, s).Finished?
  {
    StatusSnoc(w.log, Closed(s));
    hide StatusOf;
  }

  lemma SettleAndCloseFinish(w: World, s: Session, n: Node, o: Outcome)
    requires n.Call? && Sane(w) && s < w.nextSession && StatusOf(w.log, s).Open?
    ensures var w' := Close(Settle(w, s, n, o).1, s, n.entry);
            OnlyChanges(w, w', s) && StatusOf(w'.log, s).Finished?
  {
    hide Settle, Close, StatusOf;
    SettleKeepsSane(w, s, n, o);
    CloseFinishes(Settle(w, s, n, o).1, s, n.entry);
  }

  function Fresh(): World { World(0, 1, Stats(0, 0, 0, 0, 0), []) }

  /**
   Whatever the tree of calls, exceptions and child tasks, every session lives by the rules:
   one creation, uses by the creating task only (so never by a child that inherited the
   context), at most one of commit and rollback, one close, and no use after it.
   */
  lemma EverySessionLivesByTheRules(nodes: seq<Node>)
    ensures var w := Exec(nodes, 0, None, Fresh()).1;
            forall s: Session :: if s < w.nextSession then StatusOf(w.log, s).Finished? else StatusOf(w.log, s).Unborn?
  {
    ExecIsTidy(nodes, 0, None, Fresh());
  }

  /** What `Finished` means for the events of a log, spelled out. */
  lemma {:induction false} FinishedMeans(log: seq<Event>, s: Session, i: nat)
    requires i < |log| && log[i].s == s && StatusOf(log, s) != Broken
    ensures log[i].Used? ==> exists j :: 0 <= j < i && log[j].Created? && log[j].s == s && log[j].owner == log[i].owner
    ensures forall k | 0 <= k < i && log[k].s == s :: !log[k].Closed?
    ensures log[i].Committed? ==> forall k | 0 <= k < i && log[k].s == s :: !log[k].RolledBack?
    ensures log[i].RolledBack? ==> forall k | 0 <= k < i && log[k].s == s :: !log[k].Committed?
  {
    var n := |log| - 1;
    if i < n {
      assert StatusOf(log[..n], s) != Broken;
      FinishedMeans(log[..n], s, i);
      assert log[..n][i] == log[i];
      if log[i].Used? {
        var j :| 0 <= j < i && log[..n][j].Created? && log[..n][j].s == s && log[..n][j].owner == log[i].owner;
        assert log[j] == log[..n][j];
      }
      forall k | 0 <= k < i ensures log[k] == log[..n][k] {}
    } else {
      HistoryOf(log[..n], s);
      forall k | 0 <= k < i ensures log[k] == log[..n][k] {}
    }
  }

  lemma {:induction false} HistoryOf(log: seq<Event>, s: Session)
    ensures match StatusOf(log, s)
            case Unborn => forall k | 0 <= k < |log| :: log[k].s != s
            case Open(t) =>
              && (exists j :: 0 <= j < |log| && log[j].Created? && log[j].s == s && log[j].owner == t)
              && (forall k | 0 <= k < |log| && log[k].s == s :: log[k].Created? || log[k].Used?)
            case Settled(_) => forall k | 0 <= k < |log| && log[k].s == s :: !log[k].Closed?
            case _ => true
  {
    if log != [] {
      var n := |log| - 1;
      HistoryOf(log[..n], s);
      assert log == log[..n] + [log[n]];
      if StatusOf(log, s).Open? {
        if log[n].Created? && log[n].s == s {
          assert log[n].owner == StatusOf(log, s).owner;
        } else {
          var t := StatusOf(log, s).owner;
          var j :| 0 <= j < n && log[..n][j].Created? && log[..n][j].s == s && log[..n][j].owner == t;
          assert log[j] == log[..n][j];
        }
      }
    }
  }

  // ---------------------------------------------------------------- how a call ends

  /**
   How a call ends whose body ended with o: a cancellation passes, and a failed body or, for the call
   that opened the session, a failed commit is an Error, unless the caller catches it.
   */
  function EndOf(n: Node, o: Outcome, opens: bool): Outcome
    requires n.Call?
  {
    if o == Raised(Cancelled) then Raised(Cancelled)
    else if n.caught || (o.Normal? && !(opens && n.autoCommit && !n.commitOk)) then Normal
    else Raised(Error)
  }

  lemma OutcomeCases(o: Outcome)
    ensures o in {Normal, Raised(Error), Raised(Cancelled)}
  {
    if o.Raised? && o.e.Error? {
      assert o == Raised(Error);
    }
  }

  lemma EndsAsCaught(n: Node, o: Outcome)
    requires n.Call?
    ensures Caught(n, o) == EndOf(n, o, false)
  {
    OutcomeCases(o);
  }

  lemma EndsAsSettled(w: World, s: Session, n: Node, o: Outcome)
    requires n.Call?
    ensures Caught(n, Settle(w, s, n, o).0) == EndOf(n, o, true)
  {
    OutcomeCases(o);
  }

  /** How a list of nodes ends, inside a call of the same task or outside, told from the tree alone. */
  function OutcomeOf(nodes: seq<Node>, inside: bool): Outcome
    decreases nodes, 0
  {
    if nodes == [] then Normal
    else if NodeOutcome(nodes[0], inside).Normal? then OutcomeOf(nodes[1..], inside)
    else NodeOutcome(nodes[0], inside)
  }

  function NodeOutcome(n: Node, inside: bool): Outcome
    decreases n, 1
  {
    match n
    case Fail(e) => Raised(e)
    case Spawn(awaited, child) => if awaited then OutcomeOf(child, false) else Normal
    case Call(_, _, _, _, _, body) => EndOf(n, OutcomeOf(body, true), !inside)
  }

  /** Identities in the context and of the task itself were handed out before. */
  predicate KnownTasks(task: Task, ctx: Context, w: World) {
    task < w.nextTask && (ctx.Some? ==> ctx.value.0 < w.nextTask)
  }

  /** Every tree of calls, exceptions and child tasks ends as the tree and its flags say. */
  lemma {:induction false} ExecEnds(nodes: seq<Node>, task: Task, ctx: Context, w: World)
    requires KnownTasks(task, ctx, w)
    ensures Exec(nodes, task, ctx, w).0 == OutcomeOf(nodes, OwnSession(task, ctx).Some?)
    ensures Exec(nodes, task, ctx, w).1.nextTask >= w.nextTask
    decreases nodes, 0
  {
    if nodes != [] {
      var (o, w1) := ExecNode(nodes[0], task, ctx, w);
      ExecNodeEnds(nodes[0], task, ctx, w);
      if o.Normal? {
        ExecEnds(nodes[1..], task, ctx, w1);
      }
    }
  }

  lemma {:induction false} ExecNodeEnds(n: Node, task: Task, ctx: Context, w: World)
    requires KnownTasks(task, ctx, w)
    ensures ExecNode(n, task, ctx, w).0 == NodeOutcome(n, OwnSession(task, ctx).Some?)
    ensures ExecNode(n, task, ctx, w).1.nextTask >= w.nextTask
    decreases n, 1
  {
    match n {
      case Fail(_) =>
      case Spawn(_, child) =>
        ExecEnds(child, w.nextTask, ctx, w.(nextTask := w.nextTask + 1));
      case Call(entry, _, _, _, _, body) =>
        match OwnSession(task, ctx) {
          case Some(s) =>
            ExecEnds(body, task, ctx, Reuse(w, task, s));
            EndsAsCaught(n, OutcomeOf(body, true));
          case None =>
            var s := w.nextSession;
            ExecEnds(body, task, Some((task, s)), Create(w, task, entry));
            EndsAsSettled(Exec(body, task, Some((task, s)), Create(w, task, entry)).1, s, n, OutcomeOf(body, true));
        }
    }
  }

  /**
   A call that opened a session: it returns exactly when its body ends normally and a commit was not
   asked for or worked, or when it catches an Error; it is cancelled exactly when its body is; and
   otherwise, rolled back or not, the caller gets an Error.
   */
  lemma CallEndsExactlyWhen(n: Node, task: Task, ctx: Context, w: World)
    requires n.Call? && OwnSession(task, ctx).None? && KnownTasks(task, ctx, w)
    ensures var o, r := OutcomeOf(n.body, true), ExecNode(n, task, ctx, w).0;
            && (r == Normal <==> (o == Normal && (!n.autoCommit || n.commitOk)) || (n.caught && o != Raised(Cancelled)))
            && (r == Raised(Cancelled) <==> o == Raised(Cancelled))
            && (r == Raised(Error) <==> !n.caught && (o == Raised(Error) || (o == Normal && n.autoCommit && !n.commitOk)))
  {
    ExecNodeEnds(n, task, ctx, w);
    OutcomeCases(OutcomeOf(n.body, true));
  }

  // ---------------------------------------------------------------- one tree, one session

  predicate SingleTask(nodes: seq<Node>)
    decreases nodes, 0
  {
    forall i | 0 <= i < |nodes| :: SingleTaskNode(nodes[i])
  }

  predicate SingleTaskNode(n: Node)
    decreases n, 1
  {
    match n
    case Fail(_) => true
    case Spawn(_, _) => false
    case Call(_, _, _, _, _, body) => SingleTask(body)
  }

  /** The calls of a body that are made: all before the first exception that is not caught. */
  function CallsReached(nodes: seq<Node>): nat
    decreases nodes, 0
  {
    if nodes == [] then 0
    else CallsReachedIn(nodes[0]) + (if NodeOutcome(nodes[0], true).Normal? then CallsReached(nodes[1..]) else 0)
  }

  function CallsReachedIn(n: Node): nat
    decreases n, 1
  {
    if n.Call? then 1 + CallsReached(n.body) else 0
  }

  function CallCount(nodes: seq<Node>): nat
    decreases nodes, 0
  {
    if nodes == [] then 0 else NodeCallCount(nodes[0]) + CallCount(nodes[1..])
  }

  function NodeCallCount(n: Node): nat
    decreases n, 1
  {
    if n.Call? then 1 + CallCount(n.body) else 0
  }

  predicate NoFail(nodes: seq<Node>)
    decreases nodes, 0
  {
    forall i | 0 <= i < |nodes| :: NoFailNode(nodes[i])
  }

  predicate NoFailNode(n: Node)
    decreases n, 1
  {
    match n
    case Fail(_) => false
    case Spawn(awaited, _) => !awaited
    case Call(_, _, _, _, _, body) => NoFail(body)
  }

  /** Without exceptions every call of the tree is made. */
  lemma {:induction false} AllCallsReached(nodes: seq<Node>)
    requires NoFail(nodes)
    ensures OutcomeOf(nodes, true) == Normal && CallsReached(nodes) == CallCount(nodes)
    decreases nodes, 0
  {
    if nodes != [] {
      AllCallsReached(nodes[1..]);
      assert NoFailNode(nodes[0]);
      if nodes[0].Call? {
        AllCallsReached(nodes[0].body);
      }
    }
  }

  /** Below the outermost call, execution only reuses the session, `n` times. */
  ghost predicate OnlyReuses(w: World, w': World, task: Task, s: Session, n: nat) {
    && w.log <= w'.log && |w'.log| == |w.log| + n
    && (forall i | |w.log| <= i < |w'.log| :: w'.log[i] == Used(s, task))
    && w' == w.(stats := w.stats.(reused := w.stats.reused + n), log := w'.log)
  }

  lemma {:induction false} NestedCallsReuse(nodes: seq<Node>, task: Task, s: Session, w: World)
    requires SingleTask(nodes)
    ensures Exec(nodes, task, Some((task, s)), w).0 == OutcomeOf(nodes, true)
    ensures OnlyReuses(w, Exec(nodes, task, Some((task, s)), w).1, task, s, CallsReached(nodes))
    decreases nodes, 0
  {
    if nodes != [] {
      var (o, w1) := ExecNode(nodes[0], task, Some((task, s)), w);
      NestedNodeReuses(nodes[0], task, s, w);
      if o.Normal? {
        NestedCallsReuse(nodes[1..], task, s, w1);
      }
    }
  }

  lemma {:induction false} NestedNodeReuses(n: Node, task: Task, s: Session, w: World)
    requires SingleTaskNode(n)
    ensures ExecNode(n, task, Some((task, s)), w).0 == NodeOutcome(n, true)
    ensures OnlyReuses(w, ExecNode(n, task, Some((task, s)), w).1, task, s, CallsReachedIn(n))
    decreases n, 1
  {
    if n.Call? {
      NestedCallsReuse(n.body, task, s, Reuse(w, task, s));
      EndsAsCaught(n, OutcomeOf(n.body, true));
    }
  }

  /** The single event that settles the outermost call's session, if any. */
  function Settlement(s: Session, n: Node, o: Outcome): seq<Event>
    requires n.Call?
  {
    if o.Normal? && n.autoCommit && n.commitOk then [Committed(s)]
    else if (o == Raised(Error) || (o.Normal? && n.autoCommit)) && n.rollbackOk then [RolledBack(s)]
    else []
  }

  lemma SettleAppends(w: World, s: Session, n: Node, o: Outcome)
    requires n.Call?
    ensures Settle(w, s, n, o).1.log == w.log + Settlement(s, n, o)
  {
    assert w.log + [] == w.log;
    if o.Raised? && o.e.Error? {
      assert o == Raised(Error);
    }
  }

  function Uses(m: nat, s: Session, task: Task): (r: seq<Event>)
    ensures |r| == m && forall i | 0 <= i < m :: r[i] == Used(s, task)
  {
    if m == 0 then [] else Uses(m - 1, s, task) + [Used(s, task)]
  }

  /**
   A tree of calls in one task, whose context holds no session of its own, creates exactly one
   session; every call of the tree that is made uses it, and each nested one counts one reuse;
   it is committed only if the outermost call asked for it and no exception reached it; it is
   closed once, last.
   */
  lemma OneSessionPerTree(n: Node, task: Task, ctx: Context, w: World)
    requires n.Call? && SingleTask(n.body) && OwnSession(task, ctx).None?
    ensures var s, o, nested := w.nextSession, OutcomeOf(n.body, true), CallsReached(n.body);
            var w' := ExecNode(n, task, ctx, w).1;
            && w'.log == w.log + [Created(s, task, n.entry.Direct?)] + Uses(1 + nested, s, task)
                         + Settlement(s, n, o) + [Closed(s)]
            && w'.stats.created == w.stats.created + 1
            && w'.stats.reused == w.stats.reused + nested
            && w'.stats.closed == w.stats.closed + (if n.entry.Decorated? then 1 else 0)
            && w'.stats.committed == w.stats.committed + (if Settlement(s, n, o) == [Committed(s)] then 1 else 0)
            && w'.stats.rolledBack == w.stats.rolledBack + (if Settlement(s, n, o) == [RolledBack(s)] then 1 else 0)
            && w'.nextSession == s + 1
    ensures NoFail(n.body) ==> CallsReached(n.body) == CallCount(n.body) && OutcomeOf(n.body, true) == Normal
  {
    var s := w.nextSession;
    var w1 := Create(w, task, n.entry);
    var (o, w2) := Exec(n.body, task, Some((task, s)), w1);
    NestedCallsReuse(n.body, task, s, w1);
    var created := [Created(s, task, n.entry.Direct?)];
    assert w1.log[|w.log| + 1] == Used(s, task);
    assert w2.log == w.log + created + Uses(1 + CallsReached(n.body), s, task);
    SettleAppends(w2, s, n, o);
    if NoFail(n.body) {
      AllCallsReached(n.body);
    }
  }

  /** The nested calls of a tree, with every commit flag and commit outcome erased. */
  function EraseFlags(nodes: seq<Node>): seq<Node>
    decreases nodes, 0
  {
    if nodes == [] then [] else [EraseNodeFlags(nodes[0])] + EraseFlags(nodes[1..])
  }

  function EraseNodeFlags(n: Node): Node
    decreases n, 1
  {
    match n
    case Fail(_) => n
    case Spawn(awaited, child) => Spawn(awaited, EraseFlags(child))
    case Call(entry, _, _, _, caught, body) => Call(entry, false, false, false, caught, EraseFlags(body))
  }

  /** Only the outermost call's auto-commit matters: the flags below it change nothing. */
  lemma {:induction false} NestedFlagsAreIgnored(nodes: seq<Node>, task: Task, s: Session, w: World)
    requires SingleTask(nodes)
    ensures Exec(EraseFlags(nodes), task, Some((task, s)), w) == Exec(nodes, task, Some((task, s)), w)
    decreases nodes, 0
  {
    if nodes != [] {
      var erased := EraseFlags(nodes);
      assert erased[0] == EraseNodeFlags(nodes[0]) && erased[1..] == EraseFlags(nodes[1..]);
      NestedNodeFlagsAreIgnored(nodes[0], task, s, w);
      var (o, w1) := ExecNode(nodes[0], task, Some((task, s)), w);
      if o.Normal? {
        NestedFlagsAreIgnored(nodes[1..], task, s, w1);
      }
    }
  }

  lemma {:induction false} NestedNodeFlagsAreIgnored(n: Node, task: Task, s: Session, w: World)
    requires SingleTaskNode(n)
    ensures ExecNode(EraseNodeFlags(n), task, Some((task, s)), w) == ExecNode(n, task, Some((task, s)), w)
    decreases n, 1
  {
    if n.Call? {
      NestedFlagsAreIgnored(n.body, task, s, Reuse(w, task, s));
    }
  }

  // ---------------------------------------------------------------- the statistics balance

  datatype Kind = Creations | DirectCreations | Usages | Commits | Rollbacks

  predicate IsKind(k: Kind, e: Event) {
    match k
    case Creations => e.Created?
    case DirectCreations => e.Created? && e.direct
    case Usages => e.Used?
    case Commits => e.Committed?
    case Rollbacks => e.RolledBack?
  }

  function Tally(k: Kind, log: seq<Event>): nat {
    if log == [] then 0 else Tally(k, log[..|log| - 1]) + (if IsKind(k, log[|log| - 1]) then 1 else 0)
  }

  lemma TallySnoc(k: Kind, log: seq<Event>, e: Event)
    ensures Tally(k, log + [e]) == Tally(k, log) + (if IsKind(k, e) then 1 else 0)
  {
    assert (log + [e])[..|log|] == log;
  }

  /** What the counters gained is what the log gained; closes lag creations by the direct ones. */
  ghost predicate Balances(w: World, w': World) {
    BalancesUpTo(w, w', 0)
  }

  ghost predicate BalancesUpTo(w: World, w': World, open: int) {
    && w'.stats.created - w.stats.created == Tally(Creations, w'.log) - Tally(Creations, w.log)
    && w'.stats.committed - w.stats.committed == Tally(Commits, w'.log) - Tally(Commits, w.log)
    && w'.stats.rolledBack - w.stats.rolledBack == Tally(Rollbacks, w'.log) - Tally(Rollbacks, w.log)
    && w'.stats.created + w'.stats.reused - w.stats.created - w.stats.reused
       == Tally(Usages, w'.log) - Tally(Usages, w.log)
    && w'.stats.created - w.stats.created
       == w'.stats.closed - w.stats.closed + Tally(DirectCreations, w'.log) - Tally(DirectCreations, w.log) + open
  }

  /**
   For any tree of calls and child tasks: every use is a creation or a counted reuse, and the
   closed counter misses exactly the sessions opened by `get_session_generator` itself.
   */
  lemma {:induction false} StatisticsBalance(nodes: seq<Node>, task: Task, ctx: Context, w: World)
    ensures Balances(w, Exec(nodes, task, ctx, w).1)
    decreases nodes, 0
  {
    if nodes != [] {
      var (o, w1) := ExecNode(nodes[0], task, ctx, w);
      NodeStatisticsBalance(nodes[0], task, ctx, w);
      if o.Normal? {
        StatisticsBalance(nodes[1..], task, ctx, w1);
      }
    }
  }

  lemma {:induction false} NodeStatisticsBalance(n: Node, task: Task, ctx: Context, w: World)
    ensures Balances(w, ExecNode(n, task, ctx, w).1)
    decreases n, 1
  {
    match n {
      case Fail(_) =>
      case Spawn(_, child) =>
        StatisticsBalance(child, w.nextTask, ctx, w.(nextTask := w.nextTask + 1));
      case Call(entry, _, _, _, _, body) =>
        match OwnSession(task, ctx) {
          case Some(s) =>
            forall k ensures Tally(k, w.log + [Used(s, task)]) == Tally(k, w.log) + (if IsKind(k, Used(s, task)) then 1 else 0) {
              TallySnoc(k, w.log, Used(s, task));
            }
            StatisticsBalance(body, task, ctx, Reuse(w, task, s));
          case None =>
            var s := w.nextSession;
            var w1 := Create(w, task, entry);
            StatisticsBalance(body, task, Some((task, s)), w1);
            var (o, w2) := Exec(body, task, Some((task, s)), w1);
            RootStepsBalance(w, w2, task, s, n, o);
        }
    }
  }

  /** A decorated root leaves one close to be counted until it ends. */
  function ToClose(entry: Entry): int {
    if entry.Decorated? then 1 else 0
  }

  lemma CreateBalances(w: World, task: Task, entry: Entry)
    ensures BalancesUpTo(w, Create(w, task, entry), ToClose(entry))
  {
    var e, u := Created(w.nextSession, task, entry.Direct?), Used(w.nextSession, task);
    assert w.log + [e, u] == w.log + [e] + [u];
    forall k: Kind
      ensures Tally(k, w.log + [e, u]) == Tally(k, w.log) + (if IsKind(k, e) then 1 else 0) + (if IsKind(k, u) then 1 else 0)
    {
      TallySnoc(k, w.log, e);
      TallySnoc(k, w.log + [e], u);
    }
  }

  lemma SettleBalances(w: World, s: Session, n: Node, o: Outcome)
    requires n.Call?
    ensures Balances(w, Settle(w, s, n, o).1)
  {
    SettleIs(w, s, n, o);
    forall k: Kind
      ensures Tally(k, w.log + [Committed(s)]) == Tally(k, w.log) + (if k.Commits? then 1 else 0)
      ensures Tally(k, w.log + [RolledBack(s)]) == Tally(k, w.log) + (if k.Rollbacks? then 1 else 0)
    {
      TallySnoc(k, w.log, Committed(s));
      TallySnoc(k, w.log, RolledBack(s));
    }
    hide Settle, Tally;
  }

  lemma CloseBalances(w: World, s: Session, entry: Entry)
    ensures BalancesUpTo(w, Close(w, s, entry), -ToClose(entry))
  {
    forall k: Kind ensures Tally(k, w.log + [Closed(s)]) == Tally(k, w.log) {
      TallySnoc(k, w.log, Closed(s));
    }
  }

  lemma RootStepsBalance(w: World, w2: World, task: Task, s: Session, n: Node, o: Outcome)
    requires n.Call? && s == w.nextSession && Balances(Create(w, task, n.entry), w2)
    ensures Balances(w, Close(Settle(w2, s, n, o).1, s, n.entry))
  {
    hide Create, Settle, Close, Tally;
    CreateBalances(w, task, n.entry);
    SettleBalances(w2, s, n, o);
    CloseBalances(Settle(w2, s, n, o).1, s, n.entry);
  }
}
