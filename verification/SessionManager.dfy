/**
 The session manager and the context variables of a task, changed in place and restored by
 tokens. Running a call tree is proved equal to its token-free meaning in module DbSessions,
 and to leave the context variable and the call depth as they were.
 */
module SessionManagerObject {
  import opened Common
  import opened DbSessions

  /** The context variables of one task; a child task starts with a copy. */
  class TaskContext {
    const task: Task
    var session: Context
    var callDepth: nat

    constructor (task: Task, session: Context, callDepth: nat)
      ensures this.task == task && this.session == session && this.callDepth == callDepth
    {
      this.task, this.session, this.callDepth := task, session, callDepth;
    }
  }

  class SessionManager {
    var nextSession: Session
    var nextTask: Task
    var created: nat
    var closed: nat
    var committed: nat
    var rolledBack: nat
    var reused: nat
    var log: seq<Event>

    ghost function View(): World
      reads this
    {
      World(nextSession, nextTask, Stats(created, closed, committed, rolledBack, reused), log)
    }

    constructor ()
      ensures View() == Fresh()
    {
      nextSession, nextTask := 0, 1;
      created, closed, committed, rolledBack, reused := 0, 0, 0, 0, 0;
      log := [];
    }

    method GetCurrentContextSession(ctx: TaskContext) returns (r: Option<Session>)
      modifies this`reused
      ensures r == OwnSession(ctx.task, ctx.session)
      ensures reused == old(reused) + (if r.Some? then 1 else 0)
    {
      if ctx.session.None? {
        return None;
      }
      var (owner, s) := ctx.session.value;
      if owner != ctx.task {
        return None;
      }
      reused := reused + 1;
      return Some(s);
    }

    method NewSession(ctx: TaskContext, entry: Entry) returns (s: Session)
      modifies this
      ensures View() == Create(old(View()), ctx.task, entry) && s == old(nextSession)
    {
      s := nextSession;
      nextSession := nextSession + 1;
      created := created + 1;
      log := log + [Created(s, ctx.task, entry.Direct?), Used(s, ctx.task)];
    }

    /** Commit if asked, roll back on an Exception; both may raise. */
    method Conclude(n: Node, s: Session, o: Outcome) returns (r: Outcome)
      requires n.Call?
      modifies this
      ensures (r, View()) == Settle(old(View()), s, n, o)
    {
      r := o;
      if o.Normal? && n.autoCommit {
        if n.commitOk {
          committed := committed + 1;
          log := log + [Committed(s)];
        } else {
          r := Raised(Error);
        }
      }
      if r.Raised? && r.e.Error? && n.rollbackOk {
        rolledBack := rolledBack + 1;
        log := log + [RolledBack(s)];
      }
    }

    /** `get_session_generator` around the body of `n`. */
    method SessionGenerator(n: Node, ctx: TaskContext) returns (o: Outcome)
      requires n.Call?
      modifies this, ctx
      ensures ctx.session == old(ctx.session) && ctx.callDepth == old(ctx.callDepth)
      ensures match OwnSession(ctx.task, old(ctx.session))
              case Some(s) => (o, View()) == Exec(n.body, ctx.task, old(ctx.session), Reuse(old(View()), ctx.task, s))
              case None =>
                var s := old(nextSession);
                var (o1, w1) := Exec(n.body, ctx.task, Some((ctx.task, s)), Create(old(View()), ctx.task, n.entry));
                var (o2, w2) := Settle(w1, s, n, o1);
                o == o2 && View() == w2.(log := w2.log + [Closed(s)])
      decreases n, 1
    {
      var existing := GetCurrentContextSession(ctx);
      if existing.Some? {
        log := log + [Used(existing.value, ctx.task)];
        o := RunAll(n.body, ctx);
      } else {
        var s := NewSession(ctx, n.entry);
        var token := ctx.session;
        ctx.session := Some((ctx.task, s));
        o := RunAll(n.body, ctx);
        o := Conclude(n, s, o);
        ctx.session := token;
        log := log + [Closed(s)];
      }
    }

    /** The wrapper of `db_context_session`. */
    method ContextSession(n: Node, ctx: TaskContext) returns (o: Outcome)
      requires n.Call? && n.entry.Decorated?
      modifies this, ctx
      ensures ctx.session == old(ctx.session) && ctx.callDepth == old(ctx.callDepth)
      ensures (Caught(n, o), View()) == ExecNode(n, ctx.task, old(ctx.session), old(View()))
      decreases n, 2
    {
      var existing := GetCurrentContextSession(ctx);
      if existing.Some? {
        log := log + [Used(existing.value, ctx.task)];
        o := RunAll(n.body, ctx);
      } else {
        var depthToken := ctx.callDepth;
        ctx.callDepth := ctx.callDepth + 1;
        o := SessionGenerator(n, ctx);
        closed := closed + 1;
        ctx.callDepth := depthToken;
      }
    }

    method RunNode(n: Node, ctx: TaskContext) returns (o: Outcome)
      modifies this, ctx
      ensures ctx.session == old(ctx.session) && ctx.callDepth == old(ctx.callDepth)
      ensures (o, View()) == ExecNode(n, ctx.task, old(ctx.session), old(View()))
      decreases n, 3
    {
      match n {
        case Fail(e) =>
          o := Raised(e);
        case Spawn(awaited, child) =>
          var childContext := new TaskContext(nextTask, ctx.session, ctx.callDepth);
          nextTask := nextTask + 1;
          o := RunAll(child, childContext);
          if !awaited {
            o := Normal;
          }
        case Call(entry, _, _, _, caught, _) =>
          if entry.Decorated? {
            o := ContextSession(n, ctx);
          } else {
            o := SessionGenerator(n, ctx);
          }
          o := Caught(n, o);
      }
    }

    method RunAll(nodes: seq<Node>, ctx: TaskContext) returns (o: Outcome)
      modifies this, ctx
      ensures ctx.session == old(ctx.session) && ctx.callDepth == old(ctx.callDepth)
      ensures (o, View()) == Exec(nodes, ctx.task, old(ctx.session), old(View()))
      decreases nodes, 0
    {
      if nodes == [] {
        return Normal;
      }
      o := RunNode(nodes[0], ctx);
      if o.Normal? {
        o := RunAll(nodes[1..], ctx);
      }
    }
  }
}
