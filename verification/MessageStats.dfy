/**
 The outcome and statistics machine of the two Kafka backends, with the event processor that both
 share and hand their counters to. A message is cut at its awaits: the handler's attempts, with
 the backoff between them, and the DLQ send. What decoder, handler and DLQ sender do is input.
 */
module MessageStats {

  datatype Backend = Aiokafka | FastStream

  /** One call of the handler; the last kind fails before the processor's own `try`. */
  datatype Attempt = Succeeds | ReturnsFailure | Raises | RaisesUncounted

  datatype Handling =
    | NoHandler
    | EscapesProcessor                  // an exception leaves `process_event` itself
    | Attempts(outcomes: seq<Attempt>)  // attempts beyond the list succeed

  datatype Message =
    | NullMessage
    | Undecodable                       // the decoder raises MsgDecoderError
    | DecodeEscapes                     // it raises something else
    | Event(retryCount: nat, handling: Handling, dlqSendFails: bool)

  /** `extraAttempts` is 0 unless the processor's retry policy is enabled, which it is not by default. */
  datatype Config = Config(backend: Backend, dlqEnabled: bool, maxRetries: nat, metrics: bool, extraAttempts: nat)

  datatype Stats = Stats(processed: nat, failed: nat, dlq: nat, retried: nat)

  const NONE := Stats(0, 0, 0, 0)

  datatype Counter = Processed | Failed | Dlq | Retried

  function Get(s: Stats, c: Counter): nat {
    match c
    case Processed => s.processed
    case Failed => s.failed
    case Dlq => s.dlq
    case Retried => s.retried
  }

  /** Where a message is suspended: before it starts, in its i-th attempt, in the DLQ send. */
  datatype Job = Waiting(m: Message) | Trying(m: Message, i: nat) | Sending(m: Message) | Done(m: Message)

  // ---------------------------------------------------------------- one segment of the code

  function AttemptAt(m: Message, i: nat): Attempt {
    if m.Event? && m.handling.Attempts? && i < |m.handling.outcomes| then m.handling.outcomes[i] else Succeeds
  }

  /** The attempts after which the processor adds to the event's retry count. */
  predicate RaisesRetryCount(a: Attempt) {
    a.ReturnsFailure? || a.Raises?
  }

  /** How often the first n attempts raised the event's retry count. */
  function Failing(m: Message, n: nat): nat {
    if n == 0 then 0 else Failing(m, n - 1) + (if RaisesRetryCount(AttemptAt(m, n - 1)) then 1 else 0)
  }

  /** What the processor adds to `messages_retried` for n failing attempts. */
  function Noted(cfg: Config, n: nat): nat {
    if cfg.metrics then n else 0
  }

  /** After a failed result: count, then the DLQ send or not, by the event's retry count. */
  function FailurePath(cfg: Config, m: Message, retryCount: nat, s: Stats): (Job, Stats) {
    var s' := s.(failed := s.failed + 1);
    if cfg.dlqEnabled && retryCount >= cfg.maxRetries then (Sending(m), s')
    else (Done(m), if cfg.dlqEnabled then s'.(retried := s.retried + 1) else s')
  }

  function Begin(cfg: Config, m: Message, s: Stats): (Job, Stats) {
    match m
    case NullMessage => (Done(m), s)
    case Undecodable => (Done(m), s.(failed := s.failed + 1))
    case DecodeEscapes => (Done(m), s)
    case Event(retryCount, handling, _) =>
      match handling
      case NoHandler => FailurePath(cfg, m, retryCount, s)
      case EscapesProcessor => (Done(m), if cfg.backend.Aiokafka? then s.(failed := s.failed + 1) else s)
      case Attempts(_) => (Trying(m, 0), s)
  }

  /** The i-th attempt ends: only exceptions are retried, a returned failure is final. */
  function AttemptEnds(cfg: Config, m: Message, i: nat, s: Stats): (Job, Stats)
    requires m.Event?
  {
    var a := AttemptAt(m, i);
    var s' := s.(retried := s.retried + Noted(cfg, if RaisesRetryCount(a) then 1 else 0));
    if a.Succeeds? then (Done(m), s.(processed := s.processed + 1))
    else if !a.ReturnsFailure? && i < cfg.extraAttempts then (Trying(m, i + 1), s')
    else FailurePath(cfg, m, m.retryCount + Failing(m, i + 1), s')
  }

  /** Resuming a job: its next state and the counters after it. */
  function Next(cfg: Config, j: Job, s: Stats): (Job, Stats) {
    match j
    case Waiting(m) => Begin(cfg, m, s)
    case Trying(m, i) => if m.Event? then AttemptEnds(cfg, m, i, s) else (j, s)
    case Sending(m) => (Done(m), if m.Event? && m.dlqSendFails then s else s.(dlq := s.dlq + 1))
    case Done(m) => (j, s)
  }

  // ---------------------------------------------------------------- the objects

  /** One delivery: the event object, whose retry count the processor raises, and its progress. */
  class Delivery {
    const m: Message
    var retryCount: nat
    var job: Job

    ghost predicate Valid()
      reads this
    {
      && job.m == m
      && (job.Waiting? && m.Event? ==> retryCount == m.retryCount)
      && (job.Trying? ==> m.Event? && retryCount == m.retryCount + Failing(m, job.i))
      && (job.Sending? ==> m.Event?)
    }

    constructor (m: Message)
      ensures this.m == m && job == Waiting(m) && Valid()
    {
      this.m := m;
      retryCount := if m.Event? then m.retryCount else 0;
      job := Waiting(m);
    }
  }

  /** The counters, shared by the service and its event processor. */
  class StatsCounter {
    const cfg: Config
    var messagesProcessed: nat
    var messagesFailed: nat
    var messagesDlq: nat
    var messagesRetried: nat

    ghost function View(): Stats
      reads this
    {
      Stats(messagesProcessed, messagesFailed, messagesDlq, messagesRetried)
    }

    constructor (cfg: Config)
      ensures this.cfg == cfg && View() == NONE
    {
      this.cfg := cfg;
      messagesProcessed, messagesFailed, messagesDlq, messagesRetried := 0, 0, 0, 0;
    }

    /** The failure path of `_process_message`. */
    method Fail(d: Delivery)
      requires d.m.Event?
      modifies this`messagesFailed, this`messagesRetried, d`job
      ensures (d.job, View()) == FailurePath(cfg, d.m, d.retryCount, old(View()))
      ensures d.job.m == d.m && !d.job.Waiting? && !d.job.Trying?
    {
      messagesFailed := messagesFailed + 1;
      if cfg.dlqEnabled && d.retryCount >= cfg.maxRetries {
        d.job := Sending(d.m);
      } else {
        if cfg.dlqEnabled {
          messagesRetried := messagesRetried + 1;
        }
        d.job := Done(d.m);
      }
    }

    /** `_process_message` up to the first attempt of a handler, or to its end. */
    method Start(d: Delivery)
      requires d.Valid() && d.job.Waiting?
      modifies this`messagesFailed, this`messagesRetried, d`job
      ensures d.Valid() && (d.job, View()) == Next(cfg, old(d.job), old(View()))
    {
      match d.m {
        case NullMessage =>
          d.job := Done(d.m);
        case Undecodable =>
          messagesFailed := messagesFailed + 1;
          d.job := Done(d.m);
        case DecodeEscapes =>
          d.job := Done(d.m);
        case Event(_, handling, _) =>
          match handling {
            case NoHandler =>
              Fail(d);
            case EscapesProcessor =>
              if cfg.backend.Aiokafka? {
                messagesFailed := messagesFailed + 1;
              }
              d.job := Done(d.m);
            case Attempts(_) =>
              d.job := Trying(d.m, 0);
          }
      }
    }

    /** From the end of an attempt to the next one, to the DLQ send or to the end. */
    method EndAttempt(d: Delivery)
      requires d.Valid() && d.job.Trying?
      modifies this, d
      ensures d.Valid() && (d.job, View()) == Next(cfg, old(d.job), old(View()))
    {
      var i := d.job.i;
      var a := AttemptAt(d.m, i);
      if a.Succeeds? {
        messagesProcessed := messagesProcessed + 1;
        d.job := Done(d.m);
        return;
      }
      if RaisesRetryCount(a) {
        d.retryCount := d.retryCount + 1;
        if cfg.metrics {
          messagesRetried := messagesRetried + 1;
        }
      }
      if !a.ReturnsFailure? && i < cfg.extraAttempts {
        d.job := Trying(d.m, i + 1);
      } else {
        Fail(d);
      }
    }

    /** After the DLQ send returned or raised. */
    method EndDlq(d: Delivery)
      requires d.Valid() && d.job.Sending?
      modifies this`messagesDlq, d`job
      ensures d.Valid() && (d.job, View()) == Next(cfg, old(d.job), old(View()))
    {
      if !d.m.dlqSendFails {
        messagesDlq := messagesDlq + 1;
      }
      d.job := Done(d.m);
    }
  }

  // ---------------------------------------------------------------- what becomes of a message

  /** The last attempt made, from the i-th on. */
  function LastAttempt(cfg: Config, m: Message, i: nat): (r: nat)
    ensures r >= i
    decreases cfg.extraAttempts - i
  {
    var a := AttemptAt(m, i);
    if i >= cfg.extraAttempts || a.Succeeds? || a.ReturnsFailure? then i else LastAttempt(cfg, m, i + 1)
  }

  predicate Handled(m: Message) {
    m.Event? && m.handling.Attempts?
  }

  /** The failing attempts over the life of a message. */
  function FailedAttempts(cfg: Config, m: Message): nat {
    if Handled(m) then Failing(m, LastAttempt(cfg, m, 0) + 1) else 0
  }

  predicate Fails(cfg: Config, m: Message) {
    m.Event? && (m.handling.NoHandler? || (Handled(m) && !AttemptAt(m, LastAttempt(cfg, m, 0)).Succeeds?))
  }

  predicate AtLimit(cfg: Config, m: Message)
    requires m.Event?
  {
    m.retryCount + FailedAttempts(cfg, m) >= cfg.maxRetries
  }

  predicate GoesToDlq(cfg: Config, m: Message) {
    Fails(cfg, m) && cfg.dlqEnabled && AtLimit(cfg, m)
  }

  predicate BelowLimit(cfg: Config, m: Message) {
    Fails(cfg, m) && cfg.dlqEnabled && !AtLimit(cfg, m)
  }

  predicate Escapes(cfg: Config, m: Message) {
    m.DecodeEscapes? || (m.Event? && m.handling.EscapesProcessor? && cfg.backend.FastStream?)
  }

  predicate EscapesTheProcessor(m: Message) {
    m.Event? && m.handling.EscapesProcessor?
  }

  /** Counted as failed when it ends, or before its DLQ send. */
  predicate CountsAsFailed(cfg: Config, m: Message) {
    m.Undecodable? || (EscapesTheProcessor(m) && cfg.backend.Aiokafka?) || Fails(cfg, m)
  }

  /** The failing attempts of a job so far. */
  function FailedSoFar(cfg: Config, j: Job): nat {
    match j
    case Waiting(_) => 0
    case Trying(m, i) => Failing(m, i)
    case _ => FailedAttempts(cfg, j.m)
  }

  /** What a job has added to a counter so far, by what becomes of its message. */
  function Counted(cfg: Config, c: Counter, j: Job): nat {
    match c
    case Processed => if j.Done? && Handled(j.m) && !Fails(cfg, j.m) then 1 else 0
    case Failed => if (j.Sending? || j.Done?) && CountsAsFailed(cfg, j.m) then 1 else 0
    case Dlq => if j.Done? && GoesToDlq(cfg, j.m) && !j.m.dlqSendFails then 1 else 0
    case Retried => Noted(cfg, FailedSoFar(cfg, j)) + (if j.Done? && BelowLimit(cfg, j.m) then 1 else 0)
  }

  function Total(cfg: Config, c: Counter, jobs: seq<Job>): nat {
    if jobs == [] then 0 else Total(cfg, c, jobs[..|jobs| - 1]) + Counted(cfg, c, jobs[|jobs| - 1])
  }

  /** The attempts among the first n that end in a returned failure or in the handler's exception. */
  ghost function FailedOf(m: Message, n: nat): set<nat> {
    set i: nat | i < n && AttemptAt(m, i) in {ReturnsFailure, Raises}
  }

  lemma FailedOfNext(m: Message, n: nat)
    ensures FailedOf(m, n + 1) == FailedOf(m, n) + (if AttemptAt(m, n) in {ReturnsFailure, Raises} then {n} else {})
  {
    hide AttemptAt;
  }

  /** Each of them is counted once, and no other. */
  lemma {:induction false} FailingIsCounted(m: Message, n: nat)
    ensures Failing(m, n) == |FailedOf(m, n)|
  {
    hide AttemptAt;
    if n == 0 {
      assert FailedOf(m, n) == {};
    } else {
      FailingIsCounted(m, n - 1);
      FailedOfNext(m, n - 1);
    }
  }

  /** Attempts are repeated after exceptions alone, at most `extraAttempts` times. */
  lemma {:induction false} LastAttemptIs(cfg: Config, m: Message, i: nat)
    requires i <= cfg.extraAttempts
    ensures var l := LastAttempt(cfg, m, i);
            && i <= l <= cfg.extraAttempts
            && (forall j | i <= j < l :: AttemptAt(m, j) == Raises || AttemptAt(m, j) == RaisesUncounted)
            && (l < cfg.extraAttempts ==> AttemptAt(m, l) == Succeeds || AttemptAt(m, l) == ReturnsFailure)
    decreases cfg.extraAttempts - i
  {
    if LastAttempt(cfg, m, i) != i {
      LastAttemptIs(cfg, m, i + 1);
    }
  }

  // ---------------------------------------------------------------- interleaved runs

  /** Any number of messages in flight; each schedule entry resumes one of them. */
  datatype State = State(jobs: seq<Job>, stats: Stats)

  function Resume(cfg: Config, s: State, i: nat): State {
    if i >= |s.jobs| then s
    else State(s.jobs[i := Next(cfg, s.jobs[i], s.stats).0], Next(cfg, s.jobs[i], s.stats).1)
  }

  function Run(cfg: Config, s: State, schedule: seq<nat>): State {
    if schedule == [] then s
    else Resume(cfg, Run(cfg, s, schedule[..|schedule| - 1]), schedule[|schedule| - 1])
  }

  function Arrived(messages: seq<Message>): (r: State)
    ensures |r.jobs| == |messages| && forall i | 0 <= i < |messages| :: r.jobs[i] == Waiting(messages[i])
  {
    State(seq(|messages|, i requires 0 <= i < |messages| => Waiting(messages[i])), NONE)
  }

  lemma {:induction false} TotalUpdate(cfg: Config, c: Counter, jobs: seq<Job>, i: nat, j: Job)
    requires i < |jobs|
    ensures Total(cfg, c, jobs[i := j]) + Counted(cfg, c, jobs[i]) == Total(cfg, c, jobs) + Counted(cfg, c, j)
  {
    hide Counted;
    var n := |jobs| - 1;
    if i == n {
      assert jobs[i := j][..n] == jobs[..n];
    } else {
      assert jobs[i := j][..n] == jobs[..n][i := j];
      TotalUpdate(cfg, c, jobs[..n], i, j);
    }
  }

  /** A job in its i-th attempt had only exceptions before it; one in the DLQ send belongs there. */
  predicate OnTrack(cfg: Config, j: Job) {
    match j
    case Trying(m, i) => Handled(m) && LastAttempt(cfg, m, i) == LastAttempt(cfg, m, 0)
    case Sending(m) => GoesToDlq(cfg, m)
    case _ => true
  }

  ghost predicate JobsOf(cfg: Config, messages: seq<Message>, jobs: seq<Job>) {
    && |jobs| == |messages|
    && forall i | 0 <= i < |jobs| :: jobs[i].m == messages[i] && OnTrack(cfg, jobs[i])
  }

  ghost predicate Consistent(cfg: Config, messages: seq<Message>, s: State) {
    JobsOf(cfg, messages, s.jobs) && forall c :: Get(s.stats, c) == Total(cfg, c, s.jobs)
  }

  /** Under every interleaving the counters are the sum of what each message counted so far. */
  lemma {:induction false} CountersAreTheSum(cfg: Config, messages: seq<Message>, schedule: seq<nat>)
    ensures Consistent(cfg, messages, Run(cfg, Arrived(messages), schedule))
  {
    if schedule == [] {
      forall c ensures Total(cfg, c, Arrived(messages).jobs) == 0 { NothingCounted(cfg, c, Arrived(messages).jobs); }
    } else {
      var n := |schedule| - 1;
      CountersAreTheSum(cfg, messages, schedule[..n]);
      ResumeKeepsConsistent(cfg, messages, Run(cfg, Arrived(messages), schedule[..n]), schedule[n]);
    }
  }

  lemma ResumeKeepsConsistent(cfg: Config, messages: seq<Message>, s: State, i: nat)
    requires Consistent(cfg, messages, s)
    ensures Consistent(cfg, messages, Resume(cfg, s, i))
  {
    if i < |s.jobs| {
      assert OnTrack(cfg, s.jobs[i]);
      hide Total, Counted, Next, OnTrack, Get;
      var (j, stats) := Next(cfg, s.jobs[i], s.stats);
      NextCounts(cfg, s.jobs[i], s.stats);
      forall c ensures Get(stats, c) == Total(cfg, c, s.jobs[i := j]) {
        TotalUpdate(cfg, c, s.jobs, i, j);
      }
      UpdateKeepsJobs(cfg, messages, s.jobs, i, j);
      hide JobsOf;
    }
  }

  lemma UpdateKeepsJobs(cfg: Config, messages: seq<Message>, jobs: seq<Job>, i: nat, j: Job)
    requires JobsOf(cfg, messages, jobs) && i < |jobs| && j.m == jobs[i].m && OnTrack(cfg, j)
    ensures JobsOf(cfg, messages, jobs[i := j])
  {
    hide OnTrack;
  }

  /** One segment adds to each counter exactly what it adds to the job's account. */
  ghost predicate Accounts(cfg: Config, j: Job, s: Stats, j': Job, s': Stats) {
    && j'.m == j.m && OnTrack(cfg, j')
    && forall c :: Get(s', c) + Counted(cfg, c, j) == Get(s, c) + Counted(cfg, c, j')
  }

  lemma NextCounts(cfg: Config, j: Job, s: Stats)
    requires OnTrack(cfg, j)
    ensures Accounts(cfg, j, s, Next(cfg, j, s).0, Next(cfg, j, s).1)
  {
    match j {
      case Waiting(m) => BeginCounts(cfg, m, s);
      case Trying(m, i) =>
        if AttemptAt(m, i).Succeeds? || AttemptAt(m, i).ReturnsFailure? || i >= cfg.extraAttempts {
          LastAttemptCounts(cfg, m, i, s);
        } else {
          RetryCounts(cfg, m, i, s);
        }
        hide Accounts, AttemptEnds;
      case _ =>
        hide Failing, LastAttempt, FailedAttempts;
    }
  }

  lemma BeginCounts(cfg: Config, m: Message, s: Stats)
    ensures Accounts(cfg, Waiting(m), s, Begin(cfg, m, s).0, Begin(cfg, m, s).1)
  {
    assert Failing(m, 0) == 0;
    hide LastAttempt, Failing;
  }

  lemma RetryCounts(cfg: Config, m: Message, i: nat, s: Stats)
    requires OnTrack(cfg, Trying(m, i)) && i < cfg.extraAttempts
    requires AttemptAt(m, i).Raises? || AttemptAt(m, i).RaisesUncounted?
    ensures Accounts(cfg, Trying(m, i), s, AttemptEnds(cfg, m, i, s).0, AttemptEnds(cfg, m, i, s).1)
  {
    assert LastAttempt(cfg, m, i + 1) == LastAttempt(cfg, m, 0);
    assert Failing(m, i + 1) == Failing(m, i) + (if RaisesRetryCount(AttemptAt(m, i)) then 1 else 0);
    hide LastAttempt, Failing, AttemptAt;
  }

  lemma LastAttemptCounts(cfg: Config, m: Message, i: nat, s: Stats)
    requires OnTrack(cfg, Trying(m, i))
    requires AttemptAt(m, i).Succeeds? || AttemptAt(m, i).ReturnsFailure? || i >= cfg.extraAttempts
    ensures Accounts(cfg, Trying(m, i), s, AttemptEnds(cfg, m, i, s).0, AttemptEnds(cfg, m, i, s).1)
  {
    assert LastAttempt(cfg, m, 0) == i;
    assert FailedAttempts(cfg, m) == Failing(m, i + 1);
    assert Failing(m, i + 1) == Failing(m, i) + (if RaisesRetryCount(AttemptAt(m, i)) then 1 else 0);
    hide LastAttempt, Failing, AttemptAt, FailedAttempts;
  }

  lemma {:induction false} NothingCounted(cfg: Config, c: Counter, jobs: seq<Job>)
    requires forall i | 0 <= i < |jobs| :: jobs[i].Waiting?
    ensures Total(cfg, c, jobs) == 0
  {
    if jobs != [] { NothingCounted(cfg, c, jobs[..|jobs| - 1]); }
  }

  // ---------------------------------------------------------------- the counters compared

  /** Counted as failed, and neither in the DLQ (yet) nor below the retry limit. */
  predicate Unrouted(cfg: Config, j: Job) {
    match j
    case Sending(_) => true
    case Done(m) =>
      || m.Undecodable?
      || (EscapesTheProcessor(m) && cfg.backend.Aiokafka?)
      || (Fails(cfg, m) && (!cfg.dlqEnabled || (AtLimit(cfg, m) && m.dlqSendFails)))
    case _ => false
  }

  function UnroutedJobs(cfg: Config, jobs: seq<Job>): nat {
    if jobs == [] then 0
    else UnroutedJobs(cfg, jobs[..|jobs| - 1]) + (if Unrouted(cfg, jobs[|jobs| - 1]) then 1 else 0)
  }

  /** The failing attempts of all jobs so far. */
  function AttemptsFailed(cfg: Config, jobs: seq<Job>): nat {
    if jobs == [] then 0
    else AttemptsFailed(cfg, jobs[..|jobs| - 1]) + FailedSoFar(cfg, jobs[|jobs| - 1])
  }

  function BelowLimitJobs(cfg: Config, jobs: seq<Job>): nat {
    if jobs == [] then 0
    else
      var j := jobs[|jobs| - 1];
      BelowLimitJobs(cfg, jobs[..|jobs| - 1]) + (if j.Done? && BelowLimit(cfg, j.m) then 1 else 0)
  }

  lemma {:induction false} TotalsCompare(cfg: Config, jobs: seq<Job>)
    requires forall i | 0 <= i < |jobs| :: OnTrack(cfg, jobs[i])
    ensures Total(cfg, Failed, jobs) == Total(cfg, Dlq, jobs) + BelowLimitJobs(cfg, jobs) + UnroutedJobs(cfg, jobs)
    ensures Total(cfg, Retried, jobs) == Noted(cfg, AttemptsFailed(cfg, jobs)) + BelowLimitJobs(cfg, jobs)
    ensures !cfg.dlqEnabled ==> Total(cfg, Dlq, jobs) == BelowLimitJobs(cfg, jobs) == 0
  {
    if jobs != [] {
      var n := |jobs| - 1;
      hide Counted, BelowLimit, Unrouted, FailedSoFar, OnTrack;
      TotalsCompare(cfg, jobs[..n]);
      JobCompares(cfg, jobs[n]);
    }
  }

  lemma JobCompares(cfg: Config, j: Job)
    requires OnTrack(cfg, j)
    ensures var below := if j.Done? && BelowLimit(cfg, j.m) then 1 else 0;
            && Counted(cfg, Failed, j) == Counted(cfg, Dlq, j) + below + (if Unrouted(cfg, j) then 1 else 0)
            && Counted(cfg, Retried, j) == Noted(cfg, FailedSoFar(cfg, j)) + below
            && (!cfg.dlqEnabled ==> Counted(cfg, Dlq, j) == below == 0)
  {
    hide LastAttempt, Failing, FailedSoFar, FailedAttempts, Noted;
  }

  /**
   At every instant of every interleaving: `messages_retried` is the number of failing attempts
   (with metrics on) plus the failures below the retry limit; every failure is in the DLQ, below
   the limit or unrouted. So dlq <= failed always, but dlq + retried <= failed holds exactly when
   no more attempts failed than failures are unrouted.
   */
  lemma RetriedCountsAttempts(cfg: Config, messages: seq<Message>, schedule: seq<nat>)
    ensures var s := Run(cfg, Arrived(messages), schedule);
            var attempts := if cfg.metrics then AttemptsFailed(cfg, s.jobs) else 0;
            && s.stats.retried == attempts + BelowLimitJobs(cfg, s.jobs)
            && s.stats.failed == s.stats.dlq + BelowLimitJobs(cfg, s.jobs) + UnroutedJobs(cfg, s.jobs)
            && s.stats.dlq <= s.stats.failed
            && (s.stats.dlq + s.stats.retried <= s.stats.failed <==> attempts <= UnroutedJobs(cfg, s.jobs))
            && (!cfg.dlqEnabled ==> s.stats.dlq == 0 && s.stats.retried == attempts)
  {
    CountersAreTheSum(cfg, messages, schedule);
    var jobs := Run(cfg, Arrived(messages), schedule).jobs;
    hide OnTrack, Total, Run, BelowLimitJobs, UnroutedJobs, AttemptsFailed;
    TotalsCompare(cfg, jobs);
    assert forall c :: Get(Run(cfg, Arrived(messages), schedule).stats, c) == Total(cfg, c, jobs);
  }

  // ---------------------------------------------------------------- every message ends

  /** An upper bound on how often a job is still to be resumed. */
  function Remaining(cfg: Config, j: Job): int {
    match j
    case Waiting(_) => cfg.extraAttempts + 3
    case Trying(_, i) => cfg.extraAttempts + 2 - i
    case Sending(_) => 1
    case Done(_) => 0
  }

  lemma ResumingProgresses(cfg: Config, j: Job, s: Stats)
    requires OnTrack(cfg, j) && !j.Done?
    ensures Remaining(cfg, Next(cfg, j, s).0) < Remaining(cfg, j)
    ensures Next(cfg, j, s).0.Done? || Remaining(cfg, Next(cfg, j, s).0) >= 1
  {
    if j.Trying? {
      LastAttemptIs(cfg, j.m, 0);
    }
    hide Failing, AttemptAt;
  }

  lemma {:induction false} ResumedOften(cfg: Config, messages: seq<Message>, schedule: seq<nat>, i: nat)
    requires i < |messages|
    ensures var s := Run(cfg, Arrived(messages), schedule);
            && |s.jobs| == |messages| && s.jobs[i].m == messages[i]
            && (s.jobs[i].Done? || 1 <= Remaining(cfg, s.jobs[i]) <= cfg.extraAttempts + 3 - multiset(schedule)[i])
  {
    CountersAreTheSum(cfg, messages, schedule);
    hide OnTrack, Next, Total;
    if schedule != [] {
      var n := |schedule| - 1;
      ResumedOften(cfg, messages, schedule[..n], i);
      CountersAreTheSum(cfg, messages, schedule[..n]);
      assert schedule == schedule[..n] + [schedule[n]];
      var mid := Run(cfg, Arrived(messages), schedule[..n]);
      if schedule[n] == i && !mid.jobs[i].Done? {
        ResumingProgresses(cfg, mid.jobs[i], mid.stats);
      }
      assert mid.jobs[i].Done? ==> Next(cfg, mid.jobs[i], mid.stats).0 == mid.jobs[i] by {
        DoneStaysDone(cfg, mid.jobs[i], mid.stats);
      }
    }
  }

  lemma DoneStaysDone(cfg: Config, j: Job, s: Stats)
    ensures j.Done? ==> Next(cfg, j, s) == (j, s)
  {
  }

  /** Whatever happens to the others, a message is done when it was resumed often enough for its attempts. */
  lemma EveryMessageEnds(cfg: Config, messages: seq<Message>, schedule: seq<nat>, i: nat)
    requires i < |messages| && multiset(schedule)[i] >= cfg.extraAttempts + 3
    ensures var jobs := Run(cfg, Arrived(messages), schedule).jobs;
            i < |jobs| && jobs[i] == Done(messages[i])
  {
    hide Run;
    ResumedOften(cfg, messages, schedule, i);
  }

  // ---------------------------------------------------------------- finished runs

  function CountWhere(p: Message -> bool, messages: seq<Message>): nat {
    if messages == [] then 0
    else CountWhere(p, messages[..|messages| - 1]) + (if p(messages[|messages| - 1]) then 1 else 0)
  }

  predicate IsNull(m: Message) { m.NullMessage? }

  predicate AllDone(s: State) {
    forall j | j in s.jobs :: j.Done?
  }

  function Dones(messages: seq<Message>): (r: seq<Job>)
    ensures |r| == |messages| && forall i | 0 <= i < |r| :: r[i] == Done(messages[i])
  {
    seq(|messages|, i requires 0 <= i < |messages| => Done(messages[i]))
  }

  lemma FinishedStats(cfg: Config, messages: seq<Message>, schedule: seq<nat>)
    requires AllDone(Run(cfg, Arrived(messages), schedule))
    ensures Run(cfg, Arrived(messages), schedule).jobs == Dones(messages)
    ensures forall c :: Get(Run(cfg, Arrived(messages), schedule).stats, c) == Total(cfg, c, Dones(messages))
  {
    CountersAreTheSum(cfg, messages, schedule);
    var jobs := Run(cfg, Arrived(messages), schedule).jobs;
    assert forall i | 0 <= i < |jobs| :: jobs[i] in jobs;
    assert jobs == Dones(messages);
  }

  /** Nothing failed apart from the handling of events, and every DLQ send worked. */
  ghost predicate OnlyHandlersFail(cfg: Config, messages: seq<Message>) {
    && cfg.dlqEnabled
    && forall m | m in messages :: !m.Undecodable? && !EscapesTheProcessor(m) && (m.Event? ==> !m.dlqSendFails)
  }

  lemma {:induction false} NothingUnrouted(cfg: Config, messages: seq<Message>)
    requires OnlyHandlersFail(cfg, messages)
    ensures UnroutedJobs(cfg, Dones(messages)) == 0
  {
    if messages != [] {
      var n := |messages| - 1;
      assert messages[n] in messages && forall m | m in messages[..n] :: m in messages;
      NothingUnrouted(cfg, messages[..n]);
      assert Dones(messages)[..n] == Dones(messages[..n]);
    }
  }

  lemma {:induction false} NoAttemptFailed(cfg: Config, messages: seq<Message>)
    ensures AttemptsFailed(cfg, Dones(messages)) == 0 <==> forall m | m in messages :: FailedAttempts(cfg, m) == 0
  {
    hide FailedAttempts;
    if messages != [] {
      var n := |messages| - 1;
      NoAttemptFailed(cfg, messages[..n]);
      assert messages == messages[..n] + [messages[n]];
      assert Dones(messages)[..n] == Dones(messages[..n]);
    }
  }

  /**
   With metrics and the DLQ on, and nothing failing but handlers, dlq + retried <= failed at the
   end of a run exactly when no attempt failed at all.
   */
  lemma DlqAndRetriesAreFailures(cfg: Config, messages: seq<Message>, schedule: seq<nat>)
    requires AllDone(Run(cfg, Arrived(messages), schedule)) && cfg.metrics && OnlyHandlersFail(cfg, messages)
    ensures var stats := Run(cfg, Arrived(messages), schedule).stats;
            stats.dlq + stats.retried <= stats.failed <==> forall m | m in messages :: FailedAttempts(cfg, m) == 0
  {
    hide Run, Unrouted, FailedAttempts, OnlyHandlersFail;
    RetriedCountsAttempts(cfg, messages, schedule);
    FinishedStats(cfg, messages, schedule);
    NothingUnrouted(cfg, messages);
    NoAttemptFailed(cfg, messages);
  }

  /** By default no attempt is repeated, and one failing event still counts as two retries. */
  lemma OneFailureCountsTwoRetries()
    ensures var cfg := Config(Aiokafka, true, 3, true, 0);
            var messages := [Event(0, Attempts([ReturnsFailure]), false)];
            Run(cfg, Arrived(messages), [0, 0]) == State(Dones(messages), Stats(0, 1, 0, 2))
    ensures var cfg := Config(Aiokafka, false, 3, true, 0);
            var messages := [Event(0, Attempts([ReturnsFailure]), false)];
            Run(cfg, Arrived(messages), [0, 0]) == State(Dones(messages), Stats(0, 1, 0, 1))
  {
    OneFailure(true);
    OneFailure(false);
  }

  lemma OneFailure(dlqEnabled: bool)
    ensures var cfg := Config(Aiokafka, dlqEnabled, 3, true, 0);
            var messages := [Event(0, Attempts([ReturnsFailure]), false)];
            Run(cfg, Arrived(messages), [0, 0]) == State(Dones(messages), Stats(0, 1, 0, if dlqEnabled then 2 else 1))
  {
    var cfg := Config(Aiokafka, dlqEnabled, 3, true, 0);
    var m := Event(0, Attempts([ReturnsFailure]), false);
    assert AttemptAt(m, 0) == ReturnsFailure && Failing(m, 0 + 1) == 1;
    var s0 := Arrived([m]);
    assert [0, 0][..1] == [0] && [0][..0] == [];
    var s1 := Run(cfg, s0, [0]);
    assert Run(cfg, s0, []) == s0 && s1 == Resume(cfg, s0, 0);
    assert s1 == State([Trying(m, 0)], NONE);
    assert Run(cfg, s0, [0, 0]) == Resume(cfg, s1, 0);
    assert Dones([m]) == [Done(m)];
  }

  lemma {:induction false} DonesConserve(cfg: Config, messages: seq<Message>)
    ensures |messages| == CountWhere(IsNull, messages) + CountWhere(m => Escapes(cfg, m), messages)
                          + Total(cfg, Processed, Dones(messages)) + Total(cfg, Failed, Dones(messages))
  {
    if messages != [] {
      var n := |messages| - 1;
      DonesConserve(cfg, messages[..n]);
      assert Dones(messages)[..n] == Dones(messages[..n]);
      hide FailedAttempts, LastAttempt;
    }
  }

  /** Every message of a finished run is a null, an escaping exception, processed or failed. */
  lemma EveryMessageIsAccountedFor(cfg: Config, messages: seq<Message>, schedule: seq<nat>)
    requires AllDone(Run(cfg, Arrived(messages), schedule))
    ensures var stats := Run(cfg, Arrived(messages), schedule).stats;
            |messages| == CountWhere(IsNull, messages) + CountWhere(m => Escapes(cfg, m), messages)
                          + stats.processed + stats.failed
  {
    FinishedStats(cfg, messages, schedule);
    DonesConserve(cfg, messages);
  }

  /** The backend does not matter for what becomes of an event. */
  lemma {:induction false} SameAttempts(a: Config, f: Config, m: Message, i: nat)
    requires f == a.(backend := FastStream)
    ensures LastAttempt(a, m, i) == LastAttempt(f, m, i)
    decreases a.extraAttempts - i
  {
    if i < a.extraAttempts {
      SameAttempts(a, f, m, i + 1);
    }
  }

  lemma SameEnd(a: Config, f: Config, c: Counter, m: Message)
    requires a.backend.Aiokafka? && f == a.(backend := FastStream)
    ensures Counted(a, c, Done(m)) == Counted(f, c, Done(m)) + (if c.Failed? && EscapesTheProcessor(m) then 1 else 0)
  {
    SameAttempts(a, f, m, 0);
    hide LastAttempt, Failing;
  }

  lemma {:induction false} DonesCompare(a: Config, f: Config, c: Counter, messages: seq<Message>)
    requires a.backend.Aiokafka? && f == a.(backend := FastStream)
    ensures Total(a, c, Dones(messages))
         == Total(f, c, Dones(messages)) + (if c.Failed? then CountWhere(EscapesTheProcessor, messages) else 0)
  {
    if messages != [] {
      var n := |messages| - 1;
      DonesCompare(a, f, c, messages[..n]);
      assert Dones(messages)[..n] == Dones(messages[..n]);
      SameEnd(a, f, c, messages[n]);
      hide Counted;
    }
  }

  lemma {:induction false} CountIsZero(p: Message -> bool, messages: seq<Message>)
    ensures CountWhere(p, messages) == 0 <==> forall m | m in messages :: !p(m)
  {
    if messages != [] {
      var n := |messages| - 1;
      CountIsZero(p, messages[..n]);
      assert messages == messages[..n] + [messages[n]];
    }
  }

  /**
   For the same messages, under any two schedules, both backends end with the same processed,
   dlq and retried counts, and with the same failed count exactly when no exception left the
   event processor, which turns the exceptions of handlers into failures itself.
   */
  lemma BackendsAgree(a: Config, f: Config, messages: seq<Message>, scheduleA: seq<nat>, scheduleF: seq<nat>)
    requires a.backend.Aiokafka? && f == a.(backend := FastStream)
    requires AllDone(Run(a, Arrived(messages), scheduleA)) && AllDone(Run(f, Arrived(messages), scheduleF))
    ensures var sa, sf := Run(a, Arrived(messages), scheduleA).stats, Run(f, Arrived(messages), scheduleF).stats;
            && sa == sf.(failed := sf.failed + CountWhere(EscapesTheProcessor, messages))
            && (sa == sf <==> forall m | m in messages :: !EscapesTheProcessor(m))
  {
    hide Run, Total, CountWhere, Arrived, Dones;
    FinishedStats(a, messages, scheduleA);
    FinishedStats(f, messages, scheduleF);
    DonesCompare(a, f, Processed, messages);
    DonesCompare(a, f, Failed, messages);
    DonesCompare(a, f, Dlq, messages);
    DonesCompare(a, f, Retried, messages);
    CountIsZero(EscapesTheProcessor, messages);
  }
}
