/**
 What the response cache promises, for every schedule of any number of overlapping requests with
 any backend faults, evictions, damage and delays.
 */
module ResponseCacheLaws {
  import opened Common
  import opened ResponseCache

  ghost predicate CodecRoundTrips(env: Env) {
    forall v, b :: env.encode(v) == Some(b) ==> env.decode(b) == Some(v)
  }

  // ---------------------------------------------------------------- the invariant

  /** An entry does not decode, or holds what the endpoint answered at `readAt`. */
  ghost predicate GoodEntry(env: Env, ttl: nat, k: Key, e: Entry, now: Time) {
    && e.startedAt <= e.readAt <= e.storedAt <= now && e.ttl == ttl
    && (env.decode(e.bytes).Some? ==> env.endpoint(k, e.readAt) == Ok(env.decode(e.bytes).value))
  }

  ghost predicate GoodHit(env: Env, ttl: nat, k: Key, e: Entry, arrivedAt: Time, gotAt: Time, now: Time) {
    && GoodEntry(env, ttl, k, e, now)
    && arrivedAt <= gotAt <= now && e.storedAt <= gotAt < e.storedAt + ttl
  }

  ghost predicate GoodFrame(env: Env, cfg: Config, ttl: nat, f: Frame, now: Time) {
    f.arrivedAt <= now && (MayFill(f) ==> !Uncacheable(cfg, f.c))
    && match f.stage
       case Getting => true
       case Expiring(e, gotAt) => GoodHit(env, ttl, f.c.key, e, f.arrivedAt, gotAt, now)
       case Calling(_, _, startedAt) => f.arrivedAt <= startedAt <= now
       case Setting(v, b, startedAt, readAt) =>
         && f.arrivedAt <= startedAt <= readAt <= now
         && env.endpoint(f.c.key, readAt) == Ok(v) && env.encode(v) == Some(b)
  }

  /** A frame that may still write to the store. */
  predicate MayFill(f: Frame) {
    f.stage.Getting? || f.stage.Expiring? || f.stage.Setting? || (f.stage.Calling? && f.stage.fill)
  }

  /** The bytes that the tag of a reply's headers names. */
  function NamedBytes(r: Reply): Option<Bytes> {
    match r.source
    case FromCall(stored, _, _) => stored
    case FromStore(e, _) => Some(e.bytes)
  }

  /**
   An answer computed for the request was read by a call that began after the request came in. An
   answer from the store was live when it was got from there, and was read by its own call before it
   was stored: it is younger than the TTL plus the time from that call's start to the store.
   */
  ghost predicate Justified(env: Env, cfg: Config, ttl: nat, r: Reply) {
    && r.arrivedAt <= r.at
    && (r.headers.Some? && NamedBytes(r).Some? ==> r.headers.value.etag == env.tag(NamedBytes(r).value))
    && match r.source
       case FromCall(stored, startedAt, readAt) =>
         && r.body == AnswerOf(env.endpoint(r.c.key, readAt))
         && r.arrivedAt <= startedAt <= readAt <= r.at
         && (stored.Some? ==> r.body.Returned? && env.encode(r.body.v) == stored)
       case FromStore(e, gotAt) =>
         && GoodHit(env, ttl, r.c.key, e, r.arrivedAt, gotAt, r.at) && !Uncacheable(cfg, r.c) && !ForcesRefresh(r.c)
         && match r.body
            case Returned(v) => env.decode(e.bytes) == Some(v) && env.endpoint(r.c.key, e.readAt) == Ok(v)
            case Raised(_) => false
            case NotModified(etag) => etag == env.tag(e.bytes) && Revalidates(r.c, etag)
  }

  ghost predicate GoodStore(env: Env, ttl: nat, store: Store, now: Time) {
    forall k | k in store :: GoodEntry(env, ttl, k, store[k], now)
  }

  ghost predicate GoodFrames(env: Env, cfg: Config, ttl: nat, frames: map<Id, Frame>, now: Time) {
    forall id | id in frames :: GoodFrame(env, cfg, ttl, frames[id], now)
  }

  /** Once any request may fill, the captured expiry is settled. */
  ghost predicate Settled(cfg: Config, ttl: nat, s: State) {
    && Effective(cfg, s.expire) == ttl
    && ((exists id :: id in s.frames && MayFill(s.frames[id])) ==> s.expire == Some(ttl))
  }

  ghost predicate Inv(env: Env, cfg: Config, ttl: nat, s: State) {
    && GoodStore(env, ttl, s.store, s.now) && GoodFrames(env, cfg, ttl, s.frames, s.now) && Settled(cfg, ttl, s)
    && forall r | r in s.replies :: Justified(env, cfg, ttl, r) && r.at <= s.now
  }

  // ---------------------------------------------------------------- one segment keeps it

  ghost predicate GoodProgress(env: Env, cfg: Config, ttl: nat, s: State, f: Frame, p: Progress) {
    match p
    case Pending(stage) => GoodFrame(env, cfg, ttl, f.(stage := stage), s.now)
    case Replied(body, headers, source) => Justified(env, cfg, ttl, Reply(f.c, f.arrivedAt, s.now, body, headers, source))
  }

  lemma AdvanceIsGood(env: Env, cfg: Config, ttl: nat, s: State, f: Frame, input: Input)
    requires CodecRoundTrips(env) && GoodStore(env, ttl, s.store, s.now) && GoodFrame(env, cfg, ttl, f, s.now)
    requires Matches(f.stage, s.now, input)
    ensures GoodProgress(env, cfg, ttl, s, f, Advance(env, s, f, input))
  {
    if f.stage.Getting? && Live(s.store, f.c.key, s.now) {
      assert GoodEntry(env, ttl, f.c.key, s.store[f.c.key], s.now);
    }
  }

  lemma WrittenIsGood(env: Env, cfg: Config, ttl: nat, s: State, f: Frame, input: Input)
    requires CodecRoundTrips(env) && GoodStore(env, ttl, s.store, s.now) && GoodFrame(env, cfg, ttl, f, s.now)
    requires Matches(f.stage, s.now, input) && (f.stage.Setting? ==> s.expire == Some(ttl))
    ensures GoodStore(env, ttl, StoreAfter(s, f, input), s.now)
  {
    if f.stage.Setting? {
      assert env.decode(f.stage.bytes) == Some(f.stage.v);
    }
  }

  /** A segment leads to a stage that may fill only from one that may. */
  lemma FillsStayFills(env: Env, s: State, f: Frame, input: Input)
    requires Matches(f.stage, s.now, input)
    ensures var p := Advance(env, s, f, input); p.Pending? && MayFill(f.(stage := p.stage)) ==> MayFill(f)
  {
  }

  lemma ResumeKeepsInv(env: Env, cfg: Config, ttl: nat, s: State, id: Id, input: Input)
    requires CodecRoundTrips(env) && Inv(env, cfg, ttl, s)
    requires id in s.frames && Matches(s.frames[id].stage, s.now, input)
    ensures Inv(env, cfg, ttl, ResumeIn(env, s, id, input))
  {
    var f := s.frames[id];
    assert GoodFrame(env, cfg, ttl, f, s.now);
    AdvanceIsGood(env, cfg, ttl, s, f, input);
    assert f.stage.Setting? ==> MayFill(f);
    WrittenIsGood(env, cfg, ttl, s, f, input);
    FillsStayFills(env, s, f, input);
    hide GoodFrame, GoodEntry, Justified, MayFill, Advance, StoreAfter, GoodStore;
    var s' := ResumeIn(env, s, id, input);
    assert forall i | i in s'.frames && i != id :: i in s.frames && s'.frames[i] == s.frames[i];
    assert GoodFrames(env, cfg, ttl, s'.frames, s'.now);
  }

  lemma ArriveKeepsInv(env: Env, cfg: Config, ttl: nat, s: State, id: Id, c: Call)
    requires Inv(env, cfg, ttl, s) && id !in s.frames
    ensures Inv(env, cfg, ttl, ArriveIn(cfg, s, id, c))
  {
    hide GoodStore, GoodEntry, Justified;
    var s' := ArriveIn(cfg, s, id, c);
    assert forall i | i in s.frames :: i in s'.frames && s'.frames[i] == s.frames[i];
    assert GoodFrames(env, cfg, ttl, s'.frames, s'.now);
  }

  lemma StepKeepsInv(env: Env, cfg: Config, ttl: nat, s: State, step: Step)
    requires CodecRoundTrips(env) && Inv(env, cfg, ttl, s) && Allowed(env, s, step)
    ensures Inv(env, cfg, ttl, Apply(env, cfg, s, step))
  {
    match step {
      case Arrive(id, c) => ArriveKeepsInv(env, cfg, ttl, s, id, c);
      case Resume(id, input) => ResumeKeepsInv(env, cfg, ttl, s, id, input);
      case _ =>
    }
  }

  lemma {:induction false} RunKeepsInv(env: Env, cfg: Config, expire: Option<nat>, start: Time, run: seq<Step>)
    requires CodecRoundTrips(env)
    ensures Inv(env, cfg, Effective(cfg, expire), After(env, cfg, Start(expire, start), run))
  {
    if run != [] {
      var n := |run| - 1;
      RunKeepsInv(env, cfg, expire, start, run[..n]);
      var mid := After(env, cfg, Start(expire, start), run[..n]);
      if Allowed(env, mid, run[n]) {
        StepKeepsInv(env, cfg, Effective(cfg, expire), mid, run[n]);
      }
    }
  }

  // ---------------------------------------------------------------- what is answered

  /** Seconds between the moment the answer was read and the moment it was found in the store. */
  function Age(r: Reply): int
    requires r.source.FromStore?
  {
    r.source.gotAt - r.source.entry.readAt
  }

  /** Seconds from the start of the call that filled the entry until it was in the store. */
  function FillTime(e: Entry): int {
    e.storedAt - e.startedAt
  }

  /**
   Every reply of every schedule: computed by a call of its own request, or younger than the TTL
   plus the time the filling call took. Bypassed and no-cache requests are always computed.
   */
  lemma AnswersAreFresh(env: Env, cfg: Config, expire: Option<nat>, start: Time, run: seq<Step>, r: Reply)
    requires CodecRoundTrips(env) && r in After(env, cfg, Start(expire, start), run).replies
    ensures Justified(env, cfg, Effective(cfg, expire), r)
    ensures r.source.FromStore? ==> 0 <= Age(r) < Effective(cfg, expire) + FillTime(r.source.entry)
    ensures Uncacheable(cfg, r.c) || ForcesRefresh(r.c) ==> r.source.FromCall?
    ensures r.body.NotModified? ==> r.source.FromStore?
  {
    RunKeepsInv(env, cfg, expire, start, run);
  }

  /** An endpoint that depends on its key alone cannot be told from its cached form. */
  lemma CacheIsTransparent(env: Env, cfg: Config, expire: Option<nat>, start: Time, run: seq<Step>, r: Reply)
    requires CodecRoundTrips(env) && r in After(env, cfg, Start(expire, start), run).replies
    requires forall k, t, u :: env.endpoint(k, t) == env.endpoint(k, u)
    ensures || r.body == AnswerOf(env.endpoint(r.c.key, r.at))
            || (r.source.FromStore? && r.body == NotModified(env.tag(r.source.entry.bytes))
                && Revalidates(r.c, env.tag(r.source.entry.bytes)))
  {
    AnswersAreFresh(env, cfg, expire, start, run, r);
  }

  /** The TTL of a decorated endpoint: its own `expire` unless that is missing or 0, else the configured one. */
  function TtlOfEndpoint(cfg: Config, expire: Option<nat>): nat {
    match expire
    case Some(seconds) => if seconds > 0 then seconds else cfg.ttl
    case None => cfg.ttl
  }

  /** Every entry of every schedule carries the one TTL of the endpoint. */
  lemma ExpiryIsFrozen(env: Env, cfg: Config, expire: Option<nat>, start: Time, run: seq<Step>)
    requires CodecRoundTrips(env)
    ensures Effective(cfg, expire) == TtlOfEndpoint(cfg, expire)
    ensures var s := After(env, cfg, Start(expire, start), run);
            && (s.expire == expire || s.expire == Some(TtlOfEndpoint(cfg, expire)))
            && forall k | k in s.store :: s.store[k].ttl == TtlOfEndpoint(cfg, expire)
  {
    RunKeepsInv(env, cfg, expire, start, run);
    ExpiryIsSetOnce(env, cfg, expire, start, run);
  }

  lemma {:induction false} ExpiryIsSetOnce(env: Env, cfg: Config, expire: Option<nat>, start: Time, run: seq<Step>)
    ensures var s := After(env, cfg, Start(expire, start), run);
            s.expire == expire || s.expire == Some(Effective(cfg, expire))
  {
    if run != [] {
      ExpiryIsSetOnce(env, cfg, expire, start, run[..|run| - 1]);
    }
  }

  /**
   A client that received `v` under a tag, and is told 304 for that tag by a later reply for the
   same key, holds what the endpoint answered less than the TTL plus the filling call's time
   before. The tags need to tell apart only the bytes it was given and the bytes now stored.
   */
  lemma RevalidationIsFresh(
    env: Env, cfg: Config, expire: Option<nat>, start: Time, run: seq<Step>, r1: Reply, r2: Reply, v: Value, b: Bytes)
    requires CodecRoundTrips(env)
    requires var replies := After(env, cfg, Start(expire, start), run).replies; r1 in replies && r2 in replies
    requires r1.body == Returned(v) && r1.headers.Some? && NamedBytes(r1) == Some(b)
    requires r2.c.key == r1.c.key && r2.body == NotModified(r1.headers.value.etag) && r2.source.FromStore?
    requires env.tag(b) == env.tag(r2.source.entry.bytes) ==> b == r2.source.entry.bytes
    ensures env.endpoint(r2.c.key, r2.source.entry.readAt) == Ok(v)
    ensures 0 <= Age(r2) < Effective(cfg, expire) + FillTime(r2.source.entry)
  {
    AnswersAreFresh(env, cfg, expire, start, run, r1);
    AnswersAreFresh(env, cfg, expire, start, run, r2);
    assert env.decode(b) == Some(v);
  }

  // ---------------------------------------------------------------- how old, exactly

  /** The endpoint's answer at `t` can be stored. */
  ghost predicate Storable(env: Env, k: Key, t: Time) {
    env.endpoint(k, t).Ok? && env.encode(env.endpoint(k, t).value).Some?
  }

  /** A plain cacheable request for a key whose answer at `start` can be stored. */
  ghost predicate StorableAt(env: Env, cfg: Config, c: Call, start: Time) {
    !Uncacheable(cfg, c) && !ForcesRefresh(c) && Storable(env, c.key, start)
  }

  /** A miss whose endpoint call reads its answer at once and takes d seconds. */
  function MissRun(id: Id, c: Call, d: nat, readAt: Time): seq<Step> {
    [] + [Arrive(id, c)] + [Resume(id, Got(false))] + [Tick(d)] + [Resume(id, Answered(readAt))] + [Resume(id, WasSet(Stored, false))]
  }

  /** A hit, `wait` seconds later. */
  function HitRun(id: Id, c: Call, wait: nat): seq<Step> {
    [] + [Tick(wait)] + [Arrive(id, c)] + [Resume(id, Got(false))] + [Resume(id, Remaining(false, false))]
  }

  lemma {:induction false} AfterConcat(env: Env, cfg: Config, s: State, a: seq<Step>, b: seq<Step>)
    ensures After(env, cfg, s, a + b) == After(env, cfg, After(env, cfg, s, a), b)
  {
    if b == [] {
      assert a + b == a;
    } else {
      var n := |b| - 1;
      AfterConcat(env, cfg, s, a, b[..n]);
      assert (a + b)[..|a + b| - 1] == a + b[..n] && (a + b)[|a + b| - 1] == b[n];
    }
  }

  lemma MissFills(env: Env, cfg: Config, expire: Option<nat>, start: Time, c: Call, d: nat)
    requires !Uncacheable(cfg, c) && Storable(env, c.key, start)
    ensures var s := After(env, cfg, Start(expire, start), MissRun(0, c, d, start));
            var b := env.encode(env.endpoint(c.key, start).value).value;
            && s.now == start + d && 1 !in s.frames && s.expire == Some(Effective(cfg, expire))
            && s.store == map[c.key := Entry(b, start + d, Effective(cfg, expire), start, start)]
  {
    var s0 := Start(expire, start);
    var s1 := Apply(env, cfg, s0, Arrive(0, c));
    var s2 := Apply(env, cfg, s1, Resume(0, Got(false)));
    var s3 := Apply(env, cfg, s2, Tick(d));
    var s4 := Apply(env, cfg, s3, Resume(0, Answered(start)));
    hide After;
    OneMore(env, cfg, s0, [], Arrive(0, c));
    OneMore(env, cfg, s0, [] + [Arrive(0, c)], Resume(0, Got(false)));
    OneMore(env, cfg, s0, [] + [Arrive(0, c)] + [Resume(0, Got(false))], Tick(d));
    OneMore(env, cfg, s0, [] + [Arrive(0, c)] + [Resume(0, Got(false))] + [Tick(d)], Resume(0, Answered(start)));
    OneMore(env, cfg, s0, [] + [Arrive(0, c)] + [Resume(0, Got(false))] + [Tick(d)] + [Resume(0, Answered(start))],
            Resume(0, WasSet(Stored, false)));
  }

  lemma HitReplies(env: Env, cfg: Config, s: State, id: Id, c: Call, wait: nat)
    requires !Uncacheable(cfg, c) && !ForcesRefresh(c) && id !in s.frames
    requires Live(s.store, c.key, s.now + wait) && env.decode(s.store[c.key].bytes).Some?
    ensures var s' := After(env, cfg, s, HitRun(id, c, wait));
            && s.replies < s'.replies && s'.replies[|s.replies|].c == c
            && s'.replies[|s.replies|].arrivedAt == s.now + wait
            && s'.replies[|s.replies|].source == FromStore(s.store[c.key], s.now + wait)
  {
    var s1 := Apply(env, cfg, s, Tick(wait));
    var s2 := Apply(env, cfg, s1, Arrive(id, c));
    var s3 := Apply(env, cfg, s2, Resume(id, Got(false)));
    hide After;
    OneMore(env, cfg, s, [], Tick(wait));
    OneMore(env, cfg, s, [] + [Tick(wait)], Arrive(id, c));
    OneMore(env, cfg, s, [] + [Tick(wait)] + [Arrive(id, c)], Resume(id, Got(false)));
    OneMore(env, cfg, s, [] + [Tick(wait)] + [Arrive(id, c)] + [Resume(id, Got(false))], Resume(id, Remaining(false, false)));
  }

  /** For every TTL and every duration d of a call, an answer of age TTL + d - 1 is served. */
  lemma AgeBoundIsReached(env: Env, cfg: Config, expire: Option<nat>, start: Time, c: Call, d: nat) returns (run: seq<Step>, r: Reply)
    requires CodecRoundTrips(env) && StorableAt(env, cfg, c, start) && Effective(cfg, expire) > 0
    ensures r in After(env, cfg, Start(expire, start), run).replies && r.source.FromStore? && r.c == c
    ensures FillTime(r.source.entry) == d && Age(r) == Effective(cfg, expire) + d - 1
  {
    var wait := Effective(cfg, expire) - 1;
    run := MissRun(0, c, d, start) + HitRun(1, c, wait);
    AfterConcat(env, cfg, Start(expire, start), MissRun(0, c, d, start), HitRun(1, c, wait));
    MissFills(env, cfg, expire, start, c, d);
    var mid := After(env, cfg, Start(expire, start), MissRun(0, c, d, start));
    HitReplies(env, cfg, mid, 1, c, wait);
    hide After;
    r := After(env, cfg, mid, HitRun(1, c, wait)).replies[|mid.replies|];
  }

  /** Every stored answer of every schedule whose fill took at most d seconds is younger than the TTL. */
  ghost predicate AlwaysWithinTtl(env: Env, cfg: Config, expire: Option<nat>, start: Time, d: nat) {
    forall run: seq<Step>, r: Reply ::
      r in After(env, cfg, Start(expire, start), run).replies && r.source.FromStore? && FillTime(r.source.entry) <= d
      ==> Age(r) < Effective(cfg, expire)
  }

  /** The TTL bounds the age of an answer exactly when filling the cache takes no time. */
  lemma TtlBoundsAgeExactlyWhen(env: Env, cfg: Config, expire: Option<nat>, start: Time, c: Call, d: nat)
    requires CodecRoundTrips(env) && StorableAt(env, cfg, c, start) && Effective(cfg, expire) > 0
    ensures AlwaysWithinTtl(env, cfg, expire, start, d) <==> d == 0
  {
    if d == 0 {
      forall run: seq<Step>, r: Reply
        | r in After(env, cfg, Start(expire, start), run).replies && r.source.FromStore? && FillTime(r.source.entry) <= d
        ensures Age(r) < Effective(cfg, expire)
      {
        AnswersAreFresh(env, cfg, expire, start, run, r);
      }
    } else {
      var run, r := AgeBoundIsReached(env, cfg, expire, start, c, d);
      assert !(Age(r) < Effective(cfg, expire));
    }
  }

  /** The same key, asked for with `no-cache`. */
  function Refreshing(c: Call): Call {
    c.(request := Some(RequestInfo("GET", Some("no-cache"), None)))
  }

  /**
   Fills are not ordered: a call that started first can store its answer last, so a request that
   comes after a `no-cache` one has been answered still gets the older answer.
   */
  lemma SlowFillOverwritesNewer(env: Env, cfg: Config, expire: Option<nat>, start: Time, c: Call)
    returns (run: seq<Step>, newer: Reply, older: Reply)
    requires CodecRoundTrips(env) && StorableAt(env, cfg, c, start) && StorableAt(env, cfg, c, start + 1)
    requires Effective(cfg, expire) > 0
    ensures var replies := After(env, cfg, Start(expire, start), run).replies; newer in replies && older in replies
    ensures newer.c == Refreshing(c) && newer.source.FromCall? && newer.source.readAt == start + 1
    ensures older.c == c && older.arrivedAt >= newer.at && older.source.FromStore? && older.source.entry.readAt == start
  {
    var s0 := Start(expire, start);
    var r4 := TwoInFlight(env, cfg, expire, start, c);
    var r7 := RefreshEnds(env, cfg, s0, r4, c);
    var s7 := After(env, cfg, s0, r7);
    newer := s7.replies[0];
    var s8, r8 := After1(env, cfg, s0, s7, r7, Resume(0, Answered(start)));
    var s9, r9 := After1(env, cfg, s0, s8, r8, Resume(0, WasSet(Stored, false)));
    hide After;
    assert s9.store[c.key].readAt == start && s9.now == start + 1 && 2 !in s9.frames;
    assert newer == s9.replies[0];
    HitReplies(env, cfg, s9, 2, c, 0);
    AfterConcat(env, cfg, s0, r9, HitRun(2, c, 0));
    run := r9 + HitRun(2, c, 0);
    older := After(env, cfg, s9, HitRun(2, c, 0)).replies[|s9.replies|];
  }

  /** A plain request in its call since `start`, and a second later a refreshing one. */
  lemma TwoInFlight(env: Env, cfg: Config, expire: Option<nat>, start: Time, c: Call) returns (run: seq<Step>)
    requires StorableAt(env, cfg, c, start)
    ensures var s := After(env, cfg, Start(expire, start), run);
            && s.now == start + 1 && s.store == map[] && s.replies == [] && s.expire == Some(Effective(cfg, expire))
            && 0 in s.frames && s.frames[0] == Frame(c, start, Calling(true, None, start))
            && 1 in s.frames && s.frames[1] == Frame(Refreshing(c), start + 1, Getting) && 2 !in s.frames
  {
    var s0: State := Start(expire, start);
    var s1 := Apply(env, cfg, s0, Arrive(0, c));
    var s2 := Apply(env, cfg, s1, Resume(0, Got(false)));
    var s3 := Apply(env, cfg, s2, Tick(1));
    hide After;
    OneMore(env, cfg, s0, [], Arrive(0, c));
    OneMore(env, cfg, s0, [] + [Arrive(0, c)], Resume(0, Got(false)));
    OneMore(env, cfg, s0, [] + [Arrive(0, c)] + [Resume(0, Got(false))], Tick(1));
    assert 1 !in s3.frames;
    run := [] + [Arrive(0, c)] + [Resume(0, Got(false))] + [Tick(1)];
    OneMore(env, cfg, s0, run, Arrive(1, Refreshing(c)));
    run := run + [Arrive(1, Refreshing(c))];
  }

  lemma RefreshEnds(env: Env, cfg: Config, s0: State, before: seq<Step>, c: Call) returns (run: seq<Step>)
    requires var s := After(env, cfg, s0, before);
             && 1 in s.frames && s.frames[1] == Frame(Refreshing(c), s.now, Getting) && 0 in s.frames
             && s.store == map[] && s.replies == []
             && env.endpoint(c.key, s.now).Ok? && env.encode(env.endpoint(c.key, s.now).value).Some?
    ensures var s, s' := After(env, cfg, s0, before), After(env, cfg, s0, run);
            && s'.now == s.now && s'.expire == s.expire && s'.frames == Without(s.frames, 1)
            && |s'.replies| == 1 && s'.replies[0].c == Refreshing(c) && s'.replies[0].at == s.now
            && s'.replies[0].source.FromCall? && s'.replies[0].source.readAt == s.now
  {
    var s4 := After(env, cfg, s0, before);
    var s5, r5 := After1(env, cfg, s0, s4, before, Resume(1, Got(false)));
    var s6, r6 := After1(env, cfg, s0, s5, r5, Resume(1, Answered(s4.now)));
    var s7, r7 := After1(env, cfg, s0, s6, r6, Resume(1, WasSet(Stored, false)));
    hide After;
    assert s7.frames == Without(s4.frames, 1);
    run := r7;
  }

  /** Extends a run by a step that can happen. */
  lemma After1(env: Env, cfg: Config, s0: State, s: State, run: seq<Step>, step: Step) returns (s': State, run': seq<Step>)
    requires After(env, cfg, s0, run) == s && Allowed(env, s, step)
    ensures run' == run + [step] && s' == Apply(env, cfg, s, step) && After(env, cfg, s0, run') == s'
  {
    OneMore(env, cfg, s0, run, step);
    s', run' := Apply(env, cfg, s, step), run + [step];
  }

  // ---------------------------------------------------------------- when an older answer comes back

  /** A fill in flight that can still store an answer read before T. */
  ghost predicate OlderFill(env: Env, f: Frame, k: Key, T: Time) {
    f.c.key == k
    && match f.stage
       case Calling(fill, _, startedAt) => fill && exists t: Time :: startedAt <= t < T && Storable(env, k, t)
       case Setting(_, _, _, readAt) => readAt < T
       case _ => false
  }

  ghost predicate OlderFillInFlight(env: Env, s: State, k: Key, T: Time) {
    exists id :: id in s.frames && OlderFill(env, s.frames[id], k, T)
  }

  predicate HoldsOlder(s: State, k: Key, T: Time) {
    k in s.store && s.store[k].readAt < T
  }

  /** A reply to a request that came after `since`, from the store, read before T. */
  predicate OlderReply(r: Reply, k: Key, since: Time, T: Time) {
    r.c.key == k && r.arrivedAt > since && r.source.FromStore? && r.source.entry.readAt < T
  }

  /** Nothing older than T is stored or on its way, nor got by a request that came after `since`. */
  ghost predicate NothingOlder(env: Env, s: State, k: Key, since: Time, T: Time) {
    && s.now >= T && !HoldsOlder(s, k, T) && !OlderFillInFlight(env, s, k, T)
    && (forall id | id in s.frames && s.frames[id].c.key == k && s.frames[id].arrivedAt > since && s.frames[id].stage.Expiring? ::
          s.frames[id].stage.entry.readAt >= T)
    && (forall r | r in s.replies :: !OlderReply(r, k, since, T))
  }

  lemma SegmentBringsNothingOlder(env: Env, s: State, f: Frame, input: Input, k: Key, since: Time, T: Time)
    requires s.now >= T && !HoldsOlder(s, k, T) && Matches(f.stage, s.now, input) && f.c.key == k
    requires !OlderFill(env, f, k, T)
    requires f.arrivedAt > since && f.stage.Expiring? ==> f.stage.entry.readAt >= T
    ensures match Advance(env, s, f, input)
            case Pending(stage) =>
              && !OlderFill(env, f.(stage := stage), k, T)
              && (f.arrivedAt > since && stage.Expiring? ==> stage.entry.readAt >= T)
            case Replied(body, headers, source) =>
              !OlderReply(Reply(f.c, f.arrivedAt, s.now, body, headers, source), k, since, T)
    ensures !HoldsOlder(s.(store := StoreAfter(s, f, input)), k, T)
  {
    if f.stage.Calling? {
      assert f.stage.fill && input.readAt < T ==> !Storable(env, k, input.readAt);
    }
  }

  lemma ResumeBringsNothingOlder(env: Env, s: State, id: Id, input: Input, k: Key, since: Time, T: Time)
    requires NothingOlder(env, s, k, since, T) && id in s.frames && Matches(s.frames[id].stage, s.now, input)
    ensures NothingOlder(env, ResumeIn(env, s, id, input), k, since, T)
  {
    var f, s' := s.frames[id], ResumeIn(env, s, id, input);
    if f.c.key == k {
      SegmentBringsNothingOlder(env, s, f, input, k, since, T);
    }
    assert !HoldsOlder(s', k, T);
    hide Advance, StoreAfter, OlderFill;
    assert forall i | i in s'.frames && i != id :: i in s.frames && s'.frames[i] == s.frames[i];
  }

  lemma StepBringsNothingOlder(env: Env, cfg: Config, s: State, step: Step, k: Key, since: Time, T: Time)
    requires NothingOlder(env, s, k, since, T) && Allowed(env, s, step)
    ensures NothingOlder(env, Apply(env, cfg, s, step), k, since, T)
  {
    if step.Resume? {
      ResumeBringsNothingOlder(env, s, step.id, step.input, k, since, T);
      hide ResumeIn;
    } else {
      var s' := Apply(env, cfg, s, step);
      assert forall i | i in s'.frames && !(step.Arrive? && i == step.id) :: i in s.frames && s'.frames[i] == s.frames[i];
    }
  }

  lemma {:induction false} RunBringsNothingOlder(env: Env, cfg: Config, s: State, run: seq<Step>, k: Key, since: Time, T: Time)
    requires NothingOlder(env, s, k, since, T)
    ensures NothingOlder(env, After(env, cfg, s, run), k, since, T)
  {
    if run != [] {
      RunBringsNothingOlder(env, cfg, s, run[..|run| - 1], k, since, T);
      var mid := After(env, cfg, s, run[..|run| - 1]);
      if Allowed(env, mid, run[|run| - 1]) {
        StepBringsNothingOlder(env, cfg, mid, run[|run| - 1], k, since, T);
      }
      hide NothingOlder, Apply, Allowed;
    }
  }

  lemma SetEnds(env: Env, cfg: Config, s: State, id: Id) returns (s': State)
    requires id in s.frames && s.frames[id].stage.Setting?
    ensures Allowed(env, s, Resume(id, WasSet(Stored, false))) && s' == Apply(env, cfg, s, Resume(id, WasSet(Stored, false)))
    ensures var f := s.frames[id];
            && s'.now == s.now && s'.frames.Keys <= s.frames.Keys && f.c.key in s'.store
            && s'.store[f.c.key] == Entry(f.stage.bytes, s.now, TtlOf(s.expire), f.stage.startedAt, f.stage.readAt)
  {
    s' := Apply(env, cfg, s, Resume(id, WasSet(Stored, false)));
  }

  /** The fill ends a second later: its old answer is stored, decodable and live. */
  lemma OlderFillEnds(env: Env, cfg: Config, ttl: nat, s: State, id: Id, k: Key, T: Time) returns (run: seq<Step>)
    requires CodecRoundTrips(env) && Inv(env, cfg, ttl, s) && T <= s.now
    requires id in s.frames && OlderFill(env, s.frames[id], k, T)
    ensures var s' := After(env, cfg, s, run);
            && HoldsOlder(s', k, T) && s'.now == s.now + 1 && s'.frames.Keys <= s.frames.Keys
            && s'.store[k].storedAt == s'.now && s'.store[k].ttl == ttl && env.decode(s'.store[k].bytes).Some?
  {
    var f := s.frames[id];
    assert GoodFrame(env, cfg, ttl, f, s.now) && MayFill(f) && s.expire == Some(ttl);
    var s1, r1 := After1(env, cfg, s, s, [], Tick(1));
    var s2, r2 := s1, r1;
    if f.stage.Calling? {
      var t: Time :| f.stage.startedAt <= t < T && Storable(env, k, t);
      s2, r2 := After1(env, cfg, s, s1, r1, Resume(id, Answered(t)));
    }
    var s3 := SetEnds(env, cfg, s2, id);
    hide After, Apply;
    var s4, r4 := After1(env, cfg, s, s2, r2, Resume(id, WasSet(Stored, false)));
    run := r4;
  }

  /**
   In any state a schedule reaches, and for any moment T the stored answer for a key is not older
   than: some continuation puts an answer for the key that was read before T into the store exactly
   when a fill for the key is in flight that has read before T or can still turn out to have.
   */
  lemma OlderIsStoredExactlyWhen(env: Env, cfg: Config, expire: Option<nat>, start: Time, before: seq<Step>, k: Key, T: Time)
    requires CodecRoundTrips(env)
    requires var s := After(env, cfg, Start(expire, start), before); T <= s.now && !HoldsOlder(s, k, T)
    ensures var s := After(env, cfg, Start(expire, start), before);
            (exists after: seq<Step> :: HoldsOlder(After(env, cfg, s, after), k, T)) <==> OlderFillInFlight(env, s, k, T)
  {
    var s := After(env, cfg, Start(expire, start), before);
    RunKeepsInv(env, cfg, expire, start, before);
    if OlderFillInFlight(env, s, k, T) {
      var id :| id in s.frames && OlderFill(env, s.frames[id], k, T);
      var after := OlderFillEnds(env, cfg, Effective(cfg, expire), s, id, k, T);
      assert HoldsOlder(After(env, cfg, s, after), k, T);
    } else {
      NothingOlderYet(env, cfg, Effective(cfg, expire), s, k, T);
      forall after: seq<Step> ensures !HoldsOlder(After(env, cfg, s, after), k, T) {
        RunBringsNothingOlder(env, cfg, s, after, k, s.now, T);
      }
    }
  }

  /** Everything in the state came before now. */
  lemma NothingOlderYet(env: Env, cfg: Config, ttl: nat, s: State, k: Key, T: Time)
    requires Inv(env, cfg, ttl, s) && T <= s.now && !HoldsOlder(s, k, T) && !OlderFillInFlight(env, s, k, T)
    ensures NothingOlder(env, s, k, s.now, T)
  {
    forall id | id in s.frames ensures s.frames[id].arrivedAt <= s.now {
      assert GoodFrame(env, cfg, ttl, s.frames[id], s.now);
    }
    forall r | r in s.replies ensures r.arrivedAt <= s.now {
      assert Justified(env, cfg, ttl, r);
    }
  }

  /**
   And exactly then some request that comes later, however plain, is answered from the store with
   something read before T, for instance before the answer of a finished `no-cache` request.
   */
  lemma OlderIsAnsweredExactlyWhen(
    env: Env, cfg: Config, expire: Option<nat>, start: Time, before: seq<Step>, c: Call, free: Id, T: Time)
    requires CodecRoundTrips(env) && !Uncacheable(cfg, c) && !ForcesRefresh(c) && Effective(cfg, expire) > 0
    requires var s := After(env, cfg, Start(expire, start), before);
             T <= s.now && !HoldsOlder(s, c.key, T) && free !in s.frames
    ensures var s := After(env, cfg, Start(expire, start), before);
            (exists after: seq<Step>, r: Reply ::
               r in After(env, cfg, s, after).replies && OlderReply(r, c.key, s.now, T))
            <==> OlderFillInFlight(env, s, c.key, T)
  {
    var s, ttl := After(env, cfg, Start(expire, start), before), Effective(cfg, expire);
    RunKeepsInv(env, cfg, expire, start, before);
    hide Inv;
    if OlderFillInFlight(env, s, c.key, T) {
      var after, r := OlderIsServed(env, cfg, ttl, s, c, free, T);
      assert r in After(env, cfg, s, after).replies && OlderReply(r, c.key, s.now, T);
    } else {
      NothingOlderYet(env, cfg, ttl, s, c.key, T);
      forall after: seq<Step>, r: Reply | r in After(env, cfg, s, after).replies
        ensures !OlderReply(r, c.key, s.now, T)
      {
        RunBringsNothingOlder(env, cfg, s, after, c.key, s.now, T);
      }
    }
  }

  lemma OlderIsServed(env: Env, cfg: Config, ttl: nat, s: State, c: Call, free: Id, T: Time) returns (after: seq<Step>, r: Reply)
    requires CodecRoundTrips(env) && Inv(env, cfg, ttl, s) && T <= s.now && ttl > 0
    requires !Uncacheable(cfg, c) && !ForcesRefresh(c) && free !in s.frames && OlderFillInFlight(env, s, c.key, T)
    ensures r in After(env, cfg, s, after).replies && OlderReply(r, c.key, s.now, T)
  {
    var id :| id in s.frames && OlderFill(env, s.frames[id], c.key, T);
    var run := OlderFillEnds(env, cfg, ttl, s, id, c.key, T);
    var mid := After(env, cfg, s, run);
    hide Inv, OlderFill, After, OlderFillInFlight;
    HitReplies(env, cfg, mid, free, c, 0);
    AfterConcat(env, cfg, s, run, HitRun(free, c, 0));
    after := run + HitRun(free, c, 0);
    r := After(env, cfg, mid, HitRun(free, c, 0)).replies[|mid.replies|];
  }

  // ---------------------------------------------------------------- independence

  /** The bypassed requests, or the cacheable requests for one key. */
  datatype Party = Bypassed | ForKey(k: Key)

  predicate Mine(cfg: Config, p: Party, c: Call) {
    match p
    case Bypassed => Uncacheable(cfg, c)
    case ForKey(k) => !Uncacheable(cfg, c) && c.key == k
  }

  predicate Concerns(cfg: Config, p: Party, s: State, step: Step) {
    match step
    case Arrive(_, c) => Mine(cfg, p, c)
    case Resume(id, _) => id in s.frames && Mine(cfg, p, s.frames[id].c)
    case Evict(k) => p == ForKey(k)
    case Corrupt(k, _) => p == ForKey(k)
    case Tick(_) => true
  }

  /** The steps of a run that the party's requests, the clock and the party's entry make. */
  function Project(env: Env, cfg: Config, p: Party, s: State, run: seq<Step>): seq<Step> {
    if run == [] then []
    else
      var n := |run| - 1;
      var mid := After(env, cfg, s, run[..n]);
      Project(env, cfg, p, s, run[..n])
      + (if Allowed(env, mid, run[n]) && Concerns(cfg, p, mid, run[n]) then [run[n]] else [])
  }

  function RepliesOf(cfg: Config, p: Party, replies: seq<Reply>): seq<Reply> {
    if replies == [] then []
    else
      var n := |replies| - 1;
      RepliesOf(cfg, p, replies[..n]) + (if Mine(cfg, p, replies[n].c) then [replies[n]] else [])
  }

  ghost predicate SameFrames(cfg: Config, p: Party, s: map<Id, Frame>, t: map<Id, Frame>) {
    && (forall id :: id in t <==> id in s && Mine(cfg, p, s[id].c))
    && (forall id | id in t :: t[id] == s[id])
  }

  ghost predicate SameEntry(p: Party, s: Store, t: Store) {
    p.ForKey? ==> (p.k in t <==> p.k in s) && (p.k in s ==> t[p.k] == s[p.k])
  }

  /** `t` is what is left of `s` when only the party is looked at. */
  ghost predicate SameView(cfg: Config, p: Party, s: State, t: State) {
    && t.now == s.now && SameFrames(cfg, p, s.frames, t.frames)
    && t.replies == RepliesOf(cfg, p, s.replies) && SameEntry(p, s.store, t.store)
  }

  /** Only cacheable requests may fill, and while one is in flight the captured expiry is settled. */
  ghost predicate Orderly(cfg: Config, ttl: nat, s: State) {
    && Effective(cfg, s.expire) == ttl
    && forall id | id in s.frames && MayFill(s.frames[id]) :: !Uncacheable(cfg, s.frames[id].c) && s.expire == Some(ttl)
  }

  lemma StepKeepsOrderly(env: Env, cfg: Config, ttl: nat, s: State, step: Step)
    requires Orderly(cfg, ttl, s) && Allowed(env, s, step)
    ensures Orderly(cfg, ttl, Apply(env, cfg, s, step))
  {
    var s' := Apply(env, cfg, s, step);
    if step.Resume? {
      FillsStayFills(env, s, s.frames[step.id], step.input);
      assert forall i | i in s'.frames && i != step.id :: i in s.frames && s'.frames[i] == s.frames[i];
    } else if step.Arrive? {
      assert forall i | i in s'.frames && i != step.id :: i in s.frames && s'.frames[i] == s.frames[i];
    }
  }

  lemma {:induction false} AlwaysOrderly(env: Env, cfg: Config, expire: Option<nat>, start: Time, run: seq<Step>)
    ensures Orderly(cfg, Effective(cfg, expire), After(env, cfg, Start(expire, start), run))
  {
    if run != [] {
      var n := |run| - 1;
      AlwaysOrderly(env, cfg, expire, start, run[..n]);
      var mid := After(env, cfg, Start(expire, start), run[..n]);
      if Allowed(env, mid, run[n]) {
        StepKeepsOrderly(env, cfg, Effective(cfg, expire), mid, run[n]);
      }
    }
  }

  lemma RepliesSnoc(cfg: Config, p: Party, replies: seq<Reply>, r: Reply)
    ensures RepliesOf(cfg, p, replies + [r]) == RepliesOf(cfg, p, replies) + (if Mine(cfg, p, r.c) then [r] else [])
  {
    assert (replies + [r])[..|replies|] == replies;
  }

  /** A segment of the party reads nothing of the state but the party's entry and the settled expiry. */
  lemma SegmentReadsItsView(env: Env, cfg: Config, p: Party, ttl: nat, s: State, t: State, id: Id, input: Input)
    requires SameView(cfg, p, s, t) && Orderly(cfg, ttl, s) && Orderly(cfg, ttl, t)
    requires id in s.frames && Mine(cfg, p, s.frames[id].c) && Matches(s.frames[id].stage, s.now, input)
    ensures var f := s.frames[id];
            && id in t.frames && t.frames[id] == f && Advance(env, t, f, input) == Advance(env, s, f, input)
            && SameEntry(p, StoreAfter(s, f, input), StoreAfter(t, f, input))
  {
    var f := s.frames[id];
    assert id in t.frames && t.frames[id] == f;
    if MayFill(f) {
      assert s.expire == t.expire == Some(ttl);
      assert p == ForKey(f.c.key);
    } else {
      assert f.stage.Calling?;
    }
    hide RepliesOf, SameFrames;
  }

  lemma MineFrames(cfg: Config, p: Party, s: map<Id, Frame>, t: map<Id, Frame>, id: Id, f: Frame)
    requires SameFrames(cfg, p, s, t) && id in t && f.c == t[id].c
    ensures SameFrames(cfg, p, Without(s, id), Without(t, id)) && SameFrames(cfg, p, s[id := f], t[id := f])
  {
    hide Mine;
  }

  lemma OtherFrames(cfg: Config, p: Party, s: map<Id, Frame>, t: map<Id, Frame>, id: Id, f: Frame)
    requires SameFrames(cfg, p, s, t) && id in s && id !in t && f.c == s[id].c
    ensures SameFrames(cfg, p, Without(s, id), t) && SameFrames(cfg, p, s[id := f], t)
  {
    hide Mine;
  }

  lemma MineAdvances(env: Env, cfg: Config, p: Party, ttl: nat, s: State, t: State, id: Id, input: Input)
    requires SameView(cfg, p, s, t) && Orderly(cfg, ttl, s) && Orderly(cfg, ttl, t)
    requires id in s.frames && Mine(cfg, p, s.frames[id].c) && Matches(s.frames[id].stage, s.now, input)
    ensures Allowed(env, t, Resume(id, input))
    ensures SameView(cfg, p, ResumeIn(env, s, id, input), ResumeIn(env, t, id, input))
  {
    SegmentReadsItsView(env, cfg, p, ttl, s, t, id, input);
    var f := s.frames[id];
    var s', t' := ResumeIn(env, s, id, input), ResumeIn(env, t, id, input);
    var progress := Advance(env, s, f, input);
    MineFrames(cfg, p, s.frames, t.frames, id, if progress.Pending? then f.(stage := progress.stage) else f);
    hide Advance, StoreAfter, Mine, RepliesOf, Orderly, SameEntry, SameFrames, Matches;
    if s'.replies != s.replies {
      RepliesSnoc(cfg, p, s.replies, s'.replies[|s.replies|]);
    }
  }

  lemma OthersWriteElsewhere(cfg: Config, p: Party, ttl: nat, s: State, f: Frame, input: Input)
    requires !Mine(cfg, p, f.c) && Matches(f.stage, s.now, input) && (MayFill(f) ==> !Uncacheable(cfg, f.c))
    ensures SameEntry(p, StoreAfter(s, f, input), s.store)
  {
  }

  lemma OthersAdvance(env: Env, cfg: Config, p: Party, ttl: nat, s: State, t: State, id: Id, input: Input)
    requires SameView(cfg, p, s, t) && Orderly(cfg, ttl, s)
    requires id in s.frames && !Mine(cfg, p, s.frames[id].c) && Matches(s.frames[id].stage, s.now, input)
    ensures SameView(cfg, p, ResumeIn(env, s, id, input), t)
  {
    OthersWriteElsewhere(cfg, p, ttl, s, s.frames[id], input);
    var s' := ResumeIn(env, s, id, input);
    var f, progress := s.frames[id], Advance(env, s, s.frames[id], input);
    assert id !in t.frames;
    OtherFrames(cfg, p, s.frames, t.frames, id, if progress.Pending? then f.(stage := progress.stage) else f);
    hide Advance, StoreAfter, Mine, RepliesOf, Orderly, Matches, MayFill, SameFrames;
    assert SameEntry(p, s'.store, s.store);
    if s'.replies != s.replies {
      RepliesSnoc(cfg, p, s.replies, s'.replies[|s.replies|]);
    }
  }

  lemma ArriveKeepsView(env: Env, cfg: Config, p: Party, s: State, t: State, id: Id, c: Call)
    requires SameView(cfg, p, s, t) && id !in s.frames
    ensures Mine(cfg, p, c) ==> id !in t.frames && SameView(cfg, p, ArriveIn(cfg, s, id, c), ArriveIn(cfg, t, id, c))
    ensures !Mine(cfg, p, c) ==> SameView(cfg, p, ArriveIn(cfg, s, id, c), t)
  {
    hide RepliesOf, Mine, FirstStage;
  }

  lemma StoreStepKeepsView(env: Env, cfg: Config, p: Party, s: State, t: State, step: Step)
    requires SameView(cfg, p, s, t) && Allowed(env, s, step) && (step.Evict? || step.Corrupt? || step.Tick?)
    ensures Concerns(cfg, p, s, step) ==>
              Allowed(env, t, step) && SameView(cfg, p, Apply(env, cfg, s, step), Apply(env, cfg, t, step))
    ensures !Concerns(cfg, p, s, step) ==> SameView(cfg, p, Apply(env, cfg, s, step), t)
  {
    hide RepliesOf, Mine;
  }

  lemma StepKeepsView(env: Env, cfg: Config, p: Party, ttl: nat, s: State, t: State, step: Step)
    requires SameView(cfg, p, s, t) && Orderly(cfg, ttl, s) && Orderly(cfg, ttl, t) && Allowed(env, s, step)
    ensures Concerns(cfg, p, s, step) ==>
              Allowed(env, t, step) && SameView(cfg, p, Apply(env, cfg, s, step), Apply(env, cfg, t, step))
    ensures !Concerns(cfg, p, s, step) ==> SameView(cfg, p, Apply(env, cfg, s, step), t)
  {
    hide ResumeIn, ArriveIn, SameView, Orderly, Mine;
    match step {
      case Arrive(id, c) =>
        ArriveKeepsView(env, cfg, p, s, t, id, c);
      case Resume(id, input) =>
        if Mine(cfg, p, s.frames[id].c) {
          MineAdvances(env, cfg, p, ttl, s, t, id, input);
        } else {
          OthersAdvance(env, cfg, p, ttl, s, t, id, input);
        }
      case _ =>
        StoreStepKeepsView(env, cfg, p, s, t, step);
    }
  }

  /** Bypassed requests alone leave the store and the captured expiry as they were. */
  lemma BypassedWriteNothing(env: Env, cfg: Config, ttl: nat, s: State, step: Step)
    requires Orderly(cfg, ttl, s) && Allowed(env, s, step) && Concerns(cfg, Bypassed, s, step)
    ensures Apply(env, cfg, s, step).store == s.store && Apply(env, cfg, s, step).expire == s.expire
  {
  }

  lemma ConcernsKept(cfg: Config, s: State, t: State, step: Step)
    requires SameView(cfg, Bypassed, s, t) && Concerns(cfg, Bypassed, s, step)
    ensures Concerns(cfg, Bypassed, t, step)
  {
  }

  /** One more step of the schedule, and of what is left of it. */
  lemma PartyStep(env: Env, cfg: Config, p: Party, ttl: nat, s0: State, mid: State, kept: seq<Step>, step: Step)
    requires var t := After(env, cfg, s0, kept);
             SameView(cfg, p, mid, t) && Orderly(cfg, ttl, mid) && Orderly(cfg, ttl, t)
    ensures var next := if Allowed(env, mid, step) then Apply(env, cfg, mid, step) else mid;
            var kept' := kept + (if Allowed(env, mid, step) && Concerns(cfg, p, mid, step) then [step] else []);
            var t, t' := After(env, cfg, s0, kept), After(env, cfg, s0, kept');
            SameView(cfg, p, next, t') && (p.Bypassed? ==> t'.store == t.store && t'.expire == t.expire)
  {
    var t := After(env, cfg, s0, kept);
    hide SameView, Orderly, Apply, Allowed, Concerns, After;
    assert kept + [] == kept;
    if Allowed(env, mid, step) {
      StepKeepsView(env, cfg, p, ttl, mid, t, step);
      if Concerns(cfg, p, mid, step) {
        OneMore(env, cfg, s0, kept, step);
        if p.Bypassed? {
          ConcernsKept(cfg, mid, t, step);
          BypassedWriteNothing(env, cfg, ttl, t, step);
        }
      }
    }
  }

  /**
   Bypassed requests, and the cacheable requests for each key, are parties that do not notice each
   other: leave out of any schedule everything that does not concern one of them, and its replies,
   its requests in flight and its entry are the same. Bypassed requests alone write nothing.
   */
  lemma {:induction false} PartiesAreIndependent(
    env: Env, cfg: Config, p: Party, expire: Option<nat>, start: Time, run: seq<Step>)
    ensures var s0 := Start(expire, start);
            var t := After(env, cfg, s0, Project(env, cfg, p, s0, run));
            && SameView(cfg, p, After(env, cfg, s0, run), t)
            && (p.Bypassed? ==> t.store == map[] && t.expire == expire)
  {
    var s0 := Start(expire, start);
    if run == [] {
      assert SameView(cfg, p, s0, s0);
    } else {
      var n := |run| - 1;
      PartiesAreIndependent(env, cfg, p, expire, start, run[..n]);
      var mid, kept := After(env, cfg, s0, run[..n]), Project(env, cfg, p, s0, run[..n]);
      AlwaysOrderly(env, cfg, expire, start, run[..n]);
      AlwaysOrderly(env, cfg, expire, start, kept);
      PartyStep(env, cfg, p, Effective(cfg, expire), s0, mid, kept, run[n]);
      assert After(env, cfg, s0, run) == if Allowed(env, mid, run[n]) then Apply(env, cfg, mid, run[n]) else mid;
      hide SameView, Orderly, Apply, Allowed, Concerns;
    }
  }

  // ---------------------------------------------------------------- when the endpoint runs

  function Rank(stage: Stage): nat {
    match stage
    case Getting => 3
    case Expiring(_, _) => 2
    case Calling(_, _, _) => 1
    case Setting(_, _, _, _) => 0
  }

  /**
   A request only moves on, so it is answered after at most four segments and calls the endpoint at
   most once: at once when it is bypassed, after a failed or empty `get`, or after `expires_in` when
   that failed, for `no-cache`, or for a damaged entry that its tag does not revalidate.
   */
  lemma CalledExactlyWhen(env: Env, cfg: Config, s: State, f: Frame, input: Input)
    requires Matches(f.stage, s.now, input)
    ensures FirstStage(cfg, f.c, s.now).Calling? <==> Uncacheable(cfg, f.c)
    ensures var p := Advance(env, s, f, input);
            && (p.Pending? ==> Rank(p.stage) < Rank(f.stage))
            && (p.Pending? && p.stage.Calling? <==>
                  || (f.stage.Getting? && (input.fails || !Live(s.store, f.c.key, s.now)))
                  || (f.stage.Expiring? && (input.fails || ForcesRefresh(f.c)
                        || (env.decode(f.stage.entry.bytes).None? && !Revalidates(f.c, env.tag(f.stage.entry.bytes))))))
  {
  }

  predicate InCall(f: Frame) {
    f.stage.Calling? || f.stage.Setting?
  }

  function CallsInFlight(frames: map<Id, Frame>): set<Id> {
    set id | id in frames && InCall(frames[id])
  }

  function CallReplies(replies: seq<Reply>): nat {
    if replies == [] then 0
    else CallReplies(replies[..|replies| - 1]) + (if replies[|replies| - 1].source.FromCall? then 1 else 0)
  }

  lemma CallRepliesSnoc(replies: seq<Reply>, r: Reply)
    ensures CallReplies(replies + [r]) == CallReplies(replies) + (if r.source.FromCall? then 1 else 0)
  {
    assert (replies + [r])[..|replies|] == replies;
  }

  lemma PutInFlight(frames: map<Id, Frame>, id: Id, f: Frame)
    ensures var before := CallsInFlight(frames) - {id};
            && CallsInFlight(frames[id := f]) == (if InCall(f) then before + {id} else before)
            && CallsInFlight(Without(frames, id)) == before
            && |CallsInFlight(frames)| == |before| + (if id in CallsInFlight(frames) then 1 else 0)
            && |CallsInFlight(frames[id := f])| == |before| + (if InCall(f) then 1 else 0)
  {
    var before := CallsInFlight(frames) - {id};
    hide InCall;
    assert CallsInFlight(frames[id := f]) == (if InCall(f) then before + {id} else before);
    assert CallsInFlight(frames) == (if id in CallsInFlight(frames) then before + {id} else before);
  }

  ghost predicate CallsAccounted(s: State) {
    s.calls == CallReplies(s.replies) + |CallsInFlight(s.frames)|
  }

  /** Which segments start a call, and which end one with a reply. */
  lemma SegmentCalls(env: Env, s: State, f: Frame, input: Input)
    requires Matches(f.stage, s.now, input)
    ensures var p := Advance(env, s, f, input);
            && (p.Pending? ==> (InCall(f.(stage := p.stage)) <==> InCall(f) || p.stage.Calling?)
                               && !(InCall(f) && p.stage.Calling?))
            && (p.Replied? ==> (p.source.FromCall? <==> InCall(f)))
  {
  }

  lemma ResumeKeepsCalls(env: Env, s: State, id: Id, input: Input)
    requires CallsAccounted(s) && id in s.frames && Matches(s.frames[id].stage, s.now, input)
    ensures CallsAccounted(ResumeIn(env, s, id, input))
  {
    var f := s.frames[id];
    SegmentCalls(env, s, f, input);
    assert id in CallsInFlight(s.frames) <==> InCall(f);
    match Advance(env, s, f, input) {
      case Pending(stage) =>
        PutInFlight(s.frames, id, f.(stage := stage));
        hide Advance, StoreAfter, InCall, CallsInFlight, CallReplies, Matches;
      case Replied(body, headers, source) =>
        PutInFlight(s.frames, id, f);
        CallRepliesSnoc(s.replies, Reply(f.c, f.arrivedAt, s.now, body, headers, source));
        hide Advance, StoreAfter, InCall, CallsInFlight, CallReplies, Matches;
    }
  }

  /** Every call of the endpoint is accounted for: it answers one request, or is still in flight. */
  lemma {:induction false} EndpointCallsAreAccounted(env: Env, cfg: Config, expire: Option<nat>, start: Time, run: seq<Step>)
    ensures var s := After(env, cfg, Start(expire, start), run);
            s.calls == CallReplies(s.replies) + |CallsInFlight(s.frames)|
  {
    if run != [] {
      var n := |run| - 1;
      EndpointCallsAreAccounted(env, cfg, expire, start, run[..n]);
      var mid := After(env, cfg, Start(expire, start), run[..n]);
      if Allowed(env, mid, run[n]) {
        match run[n] {
          case Arrive(id, c) =>
            PutInFlight(mid.frames, id, Frame(c, mid.now, FirstStage(cfg, c, mid.now)));
          case Resume(id, input) =>
            ResumeKeepsCalls(env, mid, id, input);
          case _ =>
        }
        hide ResumeIn, CallReplies, CallsInFlight;
      }
    }
  }

  // ---------------------------------------------------------------- what is stored

  ghost predicate OnlyAsks(run: seq<Step>, c: Call) {
    forall step | step in run :: step.Arrive? ==> step.c == c
  }

  /** A cache that is off, a method other than GET, or the single word `no-store`. */
  predicate StaysOut(cfg: Config, c: Call) {
    || !cfg.enabled
    || (c.request.Some? && c.request.value.httpMethod != "GET")
    || (c.request.Some? && c.request.value.cacheControl == Some("no-store"))
  }

  ghost predicate OnlyStaysOut(cfg: Config, run: seq<Step>) {
    forall step | step in run :: step.Arrive? ==> StaysOut(cfg, step.c)
  }

  /** Runs of nothing but such requests leave the store empty. */
  lemma {:induction false} StayingOutStoresNothing(env: Env, cfg: Config, expire: Option<nat>, start: Time, run: seq<Step>)
    requires OnlyStaysOut(cfg, run)
    ensures var s := After(env, cfg, Start(expire, start), run);
            s.store == map[] && s.expire == expire && forall id | id in s.frames :: StaysOut(cfg, s.frames[id].c)
  {
    if run != [] {
      var n := |run| - 1;
      assert run[n] in run && forall step | step in run[..n] :: step in run;
      StayingOutStoresNothing(env, cfg, expire, start, run[..n]);
      var mid, step := After(env, cfg, Start(expire, start), run[..n]), run[n];
      AlwaysOrderly(env, cfg, expire, start, run[..n]);
      if Allowed(env, mid, step) {
        if step.Resume? {
          BypassedSegment(env, cfg, mid, step.id, step.input);
        }
        hide ResumeIn;
      }
    }
  }

  lemma BypassedSegment(env: Env, cfg: Config, s: State, id: Id, input: Input)
    requires id in s.frames && Matches(s.frames[id].stage, s.now, input) && !MayFill(s.frames[id])
    ensures var s' := ResumeIn(env, s, id, input);
            && s'.store == s.store && s'.expire == s.expire
            && forall i | i in s'.frames :: i in s.frames && s'.frames[i].c == s.frames[i].c
  {
  }

  /** What staying out means for the requests in flight and the replies. */
  ghost predicate OutsiderFrame(f: Frame) {
    f.stage.Calling? && !f.stage.fill && f.stage.headers == None
  }

  ghost predicate OutsiderReply(r: Reply) {
    r.source.FromCall? && r.source.stored == None && r.headers == None
  }

  ghost predicate OutsidersApart(cfg: Config, s: State) {
    && (forall id | id in s.frames && StaysOut(cfg, s.frames[id].c) :: OutsiderFrame(s.frames[id]))
    && (forall r | r in s.replies && StaysOut(cfg, r.c) :: OutsiderReply(r))
  }

  lemma OutsiderStep(env: Env, cfg: Config, s: State, step: Step)
    requires OutsidersApart(cfg, s) && Allowed(env, s, step)
    ensures OutsidersApart(cfg, Apply(env, cfg, s, step))
  {
    var s' := Apply(env, cfg, s, step);
    if step.Resume? {
      assert forall i | i in s'.frames && i != step.id :: i in s.frames && s'.frames[i] == s.frames[i];
    } else if step.Arrive? {
      assert forall i | i in s'.frames && i != step.id :: i in s.frames && s'.frames[i] == s.frames[i];
    }
  }

  lemma {:induction false} OutsidersStayApart(env: Env, cfg: Config, expire: Option<nat>, start: Time, run: seq<Step>)
    ensures OutsidersApart(cfg, After(env, cfg, Start(expire, start), run))
  {
    if run != [] {
      var n := |run| - 1;
      OutsidersStayApart(env, cfg, expire, start, run[..n]);
      var mid := After(env, cfg, Start(expire, start), run[..n]);
      if Allowed(env, mid, run[n]) {
        OutsiderStep(env, cfg, mid, run[n]);
      }
      hide OutsidersApart, Apply, Allowed;
    }
  }

  /**
   With the cache off, for methods other than GET and for the single word `no-store`, every reply of
   every schedule is computed by the request's own call, is offered to no store and has no headers.
   */
  lemma OutsidersAreComputed(env: Env, cfg: Config, expire: Option<nat>, start: Time, run: seq<Step>, r: Reply)
    requires CodecRoundTrips(env) && r in After(env, cfg, Start(expire, start), run).replies && StaysOut(cfg, r.c)
    ensures r.source.FromCall? && r.source.stored == None && r.headers == None
    ensures r.body == AnswerOf(env.endpoint(r.c.key, r.source.readAt))
    ensures r.arrivedAt <= r.source.startedAt <= r.source.readAt <= r.at
  {
    OutsidersStayApart(env, cfg, expire, start, run);
    AnswersAreFresh(env, cfg, expire, start, run, r);
  }

  /** Some schedule stores the answer of a request exactly when it does not stay out. */
  lemma StoredExactlyWhen(env: Env, cfg: Config, expire: Option<nat>, start: Time, c: Call)
    requires Storable(env, c.key, start)
    ensures (exists run :: OnlyAsks(run, c) && c.key in After(env, cfg, Start(expire, start), run).store) <==> !StaysOut(cfg, c)
  {
    if StaysOut(cfg, c) {
      forall run | OnlyAsks(run, c) ensures c.key !in After(env, cfg, Start(expire, start), run).store {
        StayingOutStoresNothing(env, cfg, expire, start, run);
      }
    } else {
      MissFills(env, cfg, expire, start, c, 0);
      assert OnlyAsks(MissRun(0, c, 0, start), c);
    }
  }

  /**
   `no-store` is honoured exactly when it is the whole header value: GET requests with any other
   value, also a directive list that contains it (which section 5.2.1.5 of RFC 9111 forbids to
   store), can have their answer stored.
   */
  lemma NoStoreIsHonouredOnlyAlone(env: Env, cfg: Config, expire: Option<nat>, start: Time, c: Call, directives: string)
    requires cfg.enabled && c.request.Some? && c.request.value.httpMethod == "GET"
    requires c.request.value.cacheControl == Some(directives) && Storable(env, c.key, start)
    ensures (exists run :: OnlyAsks(run, c) && c.key in After(env, cfg, Start(expire, start), run).store)
            <==> directives != "no-store"
  {
    if directives == "no-store" {
      forall run | OnlyAsks(run, c) ensures c.key !in After(env, cfg, Start(expire, start), run).store {
        StayingOutStoresNothing(env, cfg, expire, start, run);
      }
    } else {
      MissFills(env, cfg, expire, start, c, 0);
      assert OnlyAsks(MissRun(0, c, 0, start), c);
    }
  }

  /**
   `no-cache` too is honoured exactly when it is the whole header value (`no-store` apart): with any
   other value, also a directive list that contains it (which section 5.2.1.4 of RFC 9111 forbids to
   answer unvalidated), some schedule answers the request from the store.
   */
  lemma NoCacheIsHonouredOnlyAlone(env: Env, cfg: Config, expire: Option<nat>, start: Time, c: Call, directives: string)
    requires CodecRoundTrips(env) && cfg.enabled && c.request.Some? && c.request.value.httpMethod == "GET"
    requires c.request.value.cacheControl == Some(directives) && Storable(env, c.key, start) && Effective(cfg, expire) > 0
    ensures (exists run: seq<Step>, r: Reply ::
               r in After(env, cfg, Start(expire, start), run).replies && r.c == c && r.source.FromStore?)
            <==> directives != "no-cache" && directives != "no-store"
  {
    if directives == "no-cache" || directives == "no-store" {
      forall run: seq<Step>, r: Reply | r in After(env, cfg, Start(expire, start), run).replies && r.c == c
        ensures r.source.FromCall?
      {
        AnswersAreFresh(env, cfg, expire, start, run, r);
      }
    } else {
      var run, r := AgeBoundIsReached(env, cfg, expire, start, c, 0);
      assert r in After(env, cfg, Start(expire, start), run).replies && r.c == c && r.source.FromStore?;
    }
  }

  // ---------------------------------------------------------------- what the headers tell

  ghost predicate HeadersInRange(h: Option<Headers>, ttl: nat) {
    h.Some? ==> (if h.value.hit then 0 < h.value.maxAge <= ttl else h.value.maxAge == ttl)
  }

  ghost predicate AllInRange(s: State, ttl: nat) {
    && (forall id | id in s.frames && s.frames[id].stage.Calling? :: HeadersInRange(s.frames[id].stage.headers, ttl))
    && (forall r | r in s.replies :: HeadersInRange(r.headers, ttl))
  }

  /** A hit advertises what remains to live of the entry now stored, or the whole TTL if that is gone. */
  lemma RemainingIsInRange(env: Env, cfg: Config, ttl: nat, s: State, k: Key)
    requires GoodStore(env, ttl, s.store, s.now) && s.expire == Some(ttl) && ttl > 0
    ensures 0 < RemainingTtl(s, k) <= ttl
    ensures k in s.store && s.now < s.store[k].storedAt + ttl ==> s.now + RemainingTtl(s, k) == s.store[k].storedAt + ttl
    ensures !(k in s.store && s.now < s.store[k].storedAt + ttl) ==> RemainingTtl(s, k) == ttl
  {
    if k in s.store {
      assert GoodEntry(env, ttl, k, s.store[k], s.now);
    }
  }

  lemma SegmentStaysInRange(env: Env, cfg: Config, ttl: nat, s: State, f: Frame, input: Input)
    requires GoodStore(env, ttl, s.store, s.now) && GoodFrame(env, cfg, ttl, f, s.now) && Matches(f.stage, s.now, input)
    requires (MayFill(f) ==> s.expire == Some(ttl)) && (f.stage.Calling? ==> HeadersInRange(f.stage.headers, ttl))
    ensures match Advance(env, s, f, input)
            case Pending(stage) => stage.Calling? ==> HeadersInRange(stage.headers, ttl)
            case Replied(_, headers, _) => HeadersInRange(headers, ttl)
  {
    if f.stage.Expiring? {
      RemainingIsInRange(env, cfg, ttl, s, f.c.key);
    }
  }

  lemma ResumeStaysInRange(env: Env, cfg: Config, ttl: nat, s: State, id: Id, input: Input)
    requires Inv(env, cfg, ttl, s) && AllInRange(s, ttl) && id in s.frames && Matches(s.frames[id].stage, s.now, input)
    ensures AllInRange(ResumeIn(env, s, id, input), ttl)
  {
    var f, s' := s.frames[id], ResumeIn(env, s, id, input);
    assert GoodFrame(env, cfg, ttl, f, s.now);
    SegmentStaysInRange(env, cfg, ttl, s, f, input);
    hide Inv, Advance, StoreAfter, HeadersInRange;
    assert forall i | i in s'.frames && i != id :: i in s.frames && s'.frames[i] == s.frames[i];
  }

  /**
   Replies made by a miss advertise the TTL of the endpoint, hits at least one second and at most the
   TTL, in every schedule.
   */
  lemma {:induction false} AdvertisedLife(env: Env, cfg: Config, expire: Option<nat>, start: Time, run: seq<Step>)
    requires CodecRoundTrips(env)
    ensures AllInRange(After(env, cfg, Start(expire, start), run), TtlOfEndpoint(cfg, expire))
  {
    if run != [] {
      var n, ttl := |run| - 1, Effective(cfg, expire);
      AdvertisedLife(env, cfg, expire, start, run[..n]);
      RunKeepsInv(env, cfg, expire, start, run[..n]);
      var mid, step := After(env, cfg, Start(expire, start), run[..n]), run[n];
      hide Inv, HeadersInRange;
      if Allowed(env, mid, step) {
        match step {
          case Resume(id, input) => ResumeStaysInRange(env, cfg, ttl, mid, id, input);
          case Arrive(id, c) =>
            var s' := Apply(env, cfg, mid, step);
            assert forall i | i in s'.frames && i != id :: i in mid.frames && s'.frames[i] == mid.frames[i];
            NoHeadersInRange(ttl);
          case _ =>
        }
        hide ResumeIn;
      }
    }
  }

  lemma NoHeadersInRange(ttl: nat)
    ensures HeadersInRange(None, ttl)
  {
  }

  // ---------------------------------------------------------------- damage

  /** A damaged entry, and no request that would replace it. */
  ghost predicate DamagedAndLeft(env: Env, s: State, k: Key, e: Entry) {
    && k in s.store && s.store[k] == e && env.decode(e.bytes).None? && s.now < e.storedAt + e.ttl
    && forall id | id in s.frames && s.frames[id].c.key == k && MayFill(s.frames[id]) ::
         !ForcesRefresh(s.frames[id].c)
         && (s.frames[id].stage.Getting? || (s.frames[id].stage.Expiring? && s.frames[id].stage.entry == e))
  }

  /** Nobody asks for a refresh of the key, its lookups work, and the entry is left alone and live. */
  ghost predicate Harmless(cfg: Config, s: State, k: Key, e: Entry, step: Step) {
    match step
    case Arrive(_, c) => c.key == k ==> Uncacheable(cfg, c) || !ForcesRefresh(c)
    case Resume(id, input) =>
      id in s.frames && s.frames[id].c.key == k ==> (input.Got? || input.Remaining? ==> !input.fails)
    case Evict(x) => x != k
    case Corrupt(x, _) => x != k
    case Tick(d) => s.now + d < e.storedAt + e.ttl
  }

  ghost predicate HarmlessRun(env: Env, cfg: Config, s: State, k: Key, e: Entry, run: seq<Step>) {
    run != [] ==> && HarmlessRun(env, cfg, s, k, e, run[..|run| - 1])
                  && Harmless(cfg, After(env, cfg, s, run[..|run| - 1]), k, e, run[|run| - 1])
  }

  /** The reply goes around the store: a call whose answer is not stored, or a 304 for the damaged bytes. */
  ghost predicate GoesAround(env: Env, e: Entry, r: Reply) {
    match r.source
    case FromCall(stored, _, _) => stored.None?
    case FromStore(_, _) => r.body == NotModified(env.tag(e.bytes))
  }

  lemma ResumeLeavesDamage(env: Env, cfg: Config, s: State, k: Key, e: Entry, id: Id, input: Input)
    requires DamagedAndLeft(env, s, k, e) && id in s.frames && Matches(s.frames[id].stage, s.now, input)
    requires Harmless(cfg, s, k, e, Resume(id, input))
    ensures var s' := ResumeIn(env, s, id, input);
            && DamagedAndLeft(env, s', k, e) && |s'.replies| <= |s.replies| + 1 && s.replies <= s'.replies
            && (s'.replies != s.replies && s'.replies[|s.replies|].c.key == k ==> GoesAround(env, e, s'.replies[|s.replies|]))
  {
    var s' := ResumeIn(env, s, id, input);
    assert forall i | i in s'.frames && i != id :: i in s.frames && s'.frames[i] == s.frames[i];
  }

  lemma StepLeavesDamage(env: Env, cfg: Config, s: State, k: Key, e: Entry, step: Step)
    requires DamagedAndLeft(env, s, k, e) && Allowed(env, s, step) && Harmless(cfg, s, k, e, step)
    ensures var s' := Apply(env, cfg, s, step);
            && DamagedAndLeft(env, s', k, e) && |s'.replies| <= |s.replies| + 1 && s.replies <= s'.replies
            && (s'.replies != s.replies && s'.replies[|s.replies|].c.key == k ==> GoesAround(env, e, s'.replies[|s.replies|]))
  {
    if step.Resume? {
      ResumeLeavesDamage(env, cfg, s, k, e, step.id, step.input);
      hide ResumeIn;
    }
  }

  /** A damaged entry is not repaired: as long as it lives, plain requests go around it and leave it there. */
  lemma {:induction false} DamageStays(env: Env, cfg: Config, s: State, k: Key, e: Entry, run: seq<Step>)
    requires DamagedAndLeft(env, s, k, e) && HarmlessRun(env, cfg, s, k, e, run)
    ensures var s' := After(env, cfg, s, run);
            && DamagedAndLeft(env, s', k, e) && s.replies <= s'.replies
            && forall r | r in s'.replies[|s.replies|..] :: r.c.key == k ==> GoesAround(env, e, r)
  {
    if run != [] {
      var n := |run| - 1;
      DamageStays(env, cfg, s, k, e, run[..n]);
      var mid := After(env, cfg, s, run[..n]);
      if Allowed(env, mid, run[n]) {
        StepLeavesDamage(env, cfg, mid, k, e, run[n]);
        hide DamagedAndLeft, GoesAround, Apply, Harmless, HarmlessRun;
      }
    }
  }
}
