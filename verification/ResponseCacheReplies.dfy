/**
 What the replies of the response cache tell their clients, and which calls fill the store: for every
 schedule, as the laws of `ResponseCacheLaws`.
 */
module ResponseCacheReplies {
  import opened Common
  import opened ResponseCache
  import opened ResponseCacheLaws

  // ---------------------------------------------------------------- headers and revalidation

  /** Setting headers on the response never raises in the run. */
  ghost predicate HeadersWork(run: seq<Step>) {
    forall step | step in run :: HeadersWorkIn(step)
  }

  predicate HeadersWorkIn(step: Step) {
    step.Resume? ==> !(step.input.Remaining? && step.input.headersFail) && !(step.input.WasSet? && step.input.headersFail)
  }

  /** Headers that a segment had to set if it could. */
  ghost predicate MustHave(c: Call, h: Option<Headers>, works: bool) {
    (h.Some? ==> c.hasResponse) && (works && c.hasResponse ==> h.Some?)
  }

  ghost predicate Names(h: Option<Headers>, etag: string, hit: bool) {
    h.Some? ==> h.value.etag == etag && h.value.hit == hit
  }

  ghost predicate TellingFrame(env: Env, cfg: Config, f: Frame, works: bool) {
    match f.stage
    case Calling(fill, headers, _) =>
      && (fill || StaysOut(cfg, f.c) ==> headers == None) && (fill ==> !StaysOut(cfg, f.c))
      && (!fill && !StaysOut(cfg, f.c) ==> MustHave(f.c, headers, works) && (headers.Some? ==> headers.value.hit))
    case Setting(v, b, _, _) => env.encode(v) == Some(b) && !StaysOut(cfg, f.c)
    case _ => !StaysOut(cfg, f.c)
  }

  /** The answer has a form that the cache can store. */
  ghost predicate CanBeStored(env: Env, r: Reply) {
    r.body.Returned? && env.encode(r.body.v).Some?
  }

  ghost predicate TellingReply(env: Env, cfg: Config, r: Reply, works: bool) {
    && (r.headers.Some? ==> r.c.hasResponse && !StaysOut(cfg, r.c))
    && match r.source
       case FromStore(e, _) =>
         && MustHave(r.c, r.headers, works) && Names(r.headers, env.tag(e.bytes), true) && !StaysOut(cfg, r.c)
         && (r.c.hasResponse && r.c.request.Some? && r.c.request.value.ifNoneMatch == Some(env.tag(e.bytes)) ==>
               r.body == NotModified(env.tag(e.bytes)))
         && (!(r.c.hasResponse && r.c.request.Some? && r.c.request.value.ifNoneMatch == Some(env.tag(e.bytes))) ==>
               r.body.Returned? && env.decode(e.bytes) == Some(r.body.v))
       case FromCall(Some(b), _, _) =>
         && MustHave(r.c, r.headers, works) && Names(r.headers, env.tag(b), false) && !StaysOut(cfg, r.c)
         && r.body.Returned? && env.encode(r.body.v) == Some(b)
       case FromCall(None, _, _) =>
         && !r.body.NotModified? && (r.headers.Some? ==> r.headers.value.hit)
         && (CanBeStored(env, r) && !StaysOut(cfg, r.c) ==> MustHave(r.c, r.headers, works))
  }

  ghost predicate Telling(env: Env, cfg: Config, s: State, works: bool) {
    && (forall id | id in s.frames :: TellingFrame(env, cfg, s.frames[id], works))
    && (forall r | r in s.replies :: TellingReply(env, cfg, r, works))
  }

  lemma SegmentTells(env: Env, cfg: Config, s: State, f: Frame, input: Input, works: bool)
    requires TellingFrame(env, cfg, f, works) && Matches(f.stage, s.now, input)
    requires works ==> !(input.Remaining? && input.headersFail) && !(input.WasSet? && input.headersFail)
    ensures match Advance(env, s, f, input)
            case Pending(stage) => TellingFrame(env, cfg, f.(stage := stage), works)
            case Replied(body, headers, source) =>
              TellingReply(env, cfg, Reply(f.c, f.arrivedAt, s.now, body, headers, source), works)
  {
    hide RemainingTtl, TtlOf, Live, StaysOut;
  }

  lemma StepTells(env: Env, cfg: Config, s: State, step: Step, works: bool)
    requires Telling(env, cfg, s, works) && Allowed(env, s, step) && (works ==> HeadersWorkIn(step))
    ensures Telling(env, cfg, Apply(env, cfg, s, step), works)
  {
    var s' := Apply(env, cfg, s, step);
    match step {
      case Resume(id, input) =>
        SegmentTells(env, cfg, s, s.frames[id], input, works);
        hide Advance, StoreAfter, TellingFrame, TellingReply;
        assert forall i | i in s'.frames && i != id :: i in s.frames && s'.frames[i] == s.frames[i];
      case Arrive(id, c) =>
        assert TellingFrame(env, cfg, s'.frames[id], works);
        hide TellingFrame, TellingReply;
        assert forall i | i in s'.frames && i != id :: i in s.frames && s'.frames[i] == s.frames[i];
      case _ =>
        hide TellingFrame, TellingReply;
    }
  }

  lemma {:induction false} RunTells(env: Env, cfg: Config, expire: Option<nat>, start: Time, run: seq<Step>, works: bool)
    requires works ==> HeadersWork(run)
    ensures Telling(env, cfg, After(env, cfg, Start(expire, start), run), works)
  {
    hide Telling, Apply, Allowed, HeadersWorkIn;
    if run == [] {
      StartTells(env, cfg, expire, start, works);
    } else {
      var n := |run| - 1;
      assert run[n] in run && forall step | step in run[..n] :: step in run;
      RunTells(env, cfg, expire, start, run[..n], works);
      var mid := After(env, cfg, Start(expire, start), run[..n]);
      if Allowed(env, mid, run[n]) {
        StepTells(env, cfg, mid, run[n], works);
      }
    }
  }

  lemma StartTells(env: Env, cfg: Config, expire: Option<nat>, start: Time, works: bool)
    ensures Telling(env, cfg, Start(expire, start), works)
  {
  }

  /**
   Where setting headers works, a reply from the store or with an answer that can be stored carries
   them exactly when a response was injected and the request does not stay out.
   */
  lemma HeadersExactlyWhen(env: Env, cfg: Config, expire: Option<nat>, start: Time, run: seq<Step>, r: Reply)
    requires HeadersWork(run) && r in After(env, cfg, Start(expire, start), run).replies
    requires r.source.FromStore? || CanBeStored(env, r)
    ensures r.headers.Some? <==> r.c.hasResponse && !StaysOut(cfg, r.c)
  {
    RunTells(env, cfg, expire, start, run, true);
    assert TellingReply(env, cfg, r, true);
    hide After;
  }

  /** In every schedule headers call exactly the fills a miss, and name the bytes stored or answered from. */
  lemma HeadersAreTrue(env: Env, cfg: Config, expire: Option<nat>, start: Time, run: seq<Step>, r: Reply)
    requires r in After(env, cfg, Start(expire, start), run).replies && r.headers.Some?
    ensures r.c.hasResponse && !StaysOut(cfg, r.c)
    ensures r.headers.value.hit <==> !(r.source.FromCall? && r.source.stored.Some?)
    ensures NamedBytes(r).Some? ==> r.headers.value.etag == env.tag(NamedBytes(r).value)
  {
    RunTells(env, cfg, expire, start, run, false);
    assert TellingReply(env, cfg, r, false);
    hide After;
  }

  /**
   In every schedule a 304 goes out exactly to requests answered from the store that had a response
   injected and sent the tag of the very bytes found there; other hits get those bytes decoded.
   */
  lemma {:induction false} RevalidatedExactlyWhen(env: Env, cfg: Config, expire: Option<nat>, start: Time, run: seq<Step>, r: Reply)
    requires r in After(env, cfg, Start(expire, start), run).replies
    ensures r.body.NotModified? <==>
              && r.source.FromStore? && r.c.hasResponse && r.c.request.Some?
              && r.c.request.value.ifNoneMatch == Some(env.tag(r.source.entry.bytes))
    ensures r.source.FromStore? ==>
              if r.body.NotModified? then r.body.etag == env.tag(r.source.entry.bytes)
              else r.body.Returned? && env.decode(r.source.entry.bytes) == Some(r.body.v)
  {
    RunTells(env, cfg, expire, start, run, false);
    assert TellingReply(env, cfg, r, false);
    hide After;
  }

  // ---------------------------------------------------------------- which calls fill

  ghost predicate NothingCorrupts(run: seq<Step>) {
    forall step | step in run :: !step.Corrupt?
  }

  ghost predicate CleanFrame(env: Env, cfg: Config, f: Frame) {
    match f.stage
    case Expiring(e, _) => env.decode(e.bytes).Some?
    case Calling(fill, _, _) => fill || StaysOut(cfg, f.c)
    case Setting(_, b, _, _) => env.decode(b).Some?
    case Getting => true
  }

  ghost predicate CleanReply(env: Env, cfg: Config, r: Reply) {
    r.source.FromCall? && CanBeStored(env, r) && !StaysOut(cfg, r.c) ==> r.source.stored == env.encode(r.body.v)
  }

  ghost predicate Clean(env: Env, cfg: Config, s: State) {
    && (forall k | k in s.store :: env.decode(s.store[k].bytes).Some?)
    && (forall id | id in s.frames :: CleanFrame(env, cfg, s.frames[id]) && TellingFrame(env, cfg, s.frames[id], false))
    && (forall r | r in s.replies :: CleanReply(env, cfg, r))
  }

  lemma SegmentIsClean(env: Env, cfg: Config, s: State, f: Frame, input: Input)
    requires CodecRoundTrips(env) && CleanFrame(env, cfg, f) && TellingFrame(env, cfg, f, false)
    requires Matches(f.stage, s.now, input) && forall k | k in s.store :: env.decode(s.store[k].bytes).Some?
    ensures match Advance(env, s, f, input)
            case Pending(stage) => CleanFrame(env, cfg, f.(stage := stage))
            case Replied(body, headers, source) => CleanReply(env, cfg, Reply(f.c, f.arrivedAt, s.now, body, headers, source))
    ensures forall k | k in StoreAfter(s, f, input) :: env.decode(StoreAfter(s, f, input)[k].bytes).Some?
  {
    hide RemainingTtl, TtlOf, StaysOut;
  }

  lemma StepIsClean(env: Env, cfg: Config, s: State, step: Step)
    requires CodecRoundTrips(env) && Clean(env, cfg, s) && Allowed(env, s, step) && !step.Corrupt?
    ensures Clean(env, cfg, Apply(env, cfg, s, step))
  {
    var s' := Apply(env, cfg, s, step);
    match step {
      case Resume(id, input) =>
        SegmentIsClean(env, cfg, s, s.frames[id], input);
        SegmentTells(env, cfg, s, s.frames[id], input, false);
        hide Advance, StoreAfter, TellingFrame, CleanFrame, CleanReply;
        assert forall i | i in s'.frames && i != id :: i in s.frames && s'.frames[i] == s.frames[i];
      case Arrive(id, c) =>
        assert TellingFrame(env, cfg, s'.frames[id], false) && CleanFrame(env, cfg, s'.frames[id]);
        hide TellingFrame, CleanFrame, CleanReply;
        assert forall i | i in s'.frames && i != id :: i in s.frames && s'.frames[i] == s.frames[i];
      case _ =>
        hide TellingFrame, CleanFrame, CleanReply;
    }
  }

  lemma {:induction false} RunIsClean(env: Env, cfg: Config, expire: Option<nat>, start: Time, run: seq<Step>)
    requires CodecRoundTrips(env) && NothingCorrupts(run)
    ensures Clean(env, cfg, After(env, cfg, Start(expire, start), run))
  {
    hide Apply, Allowed, CodecRoundTrips, TellingFrame, CleanFrame, CleanReply;
    if run != [] {
      var n := |run| - 1;
      assert run[n] in run && forall step | step in run[..n] :: step in run;
      RunIsClean(env, cfg, expire, start, run[..n]);
      var mid := After(env, cfg, Start(expire, start), run[..n]);
      hide Clean;
      if Allowed(env, mid, run[n]) {
        StepIsClean(env, cfg, mid, run[n]);
      }
    }
  }

  /**
   As long as nothing damages entries, a call fills the store exactly when its answer can be stored and
   the request does not stay out: whether it missed, was forced by `no-cache` or met a failing lookup.
   */
  lemma FillsExactlyWhen(env: Env, cfg: Config, expire: Option<nat>, start: Time, run: seq<Step>, r: Reply)
    requires CodecRoundTrips(env) && NothingCorrupts(run)
    requires r in After(env, cfg, Start(expire, start), run).replies && r.source.FromCall?
    ensures r.source.stored.Some? <==> CanBeStored(env, r) && !StaysOut(cfg, r.c)
    ensures r.source.stored.Some? ==> r.source.stored == env.encode(r.body.v)
  {
    RunIsClean(env, cfg, expire, start, run);
    RunTells(env, cfg, expire, start, run, false);
    assert TellingReply(env, cfg, r, false) && CleanReply(env, cfg, r);
    hide After;
  }

  /** The backend loses everything it is given. */
  ghost predicate EverySetIsLost(run: seq<Step>) {
    forall step | step in run && step.Resume? && step.input.WasSet? :: step.input.fault.Lost?
  }

  lemma {:induction false} LostSetsStoreNothing(env: Env, cfg: Config, expire: Option<nat>, start: Time, run: seq<Step>)
    requires EverySetIsLost(run)
    ensures After(env, cfg, Start(expire, start), run).store == map[]
  {
    if run != [] {
      var n := |run| - 1;
      assert run[n] in run && forall step | step in run[..n] :: step in run;
      LostSetsStoreNothing(env, cfg, expire, start, run[..n]);
      hide Advance;
    }
  }
}
