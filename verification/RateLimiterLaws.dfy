/**
 What the rate limiter promises: the exact effect of evaluating a list of limits, the quota
 over every run with any storage failures, termination, and the backoff of storage probes.
 */
module RateLimiterLaws {
  import opened Common
  import opened RateLimiter

  // ---------------------------------------------------------------- reference definitions

  /** The charges of the limits that apply to a request, in order. */
  function ChargesOf(cfg: Config, req: Request, limits: seq<Limit>): seq<Charge> {
    if limits == [] then []
    else if !Applies(limits[0], req) then ChargesOf(cfg, req, limits[1..])
    else [Charge(KeyOf(cfg, limits[0], req), limits[0].cost)] + ChargesOf(cfg, req, limits[1..])
  }

  function ChargeAll(store: map<Key, nat>, cs: seq<Charge>): map<Key, nat>
    decreases |cs|
  {
    if cs == [] then store else ChargeAll(Increment(store, cs[0]), cs[1..])
  }

  /** The i-th charge, made after all the earlier ones, stays within its limit's amount. */
  predicate Fits(store: map<Key, nat>, cs: seq<Charge>, i: nat)
    requires i < |cs|
  {
    Count(ChargeAll(store, cs[..i + 1]), cs[i].key) <= cs[i].key.item.amount
  }

  function CostOf(cs: seq<Charge>, k: Key): nat {
    if cs == [] then 0 else (if cs[0].key == k then cs[0].cost else 0) + CostOf(cs[1..], k)
  }

  predicate IsFirstLeast(header: Option<Key>, cs: seq<Charge>) {
    if cs == [] then header == None
    else exists i :: && 0 <= i < |cs| && header == Some(cs[i].key)
                     && (forall j | 0 <= j < |cs| :: cs[i].key.item.granularity <= cs[j].key.item.granularity)
                     && (forall j | 0 <= j < i :: cs[i].key.item.granularity < cs[j].key.item.granularity)
  }

  lemma {:induction false} ChargeAllCounts(store: map<Key, nat>, cs: seq<Charge>, k: Key)
    ensures Count(ChargeAll(store, cs), k) == Count(store, k) + CostOf(cs, k)
    decreases |cs|
  {
    if cs != [] { ChargeAllCounts(Increment(store, cs[0]), cs[1..], k); }
  }

  lemma ChargeAllHead(store: map<Key, nat>, cs: seq<Charge>, n: nat)
    requires 0 < n <= |cs|
    ensures ChargeAll(store, cs[..n]) == ChargeAll(Increment(store, cs[0]), cs[1..][..n - 1])
  {
    assert cs[..n][1..] == cs[1..][..n - 1];
  }

  // ---------------------------------------------------------------- evaluation

  ghost predicate Sound(limits: seq<Limit>) {
    forall lim | lim in limits :: !lim.broken
  }

  /**
   The exact effect of a pass on the charges `cs` it may make: the first `m` were made and fit,
   `n` reached the store, and the verdict says what stopped it.
   */
  ghost predicate Explains(
    e: Evaluation, store: map<Key, nat>, cs: seq<Charge>, before: seq<Charge>, m: nat, n: nat)
  {
    && m <= n <= m + 1 && n <= |cs|
    && e.charges == before + cs[..m]
    && e.store == ChargeAll(store, cs[..n])
    && (forall i | 0 <= i < m :: Fits(store, cs, i))
    && match e.verdict
       case Passed => m == |cs|
       case Exceeded(lim) =>
         n == m + 1 && !Fits(store, cs, m) && e.header == Some(cs[m].key) && lim.item == cs[m].key.item
       case Errored => true
  }

  lemma {:induction false} EvaluateExplained(
    cfg: Config, req: Request, limits: seq<Limit>, reliable: bool, store: map<Key, nat>,
    faults: seq<Fault>, header: Option<Key>, charges: seq<Charge>) returns (m: nat, n: nat)
    ensures Explains(Evaluate(cfg, req, limits, reliable, store, faults, header, charges),
                     store, ChargesOf(cfg, req, limits), charges, m, n)
  {
    m, n := 0, 0;
    assert charges + [] == charges;
    if limits != [] && !limits[0].broken {
      var lim, rest := limits[0], limits[1..];
      var tail := ChargesOf(cfg, req, rest);
      if !Applies(lim, req) {
        m, n := EvaluateExplained(cfg, req, rest, reliable, store, faults, header, charges);
      } else {
        var c := Charge(KeyOf(cfg, lim, req), lim.cost);
        var cs := [c] + tail;
        ChargeAllHead(store, cs, 1);
        var f := NextFault(reliable, faults);
        if f.NoFault? && Count(Increment(store, c), c.key) <= lim.item.amount {
          var m', n' := EvaluateExplained(cfg, req, rest, reliable, Increment(store, c), LaterFaults(reliable, faults),
                                          BetterHeader(header, c.key), charges + [c]);
          ExplainOneMore(Evaluate(cfg, req, limits, reliable, store, faults, header, charges), store, c, tail, charges, m', n');
          m, n := m' + 1, n' + 1;
        } else if !f.RaiseBefore? {
          n := 1;
        }
      }
    }
  }

  lemma ExplainOneMore(e: Evaluation, store: map<Key, nat>, c: Charge, tail: seq<Charge>, before: seq<Charge>, m: nat, n: nat)
    requires Explains(e, Increment(store, c), tail, before + [c], m, n)
    requires Count(Increment(store, c), c.key) <= c.key.item.amount
    ensures Explains(e, store, [c] + tail, before, m + 1, n + 1)
  {
    var cs := [c] + tail;
    assert cs[1..] == tail && before + [c] + tail[..m] == before + cs[..m + 1];
    ChargeAllHead(store, cs, n + 1);
    forall i | 0 <= i < |tail| ensures Fits(store, cs, i + 1) == Fits(Increment(store, c), tail, i) {
      ChargeAllHead(store, cs, i + 2);
    }
    ChargeAllHead(store, cs, 1);
    assert Fits(store, cs, 0);
    forall i | 0 <= i < m + 1 ensures Fits(store, cs, i) {
      assert i > 0 ==> Fits(Increment(store, c), tail, i - 1);
    }
  }

  /** Only a limit whose callables raise, or a fault of the main storage, ends in an error. */
  lemma {:induction false} NothingToErr(
    cfg: Config, req: Request, limits: seq<Limit>, reliable: bool, store: map<Key, nat>,
    faults: seq<Fault>, header: Option<Key>, charges: seq<Charge>)
    requires Sound(limits) && (reliable || faults == [])
    ensures !Evaluate(cfg, req, limits, reliable, store, faults, header, charges).verdict.Errored?
  {
    if limits != [] {
      var lim, rest := limits[0], limits[1..];
      assert lim in limits && forall l | l in rest :: l in limits;
      if !Applies(lim, req) {
        NothingToErr(cfg, req, rest, reliable, store, faults, header, charges);
      } else {
        var c := Charge(KeyOf(cfg, lim, req), lim.cost);
        NothingToErr(cfg, req, rest, reliable, Increment(store, c), faults, BetterHeader(header, c.key), charges + [c]);
      }
    }
  }

  /**
   `__evaluate_limits` with nothing raising, on either store: it rejects exactly when some applicable limit's
   hit fails; then the applicable limits up to that first failing one, and no later one, were
   charged, and it is the one recorded for the headers. Otherwise all were charged once.
   */
  lemma EvaluationIsExact(
    cfg: Config, req: Request, limits: seq<Limit>, reliable: bool, store: map<Key, nat>, faults: seq<Fault>, cs: seq<Charge>)
    requires Sound(limits) && cs == ChargesOf(cfg, req, limits) && (reliable || faults == [])
    ensures var e := Evaluate(cfg, req, limits, reliable, store, faults, None, []);
            && !e.verdict.Errored?
            && (e.verdict.Exceeded? <==> exists i :: 0 <= i < |cs| && !Fits(store, cs, i))
            && (e.verdict.Passed? ==> e.charges == cs && e.store == ChargeAll(store, cs))
            && (e.verdict.Exceeded? ==>
                  var n := |e.charges|;
                  && n < |cs| && e.charges == cs[..n] && !Fits(store, cs, n)
                  && (forall i | 0 <= i < n :: Fits(store, cs, i))
                  && e.store == ChargeAll(store, cs[..n + 1])
                  && e.header == Some(cs[n].key) && e.verdict.limit.item == cs[n].key.item)
  {
    hide Evaluate, ChargesOf, ChargeAll, Fits;
    NothingToErr(cfg, req, limits, reliable, store, faults, None, []);
    var m, n := EvaluateExplained(cfg, req, limits, reliable, store, faults, None, []);
    assert [] + cs[..m] == cs[..m];
    assert cs[..|cs|] == cs;
  }

  lemma {:induction false} HeaderIsFirstLeast(
    cfg: Config, req: Request, limits: seq<Limit>, reliable: bool, store: map<Key, nat>,
    faults: seq<Fault>, header: Option<Key>, charges: seq<Charge>)
    requires IsFirstLeast(header, charges)
    ensures var e := Evaluate(cfg, req, limits, reliable, store, faults, header, charges);
            e.verdict.Passed? ==> IsFirstLeast(e.header, e.charges)
  {
    hide IsFirstLeast, Applies, KeyOf, BetterHeader, Increment;
    if limits != [] && !limits[0].broken {
      var lim, rest := limits[0], limits[1..];
      if !Applies(lim, req) {
        HeaderIsFirstLeast(cfg, req, rest, reliable, store, faults, header, charges);
      } else {
        var c := Charge(KeyOf(cfg, lim, req), lim.cost);
        FirstLeastExtends(header, charges, c);
        HeaderIsFirstLeast(cfg, req, rest, reliable, Increment(store, c), LaterFaults(reliable, faults),
                           BetterHeader(header, c.key), charges + [c]);
      }
    }
  }

  lemma FirstLeastExtends(header: Option<Key>, cs: seq<Charge>, c: Charge)
    requires IsFirstLeast(header, cs)
    ensures IsFirstLeast(BetterHeader(header, c.key), cs + [c])
  {
    var cs' := cs + [c];
    if cs == [] {
      assert cs'[0] == c;
    } else {
      var i :| && 0 <= i < |cs| && header == Some(cs[i].key)
               && (forall j | 0 <= j < |cs| :: cs[i].key.item.granularity <= cs[j].key.item.granularity)
               && (forall j | 0 <= j < i :: cs[i].key.item.granularity < cs[j].key.item.granularity);
      var w := if c.key.item.granularity < header.value.item.granularity then |cs| else i;
      assert BetterHeader(header, c.key) == Some(cs'[w].key);
    }
  }

  // ---------------------------------------------------------------- which limits govern a request

  predicate Overrides(limits: seq<Limit>) {
    exists lim :: lim in limits && lim.overrideDefaults
  }

  /**
   The configured limits of a request: those of the application in the middleware, those of its
   route outside of it, and the default ones unless a limit of the route overrides them.
   */
  function Governing(cfg: Config, req: Request): seq<Limit> {
    if req.inMiddleware then cfg.applicationLimits + cfg.defaultLimits
    else if Overrides(req.routeLimits) then req.routeLimits
    else req.routeLimits + cfg.defaultLimits
  }

  /** A limit binds a request that it does not exempt, by its methods and a non-empty identity. */
  predicate Binds(lim: Limit, req: Request) {
    && !lim.exempt && lim.key != ""
    && (lim.methods == None || Lower(req.httpMethod) in lim.methods.value)
    && (lim.perMethod || lim.scope != "" || req.endpoint != "")
  }

  /** The counter that a limit charges: prefixed, by key, scope or endpoint, and perhaps method. */
  function CounterOf(cfg: Config, lim: Limit, req: Request): Key {
    var place := if lim.scope == "" then req.endpoint else lim.scope;
    var ids := [lim.key, if lim.perMethod then place + ":" + req.httpMethod else place];
    Key(lim.item, if cfg.keyPrefix == "" then ids else [cfg.keyPrefix] + ids)
  }

  /** What a list of limits demands of a request, in order. */
  function Demands(cfg: Config, req: Request, limits: seq<Limit>): seq<Charge> {
    if limits == [] then []
    else
      var lim := limits[|limits| - 1];
      Demands(cfg, req, limits[..|limits| - 1])
      + (if Binds(lim, req) then [Charge(CounterOf(cfg, lim, req), lim.cost)] else [])
  }

  lemma GoverningIsOriginal(cfg: Config, req: Request)
    ensures OriginalLimits(cfg, req) == Governing(cfg, req)
  {
    assert cfg.applicationLimits + [] == cfg.applicationLimits && [] + req.routeLimits == req.routeLimits;
    assert req.routeLimits + [] == req.routeLimits;
  }

  lemma OneDemand(cfg: Config, req: Request, lim: Limit)
    ensures Binds(lim, req) <==> Applies(lim, req)
    ensures CounterOf(cfg, lim, req) == KeyOf(cfg, lim, req)
  {
  }

  lemma {:induction false} DemandsConcat(cfg: Config, req: Request, a: seq<Limit>, b: seq<Limit>)
    ensures Demands(cfg, req, a + b) == Demands(cfg, req, a) + Demands(cfg, req, b)
  {
    hide Binds, CounterOf;
    if b == [] {
      assert a + b == a;
    } else {
      var n := |b| - 1;
      assert (a + b)[..|a| + n] == a + b[..n];
      DemandsConcat(cfg, req, a, b[..n]);
    }
  }

  lemma {:induction false} DemandsAreCharges(cfg: Config, req: Request, limits: seq<Limit>)
    ensures Demands(cfg, req, limits) == ChargesOf(cfg, req, limits)
  {
    hide Binds, CounterOf, Applies, KeyOf;
    if limits != [] {
      DemandsAreCharges(cfg, req, limits[1..]);
      assert limits == [limits[0]] + limits[1..];
      DemandsConcat(cfg, req, [limits[0]], limits[1..]);
      OneDemand(cfg, req, limits[0]);
      assert [limits[0]][..0] == [];
    }
  }

  lemma GoverningDemands(cfg: Config, req: Request)
    ensures Demands(cfg, req, Governing(cfg, req)) == ChargesOf(cfg, req, OriginalLimits(cfg, req))
  {
    GoverningIsOriginal(cfg, req);
    DemandsAreCharges(cfg, req, Governing(cfg, req));
  }

  ghost predicate FirstMisfit(store: map<Key, nat>, cs: seq<Charge>, n: nat) {
    n < |cs| && !Fits(store, cs, n) && forall i | 0 <= i < n :: Fits(store, cs, i)
  }

  lemma FirstMisfitIsUnique(store: map<Key, nat>, cs: seq<Charge>, m: nat, n: nat)
    requires FirstMisfit(store, cs, m) && FirstMisfit(store, cs, n)
    ensures m == n
  {
    hide Fits;
  }

  /** A request was charged in order up to the first demand that does not fit, or in full. */
  ghost predicate ChargedInOrder(c: Checked, before: map<Key, nat>, after: map<Key, nat>, cs: seq<Charge>, onFallback: bool) {
    && (c.outcome.Rejected? <==> exists i :: 0 <= i < |cs| && !Fits(before, cs, i))
    && (!c.outcome.Rejected? ==> c.outcome == Admitted(onFallback, cs) && after == ChargeAll(before, cs))
    && (forall n: nat | FirstMisfit(before, cs, n) ::
          after == ChargeAll(before, cs[..n + 1]) && c.header == Some(cs[n].key) && c.outcome.limit.item == cs[n].key.item)
  }

  /** What `EvaluationIsExact` says of an evaluation. */
  ghost predicate StopsAtMisfit(e: Evaluation, store: map<Key, nat>, cs: seq<Charge>) {
    && !e.verdict.Errored?
    && (e.verdict.Passed? ==> e.charges == cs && e.store == ChargeAll(store, cs) && forall i | 0 <= i < |cs| :: Fits(store, cs, i))
    && (e.verdict.Exceeded? ==>
          var n := |e.charges|;
          && FirstMisfit(store, cs, n) && e.store == ChargeAll(store, cs[..n + 1])
          && e.header == Some(cs[n].key) && e.verdict.limit.item == cs[n].key.item)
  }

  lemma PassIsExact(cfg: Config, req: Request, limits: seq<Limit>, reliable: bool, store: map<Key, nat>, faults: seq<Fault>)
    requires Sound(limits) && (reliable || faults == [])
    ensures StopsAtMisfit(Evaluate(cfg, req, limits, reliable, store, faults, None, []), store, Demands(cfg, req, limits))
  {
    var cs := Demands(cfg, req, limits);
    DemandsAreCharges(cfg, req, limits);
    hide Evaluate, Fits, ChargeAll, Demands, ChargesOf, Sound;
    EvaluationIsExact(cfg, req, limits, reliable, store, faults, cs);
  }

  lemma StopIsCharge(e: Evaluation, store: map<Key, nat>, cs: seq<Charge>, c: Checked, after: map<Key, nat>, onFallback: bool)
    requires StopsAtMisfit(e, store, cs) && after == e.store && c.header == e.header
    requires c.outcome == if e.verdict.Passed? then Admitted(onFallback, e.charges) else Rejected(e.verdict.limit)
    ensures ChargedInOrder(c, store, after, cs, onFallback)
  {
    hide Fits, ChargeAll;
    forall n: nat | FirstMisfit(store, cs, n) ensures e.verdict.Exceeded? && n == |e.charges| {
      if e.verdict.Exceeded? {
        FirstMisfitIsUnique(store, cs, n, |e.charges|);
      }
    }
  }

  lemma LivePass(cfg: Config, st: State, req: Request)
    requires !st.dead || !cfg.fallbackEnabled
    ensures var e := Evaluate(cfg, req, Governing(cfg, req), false, st.main, [], None, []);
            Pass(cfg, st, req, []) == (st.(main := e.store), e)
  {
    GoverningIsOriginal(cfg, req);
    hide Evaluate, Governing, OriginalLimits;
  }

  /**
   The whole check of a request against a main store that works, live or without a fallback: it is rejected exactly when some
   demand of the limits that govern it does not fit after the ones before it, and charged up to that
   one; otherwise it is admitted with exactly its demands, and nothing else changes.
   */
  lemma CheckIsExact(cfg: Config, st: State, req: Request)
    requires !req.skipped && (!st.dead || !cfg.fallbackEnabled) && Sound(Governing(cfg, req))
    ensures var c := Check(cfg, st, req, []);
            && c.state == st.(main := c.state.main)
            && ChargedInOrder(c, st.main, c.state.main, Demands(cfg, req, Governing(cfg, req)), false)
  {
    hide Evaluate, Demands, Governing, Fits, ChargeAll, Sound, Pass;
    LivePass(cfg, st, req);
    PassIsExact(cfg, req, Governing(cfg, req), false, st.main, []);
    var e := Evaluate(cfg, req, Governing(cfg, req), false, st.main, [], None, []);
    StopIsCharge(e, st.main, Demands(cfg, req, Governing(cfg, req)), Check(cfg, st, req, []), e.store, false);
    hide StopsAtMisfit, ChargedInOrder;
  }

  /** The limits of an outage: the in-memory ones where there are any, but not for marked routes. */
  function GoverningInOutage(cfg: Config, req: Request): seq<Limit> {
    if cfg.inMemoryFallback == [] || (req.inMiddleware && req.marked) then Governing(cfg, req) else cfg.inMemoryFallback
  }

  lemma OutagePass(cfg: Config, st: State, req: Request, faults: seq<Fault>)
    requires st.dead && cfg.fallbackEnabled && (Probes(cfg, st, req) ==> req.probe.Down?)
    ensures var e := Evaluate(cfg, req, GoverningInOutage(cfg, req), true, st.fallback, faults, None, []);
            var (st1, e1) := Pass(cfg, st, req, faults);
            e1 == e && st1.dead && st1.main == st.main && st1.fallback == e.store
  {
    GoverningIsOriginal(cfg, req);
    assert LimitsFor(cfg, st, req) == GoverningInOutage(cfg, req);
    hide Evaluate, Governing, OriginalLimits;
  }

  /** The same during an outage, on the in-memory store and with the limits of the outage. */
  lemma OutageCheckIsExact(cfg: Config, st: State, req: Request, faults: seq<Fault>)
    requires !req.skipped && st.dead && cfg.fallbackEnabled && Sound(GoverningInOutage(cfg, req))
    requires Probes(cfg, st, req) ==> req.probe.Down?
    ensures var c := Check(cfg, st, req, faults);
            && c.state.dead && c.state.main == st.main
            && ChargedInOrder(c, st.fallback, c.state.fallback, Demands(cfg, req, GoverningInOutage(cfg, req)), true)
  {
    hide Evaluate, Demands, GoverningInOutage, Fits, ChargeAll, Pass, Probes, Sound;
    OutagePass(cfg, st, req, faults);
    PassIsExact(cfg, req, GoverningInOutage(cfg, req), true, st.fallback, faults);
    var e := Evaluate(cfg, req, GoverningInOutage(cfg, req), true, st.fallback, faults, None, []);
    StopIsCharge(e, st.fallback, Demands(cfg, req, GoverningInOutage(cfg, req)), Check(cfg, st, req, faults), e.store, true);
    hide StopsAtMisfit, ChargedInOrder;
  }

  /**
   In an outage that outlasts its probes a check fails exactly when its probe raises: then no limit is
   looked at and no counter moves, and the request gets through exactly when errors are swallowed.
   */
  lemma OutageFailsExactlyWhen(cfg: Config, st: State, req: Request, faults: seq<Fault>)
    requires !req.skipped && st.dead && cfg.fallbackEnabled && Sound(GoverningInOutage(cfg, req))
    requires Probes(cfg, st, req) ==> !req.probe.Up?
    ensures var c := Check(cfg, st, req, faults);
            && (c.outcome.Raised? || c.outcome.Swallowed? <==> Probes(cfg, st, req) && req.probe.Raises?)
            && (c.outcome.Raised? || c.outcome.Swallowed? ==>
                  && c.outcome == (if cfg.swallowErrors then Swallowed else Raised)
                  && c.header == None && c.state == st.(checks := c.state.checks, lastCheck := req.now))
  {
    hide Evaluate, GoverningInOutage, ChargedInOrder, Demands, Sound;
    if !(Probes(cfg, st, req) && req.probe.Raises?) {
      OutageCheckIsExact(cfg, st, req, faults);
      RejectedOrAdmitted(Check(cfg, st, req, faults), st.fallback, Check(cfg, st, req, faults).state.fallback,
                         Demands(cfg, req, GoverningInOutage(cfg, req)), true);
    }
    hide Pow2;
  }

  lemma RejectedOrAdmitted(c: Checked, before: map<Key, nat>, after: map<Key, nat>, cs: seq<Charge>, onFallback: bool)
    requires ChargedInOrder(c, before, after, cs, onFallback)
    ensures c.outcome.Rejected? || c.outcome.Admitted?
  {
    hide Fits, ChargeAll;
  }

  /** A skipped request neither counts nor probes. */
  lemma {:induction false} SkippedIsUnlimited(cfg: Config, st: State, req: Request, faults: seq<Fault>)
    ensures req.skipped <==> Check(cfg, st, req, faults) == Checked(st, Skipped, None, 0)
  {
    if !req.skipped {
      NeverSkipped(cfg, st, req, faults);
    }
  }

  lemma {:induction false} NeverSkipped(cfg: Config, st: State, req: Request, faults: seq<Fault>)
    requires !req.skipped
    ensures !Check(cfg, st, req, faults).outcome.Skipped?
    decreases Reserve(st, req.now)
  {
    var (st1, e) := Pass(cfg, st, req, faults);
    if e.verdict.Errored? && cfg.fallbackEnabled && !st1.dead {
      NeverSkipped(cfg, st1.(dead := true), req, e.faults);
    }
  }

  // ---------------------------------------------------------------- quota over runs

  function CountIn(st: State, onFallback: bool, k: Key): nat {
    if onFallback then Count(st.fallback, k) else Count(st.main, k)
  }

  function AdmittedCost(o: Outcome, onFallback: bool, k: Key): nat {
    if o.Admitted? && o.onFallback == onFallback then CostOf(o.charges, k) else 0
  }

  /** A pass that lets everything through has charged it, and left each counter within its amount. */
  lemma PassedWithinAmount(cfg: Config, req: Request, limits: seq<Limit>, reliable: bool, store: map<Key, nat>,
                           faults: seq<Fault>, k: Key)
    ensures var e := Evaluate(cfg, req, limits, reliable, store, faults, None, []);
            && Count(store, k) <= Count(e.store, k)
            && (e.verdict.Passed? ==>
                  && e.charges == ChargesOf(cfg, req, limits)
                  && Count(e.store, k) == Count(store, k) + CostOf(e.charges, k)
                  && (CostOf(e.charges, k) > 0 ==> Count(e.store, k) <= k.item.amount))
  {
    var cs := ChargesOf(cfg, req, limits);
    hide Evaluate, ChargesOf, ChargeAll;
    var m, n := EvaluateExplained(cfg, req, limits, reliable, store, faults, None, []);
    assert [] + cs[..m] == cs[..m] && cs[..|cs|] == cs;
    ChargeAllCounts(store, cs[..n], k);
    if m == |cs| && CostOf(cs, k) > 0 {
      LastChargeDecides(store, cs, k);
    }
  }

  lemma {:induction false} LastChargeDecides(store: map<Key, nat>, cs: seq<Charge>, k: Key)
    requires forall i | 0 <= i < |cs| :: Fits(store, cs, i)
    requires CostOf(cs, k) > 0
    ensures Count(ChargeAll(store, cs), k) <= k.item.amount
    decreases |cs|
  {
    var store', tail := Increment(store, cs[0]), cs[1..];
    if CostOf(tail, k) > 0 {
      forall i | 0 <= i < |tail| ensures Fits(store', tail, i) {
        assert Fits(store, cs, i + 1);
        ChargeAllHead(store, cs, i + 2);
      }
      LastChargeDecides(store', tail, k);
    } else {
      assert Fits(store, cs, 0);
      ChargeAllHead(store, cs, 1);
      ChargeAllCounts(store', tail, k);
    }
  }

  lemma PassAccounts(cfg: Config, st: State, req: Request, faults: seq<Fault>, onFallback: bool, k: Key)
    ensures var (st', e) := Pass(cfg, st, req, faults);
            && CountIn(st, onFallback, k) <= CountIn(st', onFallback, k)
            && (e.verdict.Passed? ==> e.charges == ChargesOf(cfg, req, LimitsFor(cfg, st, req)))
            && (e.verdict.Passed? && OnFallback(cfg, st') == onFallback ==>
                  && CountIn(st', onFallback, k) == CountIn(st, onFallback, k) + CostOf(e.charges, k)
                  && (CostOf(e.charges, k) > 0 ==> CountIn(st', onFallback, k) <= k.item.amount))
  {
    var st1 := AfterProbing(cfg, st, req);
    PassedWithinAmount(cfg, req, LimitsFor(cfg, st, req), OnFallback(cfg, st1), StoreOf(cfg, st1), faults, k);
  }

  /** One request, whatever fails: counters never shrink, and admitted cost is on the counter. */
  lemma {:induction false} CheckAccounts(cfg: Config, st: State, req: Request, faults: seq<Fault>, onFallback: bool, k: Key)
    ensures var c := Check(cfg, st, req, faults);
            var cost := AdmittedCost(c.outcome, onFallback, k);
            && CountIn(st, onFallback, k) + cost <= CountIn(c.state, onFallback, k)
            && (cost > 0 ==> CountIn(c.state, onFallback, k) <= k.item.amount)
    decreases Reserve(st, req.now)
  {
    if !req.skipped {
      PassAccounts(cfg, st, req, faults, onFallback, k);
      var (st1, e) := Pass(cfg, st, req, faults);
      if e.verdict.Errored? && cfg.fallbackEnabled && !st1.dead {
        CheckAccounts(cfg, st1.(dead := true), req, e.faults, onFallback, k);
      }
    }
  }

  /** Every request of a run comes with the storage faults its hits will meet. */
  datatype Arrival = Arrival(req: Request, faults: seq<Fault>)

  function RunState(cfg: Config, st: State, run: seq<Arrival>): State {
    if run == [] then st
    else
      var a := run[|run| - 1];
      Check(cfg, RunState(cfg, st, run[..|run| - 1]), a.req, a.faults).state
  }

  function OutcomeAt(cfg: Config, st: State, run: seq<Arrival>, i: nat): Outcome
    requires i < |run|
  {
    Check(cfg, RunState(cfg, st, run[..i]), run[i].req, run[i].faults).outcome
  }

  /** The cost for `k` of the requests a run let through on one store. */
  function RunAdmitted(cfg: Config, st: State, run: seq<Arrival>, onFallback: bool, k: Key): nat {
    if run == [] then 0
    else
      RunAdmitted(cfg, st, run[..|run| - 1], onFallback, k)
      + AdmittedCost(OutcomeAt(cfg, st, run, |run| - 1), onFallback, k)
  }

  /** Per store, a run never admits more than the amount of a limit, nor more than was counted. */
  lemma {:induction false} QuotaPerStore(cfg: Config, st: State, run: seq<Arrival>, onFallback: bool, k: Key)
    ensures var admitted := RunAdmitted(cfg, st, run, onFallback, k);
            && admitted <= k.item.amount
            && CountIn(st, onFallback, k) + admitted <= CountIn(RunState(cfg, st, run), onFallback, k)
  {
    if run != [] {
      var n := |run| - 1;
      QuotaPerStore(cfg, st, run[..n], onFallback, k);
      CheckAccounts(cfg, RunState(cfg, st, run[..n]), run[n].req, run[n].faults, onFallback, k);
    }
  }

  // ---------------------------------------------------------------- admitted means charged

  lemma {:induction false} AdmittedWasCharged(cfg: Config, st: State, req: Request, faults: seq<Fault>)
    requires cfg.inMemoryFallback == []
    ensures var o := Check(cfg, st, req, faults).outcome;
            o.Admitted? ==> o.charges == ChargesOf(cfg, req, OriginalLimits(cfg, req))
    decreases Reserve(st, req.now)
  {
    if !req.skipped {
      var (st1, e) := Pass(cfg, st, req, faults);
      PassAccounts(cfg, st, req, faults, false, Key(Item(0, 0), []));
      if e.verdict.Errored? && cfg.fallbackEnabled && !st1.dead {
        AdmittedWasCharged(cfg, st1.(dead := true), req, e.faults);
      }
    }
  }

  /** A request that is neither exempt nor refused got through. */
  predicate LetThrough(o: Outcome) { o.Admitted? || o.Swallowed? }

  /** What a run let through, measured by the demands of the limits that govern its requests. */
  function RunDemand(cfg: Config, st: State, run: seq<Arrival>, k: Key): nat {
    if run == [] then 0
    else
      var n := |run| - 1;
      RunDemand(cfg, st, run[..n], k)
      + (if LetThrough(OutcomeAt(cfg, st, run, n)) then CostOf(Demands(cfg, run[n].req, Governing(cfg, run[n].req)), k) else 0)
  }

  lemma {:induction false} NothingSwallowed(cfg: Config, st: State, req: Request, faults: seq<Fault>)
    requires !cfg.swallowErrors
    ensures !Check(cfg, st, req, faults).outcome.Swallowed?
    decreases Reserve(st, req.now)
  {
    if !req.skipped {
      var (st1, e) := Pass(cfg, st, req, faults);
      if e.verdict.Errored? && cfg.fallbackEnabled && !st1.dead {
        NothingSwallowed(cfg, st1.(dead := true), req, e.faults);
      }
    }
  }

  lemma {:induction false} DemandIsAdmitted(cfg: Config, st: State, run: seq<Arrival>, k: Key)
    requires !cfg.swallowErrors && cfg.inMemoryFallback == []
    ensures RunDemand(cfg, st, run, k) == RunAdmitted(cfg, st, run, false, k) + RunAdmitted(cfg, st, run, true, k)
  {
    if run != [] {
      var n := |run| - 1;
      DemandIsAdmitted(cfg, st, run[..n], k);
      NothingSwallowed(cfg, RunState(cfg, st, run[..n]), run[n].req, run[n].faults);
      AdmittedWasCharged(cfg, RunState(cfg, st, run[..n]), run[n].req, run[n].faults);
      GoverningDemands(cfg, run[n].req);
    }
  }

  /**
   Over every run with any storage failures and recoveries, errors not swallowed and the
   original limits inherited by the fallback, what gets through for one limit and key is at
   most twice the limit's amount: once per store.
   */
  lemma QuotaOverAnyRun(cfg: Config, st: State, run: seq<Arrival>, k: Key)
    requires !cfg.swallowErrors && cfg.inMemoryFallback == []
    ensures RunDemand(cfg, st, run, k) <= 2 * k.item.amount
  {
    DemandIsAdmitted(cfg, st, run, k);
    QuotaPerStore(cfg, st, run, false, k);
    QuotaPerStore(cfg, st, run, true, k);
  }

  // ---------------------------------------------------------------- how tight, and when not

  function PlainLimit(amount: nat): Limit {
    Limit(Item(amount, 60), "client", "", false, None, false, 1, false, false)
  }

  function PlainConfig(swallow: bool, limits: seq<Limit>): Config {
    Config(true, swallow, "", [], limits, [])
  }

  function PlainRequest(probe: Probe): Request {
    Request(10.0, "GET", "/", false, true, false, [], probe)
  }

  /** The counter of the plain limit for the plain request. */
  function PlainKey(amount: nat): Key {
    Key(Item(amount, 60), ["client", "/"])
  }

  function OneLimit(amount: nat): Config {
    PlainConfig(false, [PlainLimit(amount)])
  }

  /** n requests, of which the one after `amount` meets a storage fault. */
  function Load(amount: nat, n: nat): seq<Arrival> {
    if n == 0 then [] else Load(amount, n - 1) + [Nth(amount, n - 1)]
  }

  function Nth(amount: nat, n: nat): Arrival {
    Arrival(PlainRequest(Down), if n == amount then [RaiseBefore] else [])
  }

  function Counter(k: Key, n: nat): map<Key, nat> {
    if n == 0 then map[] else map[k := n]
  }

  /** The main store is filled first, and the other one after the fault. */
  function Loaded(amount: nat, n: nat): State {
    var k := PlainKey(amount);
    if n <= amount then State(false, 0, 10.0, Counter(k, n), map[])
    else State(true, 0, 10.0, Counter(k, amount), Counter(k, n - amount))
  }

  lemma PlainHitPasses(amount: nat, reliable: bool, store: map<Key, nat>, n: nat)
    requires store == Counter(PlainKey(amount), n) && n < amount
    ensures Evaluate(OneLimit(amount), PlainRequest(Down), [PlainLimit(amount)], reliable, store, [], None, [])
         == Evaluation(Counter(PlainKey(amount), n + 1), Passed, Some(PlainKey(amount)), [], [Charge(PlainKey(amount), 1)])
  {
    assert [PlainLimit(amount)][1..] == [];
    assert [] + [Charge(PlainKey(amount), 1)] == [Charge(PlainKey(amount), 1)];
    assert KeyOf(OneLimit(amount), PlainLimit(amount), PlainRequest(Down)) == PlainKey(amount);
  }

  lemma PlainLimits(amount: nat, st: State)
    requires st.lastCheck == 10.0 && st.checks == 0
    ensures !MayProbe(st, 10.0)
    ensures LimitsFor(OneLimit(amount), st, PlainRequest(Down)) == [PlainLimit(amount)]
         == OriginalLimits(OneLimit(amount), PlainRequest(Down))
  {
  }

  lemma PlainRequestPasses(amount: nat, st: State, n: nat)
    requires st.lastCheck == 10.0 && st.checks == 0 && n < amount
    requires (if st.dead then st.fallback else st.main) == Counter(PlainKey(amount), n)
    ensures var c := Check(OneLimit(amount), st, PlainRequest(Down), []);
            && c.outcome == Admitted(st.dead, [Charge(PlainKey(amount), 1)])
            && c.state == if st.dead then st.(fallback := Counter(PlainKey(amount), n + 1))
                          else st.(main := Counter(PlainKey(amount), n + 1))
  {
    PlainLimits(amount, st);
    PlainHitPasses(amount, st.dead, if st.dead then st.fallback else st.main, n);
    hide Evaluate, LimitsFor, Counter;
  }

  lemma FaultGoesToFallback(amount: nat, st: State)
    requires st.lastCheck == 10.0 && st.checks == 0 && !st.dead && st.fallback == map[] && amount > 0
    ensures var c := Check(OneLimit(amount), st, PlainRequest(Down), [RaiseBefore]);
            && c.outcome == Admitted(true, [Charge(PlainKey(amount), 1)])
            && c.state == st.(dead := true, fallback := Counter(PlainKey(amount), 1))
  {
    PlainLimits(amount, st);
    var (st1, e) := Pass(OneLimit(amount), st, PlainRequest(Down), [RaiseBefore]);
    assert [RaiseBefore][1..] == [];
    assert st1 == st && e.verdict.Errored? && e.faults == [];
    PlainRequestPasses(amount, st.(dead := true), 0);
  }

  /** The n-th request is admitted and brings the next state. */
  lemma NextIsAdmitted(amount: nat, n: nat)
    requires n < 2 * amount
    ensures var c := Check(OneLimit(amount), Loaded(amount, n), Nth(amount, n).req, Nth(amount, n).faults);
            c.state == Loaded(amount, n + 1) && c.outcome.Admitted?
  {
    var st := Loaded(amount, n);
    if n == amount {
      FaultGoesToFallback(amount, st);
    } else {
      PlainRequestPasses(amount, st, if st.dead then n - amount else n);
    }
    hide Check, Counter;
  }

  lemma OneMoreArrival(cfg: Config, st: State, run: seq<Arrival>, a: Arrival, k: Key)
    ensures RunState(cfg, st, run + [a]) == Check(cfg, RunState(cfg, st, run), a.req, a.faults).state
    ensures RunDemand(cfg, st, run + [a], k)
         == RunDemand(cfg, st, run, k)
            + (if LetThrough(Check(cfg, RunState(cfg, st, run), a.req, a.faults).outcome)
               then CostOf(Demands(cfg, a.req, Governing(cfg, a.req)), k) else 0)
  {
    assert (run + [a])[..|run|] == run;
    hide Check, Demands, CostOf, Governing;
  }

  lemma NoLoad(amount: nat, cfg: Config, st: State, k: Key)
    ensures RunState(cfg, st, Load(amount, 0)) == st && RunDemand(cfg, st, Load(amount, 0), k) == 0
  {
  }

  lemma LoadSnoc(amount: nat, n: nat)
    ensures Load(amount, n + 1) == Load(amount, n) + [Nth(amount, n)] && Nth(amount, n).req == PlainRequest(Down)
  {
  }

  lemma {:induction false} LoadAdmitsAll(amount: nat, n: nat, cfg: Config, st: State, k: Key)
    requires n <= 2 * amount && cfg == OneLimit(amount) && st == Loaded(amount, 0) && k == PlainKey(amount)
    ensures RunState(cfg, st, Load(amount, n)) == Loaded(amount, n)
    ensures RunDemand(cfg, st, Load(amount, n), k) == n
  {
    hide Check, Demands, CostOf, Governing, Loaded, OneLimit, PlainRequest, PlainKey, RunState, RunDemand, Load, Nth;
    if n == 0 {
      NoLoad(amount, cfg, st, k);
    } else {
      LoadAdmitsAll(amount, n - 1, cfg, st, k);
      NextIsAdmitted(amount, n - 1);
      PlainDemand(amount);
      LoadSnoc(amount, n - 1);
      OneMoreArrival(cfg, st, Load(amount, n - 1), Nth(amount, n - 1), k);
    }
  }

  lemma PlainDemand(amount: nat)
    ensures CostOf(Demands(OneLimit(amount), PlainRequest(Down), Governing(OneLimit(amount), PlainRequest(Down))), PlainKey(amount)) == 1
  {
    GoverningDemands(OneLimit(amount), PlainRequest(Down));
    PlainLimits(amount, Loaded(amount, 0));
    assert [PlainLimit(amount)][1..] == [];
    assert KeyOf(OneLimit(amount), PlainLimit(amount), PlainRequest(Down)) == PlainKey(amount);
    assert ChargesOf(OneLimit(amount), PlainRequest(Down), [PlainLimit(amount)]) == [Charge(PlainKey(amount), 1)];
  }

  /** For every amount the factor two is reached: the store fails when its quota is used up. */
  lemma TwiceTheAmountIsReached(amount: nat)
    ensures RunDemand(OneLimit(amount), Loaded(amount, 0), Load(amount, 2 * amount), PlainKey(amount)) == 2 * amount
  {
    LoadAdmitsAll(amount, 2 * amount, OneLimit(amount), Loaded(amount, 0), PlainKey(amount));
  }

  // ---------------------------------------------------------------- swallowed errors

  /** With errors swallowed and no fallback, a failing store lets every limited request through uncharged. */
  lemma SwallowedIsUncharged(cfg: Config, st: State, req: Request, faults: seq<Fault>)
    requires cfg.swallowErrors && !cfg.fallbackEnabled && !st.dead && !req.skipped
    requires faults != [] && faults[0] == RaiseBefore
    requires OriginalLimits(cfg, req) != []
    requires !OriginalLimits(cfg, req)[0].broken && Applies(OriginalLimits(cfg, req)[0], req)
    ensures Check(cfg, st, req, faults).outcome == Swallowed && Check(cfg, st, req, faults).state == st
  {
    var (st1, e) := Pass(cfg, st, req, faults);
    assert e.verdict.Errored? && e.store == st.main;
  }

  /** A limit of amount 0 behind one that raises, both set on the route. */
  function RaisingRoute(): seq<Limit> {
    [Limit(Item(0, 60), "client", "", true, None, false, 1, true, true),
     Limit(Item(0, 60), "client", "", false, None, false, 1, true, false)]
  }

  function RaisingRequest(): Request {
    Request(10.0, "GET", "/", false, false, false, RaisingRoute(), Down)
  }

  lemma RaisingPass(cfg: Config, st: State)
    requires cfg.inMemoryFallback == [] && st.checks == 0 && st.lastCheck == 10.0
    ensures OriginalLimits(cfg, RaisingRequest()) == RaisingRoute()
    ensures Pass(cfg, st, RaisingRequest(), []).0 == st && Pass(cfg, st, RaisingRequest(), []).1.verdict.Errored?
    ensures Pass(cfg, st, RaisingRequest(), []).1.faults == []
  {
    assert RaisingRoute()[0] in RaisingRoute();
    assert [] + [] + RaisingRoute() + [] == RaisingRoute();
    assert OriginalLimits(cfg, RaisingRequest()) == RaisingRoute();
    assert !MayProbe(st, 10.0);
  }

  lemma RaisingIsSwallowed(cfg: Config)
    requires cfg.swallowErrors && cfg.inMemoryFallback == []
    ensures Check(cfg, State(false, 0, 10.0, map[], map[]), RaisingRequest(), []).outcome == Swallowed
  {
    var st := State(false, 0, 10.0, map[], map[]);
    RaisingPass(cfg, st);
    RaisingPass(cfg, st.(dead := true));
    hide Pass, MayProbe, RaisingRoute;
  }

  /** What any run lets through for any limit and key is at most twice the limit's amount. */
  ghost predicate QuotaHolds(cfg: Config) {
    forall st, run: seq<Arrival>, k :: RunDemand(cfg, st, run, k) <= 2 * k.item.amount
  }

  lemma RaisingBreaksQuota(cfg: Config)
    requires cfg.swallowErrors && cfg.inMemoryFallback == []
    ensures !QuotaHolds(cfg)
  {
    var st, req := State(false, 0, 10.0, map[], map[]), RaisingRequest();
    var limits := RaisingRoute();
    var k := KeyOf(cfg, limits[1], req);
    RaisingIsSwallowed(cfg);
    RaisingPass(cfg, st);
    assert limits[1..] == [limits[1]] && limits[1..][1..] == [];
    assert ChargesOf(cfg, req, limits) == ChargesOf(cfg, req, [limits[1]]) == [Charge(k, 1)];
    GoverningDemands(cfg, req);
    assert [Charge(k, 1)][1..] == [] && CostOf([Charge(k, 1)], k) == 1;
    var run := [Arrival(req, [])];
    assert run[..0] == [];
    hide Check, Demands, CostOf, Governing;
    assert RunState(cfg, st, []) == st;
    assert RunDemand(cfg, st, run, k) == 1 && k.item.amount == 0;
  }

  /**
   With the original limits inherited by the fallback, the quota of twice the amount holds in every
   state, for every run and every key, exactly when errors are not swallowed.
   */
  lemma QuotaHoldsExactlyWhen(cfg: Config)
    requires cfg.inMemoryFallback == []
    ensures QuotaHolds(cfg) <==> !cfg.swallowErrors
  {
    if cfg.swallowErrors {
      RaisingBreaksQuota(cfg);
    } else {
      forall st, run: seq<Arrival>, k ensures RunDemand(cfg, st, run, k) <= 2 * k.item.amount {
        QuotaOverAnyRun(cfg, st, run, k);
      }
    }
  }

  // ---------------------------------------------------------------- termination

  /**
   A request re-enters the check at most twice: once for the storage dying, and once more only
   if it was revived by a probe, which the clock then refuses until time advances.
   */
  lemma {:induction false} ReentriesBounded(cfg: Config, st: State, req: Request, faults: seq<Fault>)
    ensures Check(cfg, st, req, faults).reentries <= (if st.dead then 0 else 1) + (if MayProbe(st, req.now) then 1 else 0)
    decreases Reserve(st, req.now)
  {
    if !req.skipped {
      var (st1, e) := Pass(cfg, st, req, faults);
      if e.verdict.Errored? && cfg.fallbackEnabled && !st1.dead {
        ReentriesBounded(cfg, st1.(dead := true), req, e.faults);
      }
    }
  }

  /** A successful probe restores the main store within the same request and rearms the backoff. */
  lemma ProbeRestores(cfg: Config, st: State, req: Request)
    requires Probes(cfg, st, req) && req.probe.Up? && !req.skipped && Sound(OriginalLimits(cfg, req))
    ensures var c := Check(cfg, st, req, []);
            && !c.state.dead && c.state.checks == 0 && c.state.lastCheck == req.now && c.state.fallback == st.fallback
            && c.reentries == 0
            && (c.outcome == Admitted(false, ChargesOf(cfg, req, OriginalLimits(cfg, req))) || c.outcome.Rejected?)
  {
    var limits := LimitsFor(cfg, st, req);
    assert limits == OriginalLimits(cfg, req);
    NothingToErr(cfg, req, limits, false, st.main, [], None, []);
    PassAccounts(cfg, st, req, [], false, Key(Item(0, 0), []));
  }

  /**
   Marking a route for limiting never takes its original limits away. The limits a pass checks do
   differ for a marked route, exactly in a middleware request of an outage that goes on after
   probing and has other limits for it: a marked request never polls and keeps the originals.
   */
  lemma MarkingMattersExactlyWhen(cfg: Config, st: State, req: Request)
    ensures OriginalLimits(cfg, req.(marked := true)) == OriginalLimits(cfg, req.(marked := false)) == OriginalLimits(cfg, req)
    ensures LimitsFor(cfg, st, req.(marked := true)) != LimitsFor(cfg, st, req.(marked := false))
            <==> && req.inMiddleware && st.dead && cfg.fallbackEnabled && !(MayProbe(st, req.now) && req.probe.Up?)
                 && cfg.inMemoryFallback != [] && cfg.inMemoryFallback != OriginalLimits(cfg, req)
  {
    var yes, no := req.(marked := true), req.(marked := false);
    assert OriginalLimits(cfg, yes) == OriginalLimits(cfg, no) == OriginalLimits(cfg, req);
    if req.inMiddleware {
      assert !Polls(cfg, st, yes) && Polls(cfg, st, no) == (st.dead && cfg.fallbackEnabled);
    }
  }

  lemma TwoReentriesHappen()
    ensures var cfg := PlainConfig(false, [PlainLimit(1)]);
            Check(cfg, State(false, 0, 0.0, map[], map[]), PlainRequest(Up), [RaiseBefore, RaiseBefore]).reentries == 2
  {
    var cfg := PlainConfig(false, [PlainLimit(1)]);
    var req := PlainRequest(Up);
    var st := State(false, 0, 0.0, map[], map[]);
    var revived := State(false, 0, 10.0, map[], map[]);
    assert OriginalLimits(cfg, req) == [PlainLimit(1)];
    assert KeyOf(cfg, PlainLimit(1), req) == Key(Item(1, 60), ["client", "/"]);
    assert Pass(cfg, st, req, [RaiseBefore, RaiseBefore]).0 == st;
    assert Pass(cfg, st, req, [RaiseBefore, RaiseBefore]).1.verdict.Errored?;
    assert [RaiseBefore, RaiseBefore][1..] == [RaiseBefore];
    assert Pass(cfg, st.(dead := true), req, [RaiseBefore]).0 == revived;
    assert Pass(cfg, st.(dead := true), req, [RaiseBefore]).1.verdict.Errored?;
    assert [RaiseBefore][1..] == [];
    var (last, e) := Pass(cfg, revived.(dead := true), req, []);
    assert e.verdict.Passed?;
  }

  // ---------------------------------------------------------------- backoff

  /** The probes made when an outage polls at the given times. */
  function ProbeTimes(st: State, times: seq<real>): seq<real>
    decreases |times|
  {
    if times == [] then []
    else
      (if MayProbe(st, times[0]) then [times[0]] else []) + ProbeTimes(Poll(st, times[0]), times[1..])
  }

  function PollAll(st: State, times: seq<real>): State
    decreases |times|
  {
    if times == [] then st else PollAll(Poll(st, times[0]), times[1..])
  }

  lemma {:induction false} OneMorePoll(st: State, times: seq<real>, t: real)
    ensures PollAll(st, times + [t]) == Poll(PollAll(st, times), t)
    ensures ProbeTimes(st, times + [t]) == ProbeTimes(st, times) + (if MayProbe(PollAll(st, times), t) then [t] else [])
    decreases |times|
  {
    if times == [] {
      assert [t][1..] == [];
    } else {
      assert (times + [t])[1..] == times[1..] + [t];
      OneMorePoll(Poll(st, times[0]), times[1..], t);
    }
  }

  /** The exponent of the k-th probe from now. */
  function ProbeExponent(checks: nat, k: nat): (e: nat)
    ensures e <= 5
    decreases k
  {
    if k == 0 then Exponent(checks) else ProbeExponent(Exponent(checks) + 1, k - 1)
  }

  lemma {:induction false} ProbeExponentIsCyclic(checks: nat, k: nat)
    ensures ProbeExponent(checks, k) == (Exponent(checks) + k) % 6
    ensures ProbeExponent(checks, k + 1) == Exponent(ProbeExponent(checks, k) + 1)
    decreases k
  {
    if k > 0 {
      ProbeExponentIsCyclic(Exponent(checks) + 1, k - 1);
    }
  }

  /** The k-th probe of an outage waits more than 2 ** e seconds after the one before. */
  lemma {:induction false} ProbeGaps(st: State, times: seq<real>, k: nat)
    requires k < |ProbeTimes(st, times)|
    ensures var ps := ProbeTimes(st, times);
            ps[k] - (if k == 0 then st.lastCheck else ps[k - 1]) > Pow2(ProbeExponent(st.checks, k)) as real
    decreases |times|
  {
    hide Pow2;
    var t, st' := times[0], Poll(st, times[0]);
    var later := ProbeTimes(st', times[1..]);
    if MayProbe(st, t) {
      assert ProbeTimes(st, times) == [t] + later;
      if k > 0 {
        ProbeGaps(st', times[1..], k - 1);
      }
    } else {
      assert ProbeTimes(st, times) == later;
      ProbeGaps(st', times[1..], k);
      assert Exponent(st'.checks) == Exponent(st.checks);
    }
  }

  lemma SixExponents(checks: nat, k: nat)
    ensures Pow2(ProbeExponent(checks, k)) + Pow2(ProbeExponent(checks, k + 1)) + Pow2(ProbeExponent(checks, k + 2))
          + Pow2(ProbeExponent(checks, k + 3)) + Pow2(ProbeExponent(checks, k + 4)) + Pow2(ProbeExponent(checks, k + 5)) == 63
  {
    hide ProbeExponent;
    assert Pow2(0) == 1 && Pow2(1) == 2 && Pow2(2) == 4;
    assert Pow2(3) == 8 && Pow2(4) == 16 && Pow2(5) == 32;
    hide Pow2;
    ProbeExponentIsCyclic(checks, k);
    ProbeExponentIsCyclic(checks, k + 1);
    ProbeExponentIsCyclic(checks, k + 2);
    ProbeExponentIsCyclic(checks, k + 3);
    ProbeExponentIsCyclic(checks, k + 4);
    ProbeExponentIsCyclic(checks, k + 5);
  }

  lemma SixGaps(st: State, times: seq<real>, i: nat)
    requires i + 6 < |ProbeTimes(st, times)|
    ensures ProbeTimes(st, times)[i + 6] - ProbeTimes(st, times)[i] > 63.0
  {
    hide ProbeExponent, Pow2, ProbeTimes;
    ProbeGaps(st, times, i + 1);
    ProbeGaps(st, times, i + 2);
    ProbeGaps(st, times, i + 3);
    ProbeGaps(st, times, i + 4);
    ProbeGaps(st, times, i + 5);
    ProbeGaps(st, times, i + 6);
    SixExponents(st.checks, i + 1);
  }

  lemma OneRoundMore(n: nat)
    requires n >= 6
    ensures (63 * (n / 6)) as real == (63 * ((n - 6) / 6)) as real + 63.0
  {
    assert n / 6 == (n - 6) / 6 + 1;
  }

  lemma {:induction false} RoundsOfSix(st: State, times: seq<real>, i: nat, j: nat)
    requires i <= j < |ProbeTimes(st, times)|
    ensures ProbeTimes(st, times)[j] - ProbeTimes(st, times)[i] >= (63 * ((j - i) / 6)) as real
    decreases j
  {
    hide ProbeTimes, ProbeExponent, Pow2;
    if j >= i + 6 {
      RoundsOfSix(st, times, i, j - 6);
      SixGaps(st, times, j - 6);
      OneRoundMore(j - i);
    } else if j > i {
      RoundsOfSix(st, times, i, j - 1);
      ProbeGaps(st, times, j);
    }
  }

  predicate SameTimers(a: State, b: State) {
    a.dead == b.dead && a.checks == b.checks && a.lastCheck == b.lastCheck
  }

  // ---------------------------------------------------------------- the probes of a run

  /** Whether the request asks the main storage if it is back. */
  predicate Asks(cfg: Config, st: State, req: Request) {
    !req.skipped && Probes(cfg, st, req)
  }

  /** The times at which the requests of a run ask. */
  function ProbedAt(cfg: Config, st: State, run: seq<Arrival>): seq<real> {
    if run == [] then []
    else
      var n := |run| - 1;
      ProbedAt(cfg, st, run[..n])
      + (if Asks(cfg, RunState(cfg, st, run[..n]), run[n].req) then [run[n].req.now] else [])
  }

  /** The outage lasts for the whole run: no probe that it makes succeeds. */
  predicate OutageLasts(cfg: Config, st: State, run: seq<Arrival>) {
    if run == [] then st.dead && cfg.fallbackEnabled
    else
      var n := |run| - 1;
      OutageLasts(cfg, st, run[..n])
      && (Asks(cfg, RunState(cfg, st, run[..n]), run[n].req) ==> !run[n].req.probe.Up?)
  }

  predicate MayPoll(req: Request) {
    !req.skipped && !(req.inMiddleware && req.marked)
  }

  /** The times of the requests that look at the timers at all. */
  function PollTimes(run: seq<Arrival>): seq<real> {
    if run == [] then []
    else PollTimes(run[..|run| - 1]) + (if MayPoll(run[|run| - 1].req) then [run[|run| - 1].req.now] else [])
  }

  /** In an outage a request polls at most once, whether its probe fails or raises. */
  lemma OutageRequestPolls(cfg: Config, st: State, req: Request, faults: seq<Fault>)
    requires st.dead && cfg.fallbackEnabled && !(Asks(cfg, st, req) && req.probe.Up?)
    ensures SameTimers(Check(cfg, st, req, faults).state, if MayPoll(req) then Poll(st, req.now) else st)
  {
  }

  /**
   For as long as an outage lasts, whatever limits, faults and raising probes its requests meet,
   the requests that ask the storage are those that the backoff schedule lists.
   */
  lemma {:induction false} OutageIsPolling(cfg: Config, st: State, run: seq<Arrival>)
    requires OutageLasts(cfg, st, run)
    ensures ProbedAt(cfg, st, run) == ProbeTimes(st, PollTimes(run))
    ensures SameTimers(RunState(cfg, st, run), PollAll(st, PollTimes(run))) && RunState(cfg, st, run).dead
    ensures st.dead && cfg.fallbackEnabled
  {
    if run != [] {
      var n := |run| - 1;
      OutageIsPolling(cfg, st, run[..n]);
      var mid, req := RunState(cfg, st, run[..n]), run[n].req;
      OutageRequestPolls(cfg, mid, req, run[n].faults);
      OneMorePoll(st, PollTimes(run[..n]), req.now);
      var times := PollTimes(run[..n]);
      hide Check, ProbeTimes, PollAll;
      assert PollTimes(run) == if MayPoll(req) then times + [req.now] else times;
      assert Asks(cfg, mid, req) == (MayPoll(req) && MayProbe(PollAll(st, times), req.now));
    }
  }

  /** Seven probes in a row of one outage span more than 63 seconds. */
  lemma SevenProbesSpan(cfg: Config, st: State, run: seq<Arrival>, i: nat)
    requires OutageLasts(cfg, st, run) && i + 6 < |ProbedAt(cfg, st, run)|
    ensures ProbedAt(cfg, st, run)[i + 6] - ProbedAt(cfg, st, run)[i] > 63.0
  {
    OutageIsPolling(cfg, st, run);
    SixGaps(st, PollTimes(run), i);
  }

  /** An outage of any length and load: its probes take at least 63 seconds per round of six. */
  lemma ProbesAreRare(cfg: Config, st: State, run: seq<Arrival>, i: nat, j: nat)
    requires OutageLasts(cfg, st, run) && i <= j < |ProbedAt(cfg, st, run)|
    ensures ProbedAt(cfg, st, run)[j] - ProbedAt(cfg, st, run)[i] >= (63 * ((j - i) / 6)) as real
  {
    OutageIsPolling(cfg, st, run);
    RoundsOfSix(st, PollTimes(run), i, j);
  }

  /** The probe count never leaves 0..6, in any run. */
  lemma {:induction false} CheckCountBounded(cfg: Config, st: State, req: Request, faults: seq<Fault>)
    requires st.checks <= 6
    ensures Check(cfg, st, req, faults).state.checks <= 6
    decreases Reserve(st, req.now)
  {
    if !req.skipped {
      var (st1, e) := Pass(cfg, st, req, faults);
      if e.verdict.Errored? && cfg.fallbackEnabled && !st1.dead {
        CheckCountBounded(cfg, st1.(dead := true), req, e.faults);
      }
    }
  }

  lemma {:induction false} ProbeCountBounded(cfg: Config, st: State, run: seq<Arrival>)
    requires st.checks <= 6
    ensures RunState(cfg, st, run).checks <= 6
  {
    if run != [] {
      var n := |run| - 1;
      ProbeCountBounded(cfg, st, run[..n]);
      CheckCountBounded(cfg, RunState(cfg, st, run[..n]), run[n].req, run[n].faults);
    }
  }
}
