/**
 One rate-limited request against a limiter that fails over to an in-memory store, as a
 function of the limiter's state and of what the environment does: the clock, the outcome of
 a storage probe and a script of storage faults. A fixed-window hit adds the cost and then
 compares with the amount; everything happens inside one window, so counters never expire.
 */
module RateLimiter {
  import opened Common

  const MAX_BACKEND_CHECKS := 5

  /** A rate-limit item; items are ordered by their granularity alone. */
  datatype Item = Item(amount: nat, granularity: nat)

  /** The identity of one counter: the item and its identifiers. */
  datatype Key = Key(item: Item, ids: seq<string>)

  /** A limit with its callables already answered for the request; `broken` means one raises. */
  datatype Limit = Limit(
    item: Item, key: string, scope: string, exempt: bool, methods: Option<set<string>>,
    perMethod: bool, cost: nat, overrideDefaults: bool, broken: bool)

  datatype Charge = Charge(key: Key, cost: nat)

  /** What the main storage does on one hit: work, or raise before or after counting it. */
  datatype Fault = NoFault | RaiseBefore | RaiseAfter

  datatype Probe = Up | Down | Raises

  datatype Config = Config(
    fallbackEnabled: bool, swallowErrors: bool, keyPrefix: string,
    inMemoryFallback: seq<Limit>, applicationLimits: seq<Limit>, defaultLimits: seq<Limit>)

  datatype Request = Request(
    now: real, httpMethod: string, endpoint: string, skipped: bool,
    inMiddleware: bool, marked: bool, routeLimits: seq<Limit>, probe: Probe)

  datatype State = State(dead: bool, checks: nat, lastCheck: real, main: map<Key, nat>, fallback: map<Key, nat>)

  datatype Verdict = Passed | Exceeded(limit: Limit) | Errored

  datatype Evaluation = Evaluation(
    store: map<Key, nat>, verdict: Verdict, header: Option<Key>, faults: seq<Fault>, charges: seq<Charge>)

  datatype Outcome =
    | Skipped
    | Admitted(onFallback: bool, charges: seq<Charge>)
    | Rejected(limit: Limit)
    | Raised
    | Swallowed

  datatype Checked = Checked(state: State, outcome: Outcome, header: Option<Key>, reentries: nat)

  // ---------------------------------------------------------------- evaluating a list of limits

  function LimitScope(lim: Limit, req: Request): string {
    var scope := if lim.scope != "" then lim.scope else req.endpoint;
    if lim.perMethod then scope + ":" + req.httpMethod else scope
  }

  predicate Applies(lim: Limit, req: Request) {
    && !lim.exempt
    && (lim.methods.Some? ==> Lower(req.httpMethod) in lim.methods.value)
    && lim.key != "" && LimitScope(lim, req) != ""
  }

  function KeyOf(cfg: Config, lim: Limit, req: Request): Key {
    var args := [lim.key, LimitScope(lim, req)];
    Key(lim.item, if cfg.keyPrefix != "" then [cfg.keyPrefix] + args else args)
  }

  function Count(store: map<Key, nat>, key: Key): nat {
    if key in store then store[key] else 0
  }

  function Increment(store: map<Key, nat>, c: Charge): map<Key, nat> {
    store[c.key := Count(store, c.key) + c.cost]
  }

  function BetterHeader(header: Option<Key>, key: Key): Option<Key> {
    if header.None? || key.item.granularity < header.value.item.granularity then Some(key) else header
  }

  function NextFault(reliable: bool, faults: seq<Fault>): Fault {
    if reliable || faults == [] then NoFault else faults[0]
  }

  function LaterFaults(reliable: bool, faults: seq<Fault>): seq<Fault> {
    if reliable || faults == [] then faults else faults[1..]
  }

  /** The loop of `__evaluate_limits`; `reliable` is the in-memory store, which never raises. */
  function Evaluate(
    cfg: Config, req: Request, limits: seq<Limit>, reliable: bool,
    store: map<Key, nat>, faults: seq<Fault>, header: Option<Key>, charges: seq<Charge>): Evaluation
  {
    if limits == [] then Evaluation(store, Passed, header, faults, charges)
    else
      var lim, rest := limits[0], limits[1..];
      if lim.broken then Evaluation(store, Errored, None, faults, charges)
      else if !Applies(lim, req) then Evaluate(cfg, req, rest, reliable, store, faults, header, charges)
      else
        var c := Charge(KeyOf(cfg, lim, req), lim.cost);
        var faults' := LaterFaults(reliable, faults);
        match NextFault(reliable, faults)
        case RaiseBefore => Evaluation(store, Errored, None, faults', charges)
        case RaiseAfter => Evaluation(Increment(store, c), Errored, None, faults', charges)
        case NoFault =>
          var store' := Increment(store, c);
          if store'[c.key] <= lim.item.amount then
            Evaluate(cfg, req, rest, reliable, store', faults', BetterHeader(header, c.key), charges + [c])
          else
            Evaluation(store', Exceeded(lim), Some(c.key), faults', charges)
  }

  // ---------------------------------------------------------------- probing

  function Pow2(n: nat): nat {
    if n == 0 then 1 else 2 * Pow2(n - 1)
  }

  function Exponent(checks: nat): nat {
    if checks > MAX_BACKEND_CHECKS then 0 else checks
  }

  predicate MayProbe(st: State, now: real) {
    now - st.lastCheck > Pow2(Exponent(st.checks)) as real
  }

  function Poll(st: State, now: real): State {
    if MayProbe(st, now) then st.(checks := Exponent(st.checks) + 1, lastCheck := now)
    else st.(checks := Exponent(st.checks))
  }

  // ---------------------------------------------------------------- one request

  predicate AllInherit(limits: seq<Limit>) {
    forall lim | lim in limits :: !lim.overrideDefaults
  }

  function OriginalLimits(cfg: Config, req: Request): seq<Limit> {
    var route := if req.inMiddleware then [] else req.routeLimits;
    (if req.inMiddleware then cfg.applicationLimits else []) + route
    + (if (route == [] && !(req.inMiddleware && req.marked)) || AllInherit(route) then cfg.defaultLimits else [])
  }

  predicate Polls(cfg: Config, st: State, req: Request) {
    st.dead && cfg.fallbackEnabled && !(req.inMiddleware && req.marked)
  }

  predicate Probes(cfg: Config, st: State, req: Request) {
    Polls(cfg, st, req) && MayProbe(st, req.now)
  }

  /** The state after the probing step that starts every pass. */
  function AfterProbing(cfg: Config, st: State, req: Request): State {
    if !Polls(cfg, st, req) then st
    else
      var st' := Poll(st, req.now);
      if Probes(cfg, st, req) && req.probe.Up? then st'.(dead := false, checks := 0) else st'
  }

  function LimitsFor(cfg: Config, st: State, req: Request): seq<Limit> {
    var fallbackLimits := Polls(cfg, st, req) && AfterProbing(cfg, st, req).dead;
    if fallbackLimits && cfg.inMemoryFallback != [] then cfg.inMemoryFallback else OriginalLimits(cfg, req)
  }

  predicate OnFallback(cfg: Config, st: State) {
    st.dead && cfg.fallbackEnabled
  }

  function StoreOf(cfg: Config, st: State): map<Key, nat> {
    if OnFallback(cfg, st) then st.fallback else st.main
  }

  function WithStore(cfg: Config, st: State, store: map<Key, nat>): State {
    if OnFallback(cfg, st) then st.(fallback := store) else st.(main := store)
  }

  /** Alive counts 1, a probe still allowed at this instant counts 2. */
  function Reserve(st: State, now: real): nat {
    (if st.dead then 0 else 1) + (if MayProbe(st, now) then 2 else 0)
  }

  function ErrorOutcome(cfg: Config): Outcome {
    if cfg.swallowErrors then Swallowed else Raised
  }

  /** One pass over the limits, without the re-entry. */
  function Pass(cfg: Config, st: State, req: Request, faults: seq<Fault>): (State, Evaluation) {
    var st1 := AfterProbing(cfg, st, req);
    if Probes(cfg, st, req) && req.probe.Raises? then
      (st1, Evaluation(StoreOf(cfg, st1), Errored, None, faults, []))
    else
      var e := Evaluate(cfg, req, LimitsFor(cfg, st, req), OnFallback(cfg, st1), StoreOf(cfg, st1), faults, None, []);
      (WithStore(cfg, st1, e.store), e)
  }

  function Check(cfg: Config, st: State, req: Request, faults: seq<Fault>): Checked
    decreases Reserve(st, req.now)
  {
    if req.skipped then Checked(st, Skipped, None, 0)
    else
      var (st1, e) := Pass(cfg, st, req, faults);
      match e.verdict
      case Passed => Checked(st1, Admitted(OnFallback(cfg, st1), e.charges), e.header, 0)
      case Exceeded(lim) => Checked(st1, Rejected(lim), e.header, 0)
      case Errored =>
        if cfg.fallbackEnabled && !st1.dead then
          var c := Check(cfg, st1.(dead := true), req, e.faults);
          c.(reentries := c.reentries + 1)
        else Checked(st1, ErrorOutcome(cfg), None, 0)
  }
}
