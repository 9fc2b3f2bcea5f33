/**
 The response cache decorator around one endpoint, cut at its awaits: the backend's `get` and
 `expires_in`, the endpoint call and the backend's `set`. Any number of requests are in flight,
 and between two segments of one anything may happen to the others, the clock and the store.
 The endpoint, the codec and the tag function are parameters; what an endpoint answers may change
 over time, and a call reads its answer at some moment while it runs.
 */
module ResponseCache {
  import opened Common

  type Key = string
  type Bytes = string
  type Value = string
  type Time = int
  type Id = nat

  datatype Env = Env(
    endpoint: (Key, Time) -> Result<Value, string>,
    encode: Value -> Option<Bytes>,
    decode: Bytes -> Option<Value>,
    tag: Bytes -> string)

  datatype Config = Config(enabled: bool, ttl: nat)

  datatype RequestInfo = RequestInfo(httpMethod: string, cacheControl: Option<string>, ifNoneMatch: Option<string>)

  /** `request` is None when the framework passed none; `hasResponse` says whether one was injected. */
  datatype Call = Call(key: Key, request: Option<RequestInfo>, hasResponse: bool)

  /** A stored answer, with when the call that produced it began and read it. */
  datatype Entry = Entry(bytes: Bytes, storedAt: Time, ttl: nat, startedAt: Time, readAt: Time)

  type Store = map<Key, Entry>

  datatype Headers = Headers(maxAge: int, etag: string, hit: bool)

  datatype Body = Returned(v: Value) | Raised(e: string) | NotModified(etag: string)

  /** The await a request is suspended at; `fill` tells the call of a miss, whose answer is stored. */
  datatype Stage =
    | Getting
    | Expiring(entry: Entry, gotAt: Time)
    | Calling(fill: bool, headers: Option<Headers>, startedAt: Time)
    | Setting(v: Value, bytes: Bytes, startedAt: Time, readAt: Time)

  datatype Frame = Frame(c: Call, arrivedAt: Time, stage: Stage)

  /** Where an answer came from; `stored` are the bytes a miss offered to the store. */
  datatype Source =
    | FromCall(stored: Option<Bytes>, startedAt: Time, readAt: Time)
    | FromStore(entry: Entry, gotAt: Time)

  datatype Progress = Pending(stage: Stage) | Replied(body: Body, headers: Option<Headers>, source: Source)

  datatype Reply = Reply(c: Call, arrivedAt: Time, at: Time, body: Body, headers: Option<Headers>, source: Source)

  /** `expire` is the captured variable, `calls` how often the endpoint was called. */
  datatype State = State(
    expire: Option<nat>, store: Store, now: Time, frames: map<Id, Frame>, replies: seq<Reply>, calls: nat)

  datatype SetFault = Stored | Lost | StoredButRaised

  /** What an await comes back with, besides what the state says. */
  datatype Input =
    | Got(fails: bool)
    | Remaining(fails: bool, headersFail: bool)
    | Answered(readAt: Time)
    | WasSet(fault: SetFault, headersFail: bool)

  /** Entries may also go, or be damaged beyond decoding. */
  datatype Step =
    | Arrive(id: Id, c: Call)
    | Resume(id: Id, input: Input)
    | Evict(k: Key)
    | Corrupt(k: Key, junk: Bytes)
    | Tick(seconds: nat)

  // ---------------------------------------------------------------- the segments

  predicate Uncacheable(cfg: Config, c: Call) {
    !cfg.enabled
    || (c.request.Some? && (c.request.value.httpMethod != "GET" || c.request.value.cacheControl == Some("no-store")))
  }

  predicate ForcesRefresh(c: Call) {
    c.request.Some? && c.request.value.cacheControl == Some("no-cache")
  }

  /** `expire = expire or cache_config.ttl`, written back to the captured variable. */
  function Effective(cfg: Config, expire: Option<nat>): nat {
    if expire.Some? && expire.value != 0 then expire.value else cfg.ttl
  }

  function TtlOf(expire: Option<nat>): nat {
    if expire.Some? then expire.value else 0
  }

  predicate Live(store: Store, k: Key, now: Time) {
    k in store && now < store[k].storedAt + store[k].ttl
  }

  function AnswerOf(r: Result<Value, string>): Body {
    match r case Ok(v) => Returned(v) case Err(e) => Raised(e)
  }

  function HeadersIf(c: Call, fails: bool, h: Headers): Option<Headers> {
    if c.hasResponse && !fails then Some(h) else None
  }

  /** From the request to the first await. */
  function FirstStage(cfg: Config, c: Call, now: Time): Stage {
    if Uncacheable(cfg, c) then Calling(false, None, now) else Getting
  }

  function AfterGet(s: State, c: Call, fails: bool): Progress {
    Pending(if fails || !Live(s.store, c.key, s.now) then Calling(true, None, s.now)
            else Expiring(s.store[c.key], s.now))
  }

  /** `max-age` is what `expires_in` says of the entry now stored, or else the captured expiry. */
  function RemainingTtl(s: State, k: Key): int {
    if Live(s.store, k, s.now) then s.store[k].storedAt + s.store[k].ttl - s.now else TtlOf(s.expire)
  }

  predicate Revalidates(c: Call, etag: string) {
    c.hasResponse && c.request.Some? && c.request.value.ifNoneMatch == Some(etag)
  }

  function AfterExpires(env: Env, s: State, c: Call, e: Entry, gotAt: Time, fails: bool, headersFail: bool): Progress {
    if fails || ForcesRefresh(c) then Pending(Calling(true, None, s.now))
    else
      var etag := env.tag(e.bytes);
      var headers := HeadersIf(c, headersFail, Headers(RemainingTtl(s, c.key), etag, true));
      if Revalidates(c, etag) then Replied(NotModified(etag), headers, FromStore(e, gotAt))
      else
        match env.decode(e.bytes)
        case Some(v) => Replied(Returned(v), headers, FromStore(e, gotAt))
        case None => Pending(Calling(false, headers, s.now))
  }

  function AfterCall(env: Env, c: Call, stage: Stage, readAt: Time): Progress
    requires stage.Calling?
  {
    var r := env.endpoint(c.key, readAt);
    if stage.fill && r.Ok? && env.encode(r.value).Some? then
      Pending(Setting(r.value, env.encode(r.value).value, stage.startedAt, readAt))
    else Replied(AnswerOf(r), stage.headers, FromCall(None, stage.startedAt, readAt))
  }

  function AfterSet(env: Env, s: State, c: Call, stage: Stage, headersFail: bool): Progress
    requires stage.Setting?
  {
    Replied(Returned(stage.v),
            HeadersIf(c, headersFail, Headers(TtlOf(s.expire), env.tag(stage.bytes), false)),
            FromCall(Some(stage.bytes), stage.startedAt, stage.readAt))
  }

  function Written(s: State, c: Call, stage: Stage, fault: SetFault): Store
    requires stage.Setting?
  {
    if fault.Lost? then s.store
    else s.store[c.key := Entry(stage.bytes, s.now, TtlOf(s.expire), stage.startedAt, stage.readAt)]
  }

  /** The await can come back so: a call reads its answer while it runs. */
  predicate Matches(stage: Stage, now: Time, input: Input) {
    match stage
    case Getting => input.Got?
    case Expiring(_, _) => input.Remaining?
    case Calling(_, _, startedAt) => input.Answered? && startedAt <= input.readAt <= now
    case Setting(_, _, _, _) => input.WasSet?
  }

  /** One segment of a request: from an await to the next one, or to the reply. */
  function Advance(env: Env, s: State, f: Frame, input: Input): Progress
    requires Matches(f.stage, s.now, input)
  {
    match f.stage
    case Getting => AfterGet(s, f.c, input.fails)
    case Expiring(e, gotAt) => AfterExpires(env, s, f.c, e, gotAt, input.fails, input.headersFail)
    case Calling(_, _, _) => AfterCall(env, f.c, f.stage, input.readAt)
    case Setting(_, _, _, _) => AfterSet(env, s, f.c, f.stage, input.headersFail)
  }

  function StoreAfter(s: State, f: Frame, input: Input): Store
    requires Matches(f.stage, s.now, input)
  {
    if f.stage.Setting? then Written(s, f.c, f.stage, input.fault) else s.store
  }

  // ---------------------------------------------------------------- the machine

  function Without<T>(m: map<Id, T>, id: Id): (r: map<Id, T>)
    ensures forall i :: i in r <==> i in m && i != id
    ensures forall i | i in r :: r[i] == m[i]
  {
    m - {id}
  }

  function CallsIf(stage: Stage): nat {
    if stage.Calling? then 1 else 0
  }

  predicate Allowed(env: Env, s: State, step: Step) {
    match step
    case Arrive(id, _) => id !in s.frames
    case Resume(id, input) => id in s.frames && Matches(s.frames[id].stage, s.now, input)
    case Evict(_) => true
    case Corrupt(k, junk) => k in s.store && env.decode(junk).None?
    case Tick(_) => true
  }

  function ArriveIn(cfg: Config, s: State, id: Id, c: Call): State {
    var stage := FirstStage(cfg, c, s.now);
    s.(frames := s.frames[id := Frame(c, s.now, stage)], calls := s.calls + CallsIf(stage),
       expire := if Uncacheable(cfg, c) then s.expire else Some(Effective(cfg, s.expire)))
  }

  function ResumeIn(env: Env, s: State, id: Id, input: Input): State
    requires id in s.frames && Matches(s.frames[id].stage, s.now, input)
  {
    var f := s.frames[id];
    var store := StoreAfter(s, f, input);
    match Advance(env, s, f, input)
    case Pending(stage) =>
      s.(frames := s.frames[id := f.(stage := stage)], store := store, calls := s.calls + CallsIf(stage))
    case Replied(body, headers, source) =>
      s.(frames := Without(s.frames, id), store := store,
         replies := s.replies + [Reply(f.c, f.arrivedAt, s.now, body, headers, source)])
  }

  function Apply(env: Env, cfg: Config, s: State, step: Step): State
    requires Allowed(env, s, step)
  {
    match step
    case Arrive(id, c) => ArriveIn(cfg, s, id, c)
    case Resume(id, input) => ResumeIn(env, s, id, input)
    case Evict(k) => s.(store := s.store - {k})
    case Corrupt(k, junk) => s.(store := s.store[k := s.store[k].(bytes := junk)])
    case Tick(seconds) => s.(now := s.now + seconds)
  }

  /** A schedule entry that cannot happen is skipped. */
  function After(env: Env, cfg: Config, s: State, run: seq<Step>): State {
    if run == [] then s
    else
      var mid, step := After(env, cfg, s, run[..|run| - 1]), run[|run| - 1];
      if Allowed(env, mid, step) then Apply(env, cfg, mid, step) else mid
  }

  function Start(expire: Option<nat>, now: Time): State {
    State(expire, map[], now, map[], [], 0)
  }

  lemma OneMore(env: Env, cfg: Config, s: State, run: seq<Step>, step: Step)
    requires Allowed(env, After(env, cfg, s, run), step)
    ensures After(env, cfg, s, run + [step]) == Apply(env, cfg, After(env, cfg, s, run), step)
  {
    assert (run + [step])[..|run|] == run;
  }
}
