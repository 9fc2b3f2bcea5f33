/**
 The decorator's wrapper over real objects: the captured `expire` it rebinds, the backend it writes
 and the response whose headers and status it sets. One method per uninterrupted segment of the
 coroutine, each proved to be a step of the machine in module ResponseCache.
 */
module CachedEndpointObject {
  import opened Common
  import opened ResponseCache

  class Response {
    var headers: Option<Headers>
    var statusCode: int

    constructor ()
      ensures headers == None && statusCode == 200
    {
      headers, statusCode := None, 200;
    }

    method Update(h: Headers, fails: bool)
      modifies this`headers
      ensures headers == if fails then old(headers) else Some(h)
    {
      if !fails {
        headers := Some(h);
      }
    }
  }

  class Backend {
    var store: Store

    constructor ()
      ensures store == map[]
    {
      store := map[];
    }

    method Get(k: Key, now: Time, fails: bool) returns (r: Result<Option<Entry>, ()>)
      ensures r == if fails then Err(()) else Ok(if Live(store, k, now) then Some(store[k]) else None)
    {
      if fails {
        return Err(());
      }
      return Ok(if Live(store, k, now) then Some(store[k]) else None);
    }

    method ExpiresIn(k: Key, now: Time, fails: bool) returns (r: Result<Option<int>, ()>)
      ensures r == if fails then Err(())
                   else Ok(if Live(store, k, now) then Some(store[k].storedAt + store[k].ttl - now) else None)
    {
      if fails {
        return Err(());
      }
      return Ok(if Live(store, k, now) then Some(store[k].storedAt + store[k].ttl - now) else None);
    }

    method Set(k: Key, e: Entry, fault: SetFault)
      modifies this
      ensures store == if fault.Lost? then old(store) else old(store)[k := e]
    {
      if !fault.Lost? {
        store := store[k := e];
      }
    }
  }

  /** The headers a segment leaves on the response. */
  function HeadersOf(p: Progress): Option<Headers> {
    match p
    case Replied(_, headers, _) => headers
    case Pending(stage) => if stage.Calling? then stage.headers else None
  }

  class CachedEndpoint {
    const cfg: Config
    const backend: Backend
    var expire: Option<nat>
    var frames: map<Id, Frame>
    var replies: seq<Reply>
    var calls: nat

    ghost function View(now: Time): State
      reads this, backend
    {
      State(expire, backend.store, now, frames, replies, calls)
    }

    constructor (cfg: Config, backend: Backend, expire: Option<nat>)
      ensures this.cfg == cfg && this.backend == backend && this.expire == expire
      ensures frames == map[] && replies == [] && calls == 0
    {
      this.cfg, this.backend, this.expire := cfg, backend, expire;
      frames, replies, calls := map[], [], 0;
    }

    /** `await _call(...)` begins. */
    method BeginCall(id: Id, fill: bool, headers: Option<Headers>, now: Time)
      requires id in frames
      modifies this`frames, this`calls
      ensures frames == old(frames)[id := old(frames[id]).(stage := Calling(fill, headers, now))]
      ensures calls == old(calls) + 1
    {
      frames := frames[id := frames[id].(stage := Calling(fill, headers, now))];
      calls := calls + 1;
    }

    method Finish(id: Id, body: Body, headers: Option<Headers>, source: Source, now: Time)
      requires id in frames
      modifies this`frames, this`replies
      ensures frames == Without(old(frames), id)
      ensures replies == old(replies) + [Reply(old(frames[id]).c, old(frames[id]).arrivedAt, now, body, headers, source)]
    {
      replies := replies + [Reply(frames[id].c, frames[id].arrivedAt, now, body, headers, source)];
      frames := Without(frames, id);
    }

    /** `inner` up to its first await. */
    method Begin(id: Id, c: Call, now: Time)
      requires id !in frames
      modifies this`expire, this`frames, this`calls
      ensures View(now) == ArriveIn(cfg, old(View(now)), id, c)
    {
      frames := frames[id := Frame(c, now, Getting)];
      if Uncacheable(cfg, c) {
        BeginCall(id, false, None, now);
        return;
      }
      if expire.None? || expire.value == 0 {
        expire := Some(cfg.ttl);
      }
    }

    method GetReturns(env: Env, id: Id, fails: bool, now: Time)
      requires id in frames && frames[id].stage.Getting?
      modifies this`frames, this`calls
      ensures View(now) == ResumeIn(env, old(View(now)), id, Got(fails))
    {
      var got := backend.Get(frames[id].c.key, now, fails);
      if got.Err? || got.value.None? {
        BeginCall(id, true, None, now);
      } else {
        frames := frames[id := frames[id].(stage := Expiring(got.value.value, now))];
      }
    }

    /** The headers of a hit, and 304 when the client's tag matches. */
    method SetHitHeaders(env: Env, c: Call, e: Entry, ttl: Option<int>, response: Response, headersFail: bool)
      returns (headers: Option<Headers>, revalidated: bool)
      modifies response
      ensures var maxAge := if ttl.Some? then ttl.value else TtlOf(expire);
              headers == HeadersIf(c, headersFail, Headers(maxAge, env.tag(e.bytes), true))
      ensures revalidated == Revalidates(c, env.tag(e.bytes))
      ensures response.headers == if headers.Some? then headers else old(response.headers)
      ensures response.statusCode == if revalidated then 304 else old(response.statusCode)
    {
      headers, revalidated := None, false;
      if c.hasResponse {
        var h := Headers(if ttl.Some? then ttl.value else TtlOf(expire), env.tag(e.bytes), true);
        response.Update(h, headersFail);
        if !headersFail {
          headers := Some(h);
        }
        if c.request.Some? && c.request.value.ifNoneMatch == Some(env.tag(e.bytes)) {
          response.statusCode := 304;
          revalidated := true;
        }
      }
    }

    method ExpiresReturns(env: Env, id: Id, fails: bool, headersFail: bool, now: Time, response: Response)
      requires id in frames && frames[id].stage.Expiring?
      modifies this`frames, this`replies, this`calls, response
      ensures View(now) == ResumeIn(env, old(View(now)), id, Remaining(fails, headersFail))
      ensures var p := Advance(env, old(View(now)), old(frames[id]), Remaining(fails, headersFail));
              && response.headers == (if HeadersOf(p).Some? then HeadersOf(p) else old(response.headers))
              && response.statusCode == if p.Replied? && p.body.NotModified? then 304 else old(response.statusCode)
    {
      var f := frames[id];
      var e, gotAt := f.stage.entry, f.stage.gotAt;
      var ttl := backend.ExpiresIn(f.c.key, now, fails);
      if ttl.Err? || ForcesRefresh(f.c) {
        BeginCall(id, true, None, now);
        return;
      }
      var headers, revalidated := SetHitHeaders(env, f.c, e, ttl.value, response, headersFail);
      if revalidated {
        Finish(id, NotModified(env.tag(e.bytes)), headers, FromStore(e, gotAt), now);
        return;
      }
      match env.decode(e.bytes) {
        case Some(v) => Finish(id, Returned(v), headers, FromStore(e, gotAt), now);
        case None => BeginCall(id, false, headers, now);
      }
    }

    method CallReturns(env: Env, id: Id, readAt: Time, now: Time)
      requires id in frames && Matches(frames[id].stage, now, Answered(readAt)) && frames[id].stage.Calling?
      modifies this`frames, this`replies
      ensures View(now) == ResumeIn(env, old(View(now)), id, Answered(readAt))
    {
      var f := frames[id];
      var result := env.endpoint(f.c.key, readAt);
      if f.stage.fill && result.Ok? {
        var toCache := env.encode(result.value);
        if toCache.Some? {
          frames := frames[id := f.(stage := Setting(result.value, toCache.value, f.stage.startedAt, readAt))];
          return;
        }
      }
      Finish(id, AnswerOf(result), f.stage.headers, FromCall(None, f.stage.startedAt, readAt), now);
    }

    method SetReturns(env: Env, id: Id, fault: SetFault, headersFail: bool, now: Time, response: Response)
      requires id in frames && frames[id].stage.Setting?
      modifies this`frames, this`replies, backend, response`headers
      ensures View(now) == ResumeIn(env, old(View(now)), id, WasSet(fault, headersFail))
      ensures var h := HeadersOf(Advance(env, old(View(now)), old(frames[id]), WasSet(fault, headersFail)));
              response.headers == if h.Some? then h else old(response.headers)
    {
      var f := frames[id];
      var stage := f.stage;
      backend.Set(f.c.key, Entry(stage.bytes, now, TtlOf(expire), stage.startedAt, stage.readAt), fault);
      var headers := None;
      if f.c.hasResponse {
        var h := Headers(TtlOf(expire), env.tag(stage.bytes), false);
        response.Update(h, headersFail);
        if !headersFail {
          headers := Some(h);
        }
      }
      Finish(id, Returned(stage.v), headers, FromCall(Some(stage.bytes), stage.startedAt, stage.readAt), now);
    }
  }
}
