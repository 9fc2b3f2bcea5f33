/**
 The limiter object: its flag, probe timers and two counter stores, updated in place. Every
 method is proved against the functions of module RateLimiter, about which the laws are stated.
 */
module LimiterObject {
  import opened Common
  import opened RateLimiter

  class Limiter {
    const cfg: Config
    var storageDead: bool
    var checkBackendCount: nat
    var lastCheckBackend: real
    var mainStore: map<Key, nat>
    var fallbackStore: map<Key, nat>

    ghost function View(): State
      reads this
    {
      State(storageDead, checkBackendCount, lastCheckBackend, mainStore, fallbackStore)
    }

    constructor (cfg: Config, now: real)
      ensures this.cfg == cfg && View() == State(false, 0, now, map[], map[])
    {
      this.cfg := cfg;
      storageDead, checkBackendCount, lastCheckBackend := false, 0, now;
      mainStore, fallbackStore := map[], map[];
    }

    method ShouldCheckBackend(now: real) returns (b: bool)
      modifies this`checkBackendCount, this`lastCheckBackend
      ensures View() == Poll(old(View()), now) && b == MayProbe(old(View()), now)
    {
      if checkBackendCount > MAX_BACKEND_CHECKS {
        checkBackendCount := 0;
      }
      if now - lastCheckBackend > Pow2(checkBackendCount) as real {
        lastCheckBackend := now;
        checkBackendCount := checkBackendCount + 1;
        return true;
      }
      return false;
    }

    /** The fixed-window hit on whichever store is in use: count first, then compare. */
    method Hit(c: Charge) returns (ok: bool)
      modifies this`mainStore, this`fallbackStore
      ensures View() == WithStore(cfg, old(View()), Increment(StoreOf(cfg, old(View())), c))
      ensures ok == (Count(StoreOf(cfg, View()), c.key) <= c.key.item.amount)
    {
      if storageDead && cfg.fallbackEnabled {
        fallbackStore := Increment(fallbackStore, c);
        ok := fallbackStore[c.key] <= c.key.item.amount;
      } else {
        mainStore := Increment(mainStore, c);
        ok := mainStore[c.key] <= c.key.item.amount;
      }
    }

    method EvaluateLimits(req: Request, limits: seq<Limit>, faults: seq<Fault>)
      returns (verdict: Verdict, header: Option<Key>, rest: seq<Fault>, charges: seq<Charge>)
      modifies this`mainStore, this`fallbackStore
      ensures var before := old(View());
              var e := Evaluate(cfg, req, limits, OnFallback(cfg, before), StoreOf(cfg, before), faults, None, []);
              && View() == WithStore(cfg, before, e.store)
              && (verdict, header, rest, charges) == (e.verdict, e.header, e.faults, e.charges)
    {
      ghost var before := View();
      var onFallback := storageDead && cfg.fallbackEnabled;
      var headerLimit: Option<Key> := None;
      rest, charges := faults, [];
      ghost var expected := Evaluate(cfg, req, limits, onFallback, StoreOf(cfg, before), faults, None, []);
      for i := 0 to |limits|
        invariant View() == WithStore(cfg, before, StoreOf(cfg, View()))
        invariant expected == Evaluate(cfg, req, limits[i..], onFallback, StoreOf(cfg, View()), rest, headerLimit, charges)
      {
        assert limits[i..][0] == limits[i] && limits[i..][1..] == limits[i + 1..];
        var lim := limits[i];
        if lim.broken {
          return Errored, None, rest, charges;
        }
        if !Applies(lim, req) {
          continue;
        }
        var c := Charge(KeyOf(cfg, lim, req), lim.cost);
        headerLimit := BetterHeader(headerLimit, c.key);
        var fault := NextFault(onFallback, rest);
        rest := LaterFaults(onFallback, rest);
        if fault.RaiseBefore? {
          return Errored, None, rest, charges;
        }
        var ok := Hit(c);
        if fault.RaiseAfter? {
          return Errored, None, rest, charges;
        }
        if !ok {
          return Exceeded(lim), Some(c.key), rest, charges;
        }
        charges := charges + [c];
      }
      return Passed, headerLimit, rest, charges;
    }

    method CheckRequestLimit(req: Request, faults: seq<Fault>)
      returns (outcome: Outcome, header: Option<Key>, reentries: nat)
      modifies this
      ensures Checked(View(), outcome, header, reentries) == Check(cfg, old(View()), req, faults)
      decreases Reserve(View(), req.now)
    {
      if req.skipped {
        return Skipped, None, 0;
      }
      ghost var before := View();
      var verdict, rest, charges := Errored, faults, [];
      header := None;
      var limits: seq<Limit> := [];
      var raised := false;
      if storageDead && cfg.fallbackEnabled {
        if req.inMiddleware && req.marked {
        } else {
          var probing := ShouldCheckBackend(req.now);
          if probing && req.probe.Raises? {
            raised := true;
          } else if probing && req.probe.Up? {
            storageDead := false;
            checkBackendCount := 0;
          } else {
            limits := cfg.inMemoryFallback;
          }
        }
      }
      assert View() == AfterProbing(cfg, before, req);
      if !raised {
        if limits == [] {
          limits := OriginalLimits(cfg, req);
        }
        assert limits == LimitsFor(cfg, before, req);
        verdict, header, rest, charges := EvaluateLimits(req, limits, faults);
      }
      assert Pass(cfg, before, req, faults).0 == View();
      match verdict {
        case Passed => return Admitted(storageDead && cfg.fallbackEnabled, charges), header, 0;
        case Exceeded(lim) => return Rejected(lim), header, 0;
        case Errored =>
          if cfg.fallbackEnabled && !storageDead {
            storageDead := true;
            outcome, header, reentries := CheckRequestLimit(req, rest);
            reentries := reentries + 1;
          } else {
            return ErrorOutcome(cfg), None, 0;
          }
      }
    }
  }
}
