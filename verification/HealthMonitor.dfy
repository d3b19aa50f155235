// The health monitor as the object the cache and the proxy share. Each method
// is one section under its lock and is tied to the effect that Health gives it.
module HealthMonitor {
  import H = Health

  class Monitor {
    const config: H.Config
    var healthCache: map<string, H.Status>
    var inflight: multiset<H.Check>
    var callbacks: multiset<string>
    var doomed: multiset<string>
    var log: seq<H.Event>

    constructor (config: H.Config)
      ensures this.config == config && View() == H.Empty()
    {
      this.config := config;
      healthCache := map[];
      inflight, callbacks, doomed := multiset{}, multiset{}, multiset{};
      log := [];
    }

    function View(): H.Monitor
      reads this
    {
      H.Monitor(healthCache, inflight, callbacks, doomed, log)
    }

    method RegisterService(serviceKey: string, ip: string, port: int, now: int)
      modifies this
      ensures View() == H.Register(config, old(View()), serviceKey, ip, port, now)
    {
      if !config.enabled {
        return;
      }
      if serviceKey !in healthCache {
        healthCache := healthCache[serviceKey := H.Status(true, now, 0, ip, port)];
        log := log + [H.Event(serviceKey, H.Created(true), now)];
        inflight := inflight + multiset{H.Check(serviceKey, ip, port)};
      }
    }

    method UnregisterService(serviceKey: string, now: int)
      modifies this
      ensures View() == H.Unregister(config, old(View()), serviceKey, now)
    {
      if !config.enabled {
        return;
      }
      if serviceKey in healthCache {
        healthCache := healthCache - {serviceKey};
        log := log + [H.Event(serviceKey, H.Removed, now)];
      }
    }

    method IsHealthy(serviceKey: string, now: int) returns (healthy: bool)
      modifies this
      ensures View() == H.Ask(config, old(View()), serviceKey, now)
      ensures healthy == H.Verdict(config, old(View()), serviceKey, now)
    {
      if !config.enabled {
        return true;
      }
      if serviceKey !in healthCache {
        return false;
      }
      var status := healthCache[serviceKey];
      if now - status.lastChecked > config.checkInterval * 3 {
        status := status.(healthy := false, lastChecked := now);
        healthCache := healthCache[serviceKey := status];
        log := log + [H.Event(serviceKey, H.Stale, now)];
      }
      return status.healthy;
    }

    /** Launches the check of one more key. */
    method LaunchCheck(k: string, ghost before: multiset<H.Check>, ghost done: set<string>)
      requires done <= healthCache.Keys && k in healthCache.Keys - done
      requires inflight == before + multiset(H.Snapshot(healthCache, done))
      modifies this`inflight
      ensures inflight == before + multiset(H.Snapshot(healthCache, done + {k}))
    {
      H.SnapshotAdd(healthCache, done, k);
      inflight := inflight + multiset{H.Check(k, healthCache[k].ip, healthCache[k].port)};
    }

    /** Takes a snapshot of every address and launches a check for each. */
    method PerformHealthChecks()
      modifies this`inflight
      ensures View() == H.StartRound(old(View()))
    {
      var left := healthCache.Keys;
      ghost var done := {};
      while left != {}
        invariant done <= healthCache.Keys && left == healthCache.Keys - done
        invariant inflight == old(inflight) + multiset(H.Snapshot(healthCache, done))
        decreases left
      {
        var k :| k in left;
        LaunchCheck(k, old(inflight), done);
        left := left - {k};
        done := done + {k};
      }
      assert done == healthCache.Keys;
    }

    /** A check of an address whose dial has ended with `ok`. */
    method CheckServiceHealth(check: H.Check, ok: bool, now: int)
      requires check in inflight
      modifies this
      ensures View() == H.Finish(config, old(View()), check, ok, now)
    {
      if check.key !in healthCache {
        healthCache := healthCache[check.key := H.Status(false, now, 0, "", 0)];
        log := log + [H.Event(check.key, H.Created(false), now)];
      }
      assert View() == H.Revive(old(View()), check.key, now);
      RecordResult(check, ok, now);
    }

    /** The rest of the check, on an entry that is there. */
    method RecordResult(check: H.Check, ok: bool, now: int)
      requires check in inflight && check.key in healthCache
      modifies this
      ensures View() == H.Record(config, old(View()), check, ok, now)
    {
      inflight := inflight - multiset{check};
      var status := healthCache[check.key].(lastChecked := now);
      if ok {
        status := HandleHealthyService(status, check.key);
        healthCache := healthCache[check.key := status];
      } else {
        ghost var e := healthCache[check.key];
        assert H.Launches(config, status) == H.Launches(config, e);
        assert H.Worse(config, status, now) == H.Worse(config, e, now);
        status := HandleUnhealthyService(status, check.key);
        healthCache := healthCache[check.key := status];
      }
    }

    method HandleHealthyService(status: H.Status, serviceKey: string) returns (r: H.Status)
      modifies this`log
      ensures r == status.(healthy := true, failures := 0)
      ensures log == old(log) + [H.Event(serviceKey, H.Success, status.lastChecked)]
    {
      r := status.(healthy := true, failures := 0);
      log := log + [H.Event(serviceKey, H.Success, status.lastChecked)];
    }

    method HandleUnhealthyService(status: H.Status, serviceKey: string) returns (r: H.Status)
      modifies this`callbacks, this`doomed, this`log
      ensures r == H.Worse(config, status, status.lastChecked)
      ensures var base := old(log) + [H.Event(serviceKey, H.CheckFailed, status.lastChecked)];
              if H.Launches(config, status) then
                && callbacks == old(callbacks) + multiset{serviceKey}
                && log == base + [H.Event(serviceKey, H.Launched, status.lastChecked)]
              else
                callbacks == old(callbacks) && log == base
      ensures doomed == if r.failures >= config.maxFailures * 3
                        then old(doomed) + multiset{serviceKey} else old(doomed)
    {
      r := status.(failures := status.failures + 1);
      log := log + [H.Event(serviceKey, H.CheckFailed, status.lastChecked)];
      if r.failures >= config.maxFailures {
        var wasHealthy := r.healthy;
        r := r.(healthy := false);
        if wasHealthy && config.wired {
          callbacks := callbacks + multiset{serviceKey};
          log := log + [H.Event(serviceKey, H.Launched, status.lastChecked)];
        }
      }
      if r.failures >= config.maxFailures * 3 {
        doomed := doomed + multiset{serviceKey};
      }
    }

    /** The goroutine a consistently failing key was given, once it runs. */
    method RunDelayedRemoval(serviceKey: string, now: int)
      requires serviceKey in doomed
      modifies this
      ensures View() == H.Expunge(config, old(View()), serviceKey, now)
    {
      doomed := doomed - multiset{serviceKey};
      UnregisterService(serviceKey, now);
    }

    method UpdateServicePerformance(serviceKey: string, success: bool, now: int)
      modifies this
      ensures View() == H.Serve(config, old(View()), serviceKey, success, now)
    {
      if serviceKey !in healthCache {
        healthCache := healthCache[serviceKey := H.Status(true, now, 0, "", 0)];
        log := log + [H.Event(serviceKey, H.Created(true), now)];
        return;
      }
      var status := healthCache[serviceKey].(lastChecked := now);
      if success {
        status := status.(healthy := true, failures := 0);
        log := log + [H.Event(serviceKey, H.Success, now)];
      } else {
        status := status.(failures := status.failures + 1);
        if status.failures >= config.maxFailures {
          status := status.(healthy := false);
        }
        log := log + [H.Event(serviceKey, H.RequestFailed, now)];
      }
      healthCache := healthCache[serviceKey := status];
    }
  }
}
