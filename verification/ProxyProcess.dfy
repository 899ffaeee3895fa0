/** The proxy runner object: fields updated step by step, each method proved to do what the corresponding
    step of the run model does. */
module ProxyProcess {
  import opened Options
  import opened ProxyEngine
  import P = ProxyRunner

  class Runner {
    const kind: string
    const engine: Engine
    var seen: P.Floor
    var appliedRevision: int
    var enabled: bool
    var lastAttempt: Option<Applied>
    var attemptReported: bool
    var validUntil: Option<Time>
    var suspended: bool
    var reasonCode: string
    var disk: Option<P.Floor>
    var handed: seq<Configuration>

    /** NewRunner over the floor file it found, which has passed restoreConfigurationFloor. */
    constructor (setup: P.Setup, file: Option<string>, disk: Option<P.Floor>, handed: seq<Configuration>)
      requires disk.Some? ==> disk.value.revision >= 1 && disk.value.policy >= 0
      ensures fresh(engine) && Setup() == setup
      ensures Snapshot() == P.Boot(P.World(false, P.FreshRunner(P.NO_FLOOR), IDLE.(file := file), disk, handed))
    {
      kind := setup.engine;
      engine := new Engine(setup.controller, file);
      seen := P.OnDisk(disk);
      appliedRevision, enabled, lastAttempt, attemptReported := 0, false, None, false;
      validUntil, suspended, reasonCode := None, false, "";
      this.disk, this.handed := disk, handed;
    }

    /** Which engine this runner drives. */
    function Setup(): P.Setup { P.Setup(kind, engine.controller) }

    function Memory(): P.Runner
      reads this
    {
      P.Runner(seen, appliedRevision, enabled, lastAttempt, attemptReported, validUntil, suspended, reasonCode)
    }

    function Snapshot(): P.World
      reads this, engine
    {
      P.World(true, Memory(), engine.Current(), disk, handed)
    }

    method Suspend(reason: string)
      modifies this`enabled, this`suspended, this`reasonCode, engine`process, engine`guard
      ensures Snapshot() == P.Suspended(old(Snapshot()), reason)
    {
      engine.Stop();
      enabled, suspended, reasonCode := false, true, reason;
    }

    method Resume(gap: int, pollInterval: int)
      modifies this, engine
      ensures Snapshot() == P.Resume(old(Snapshot()), gap, pollInterval).world
    {
      var longest := 15 * P.SECOND;
      if 3 * pollInterval > longest {
        longest := 3 * pollInterval;
      }
      if gap < 0 || gap > longest {
        Suspend("system_resume_requires_refresh");
      }
    }

    method Expire(now: Time)
      modifies this, engine
      ensures Snapshot() == P.Expire(old(Snapshot()), now).world
    {
      if enabled && (validUntil.None? || validUntil.value <= now) {
        Suspend("configuration_expired");
      }
    }

    method Receive(polled: P.Polled) returns (go: bool)
      modifies this, engine
      ensures P.Progress(Snapshot(), go) == P.Receive(Setup(), old(Snapshot()), polled)
    {
      go := false;
      match polled
      case PollError(unsafe) =>
        if unsafe {
          Suspend("protection_unavailable");
        }
      case NoConfiguration =>
        Suspend("configuration_unavailable");
      case Got(desired) =>
        if desired.engine != kind {
          Suspend("engine_mismatch");
        } else if desired.revision < seen.revision ||
                  (desired.revision == seen.revision && (Some(DigestOf(desired)) != seen.digest || desired.enabled != seen.enabled)) {
          Suspend("stale_configuration");
        } else {
          go := true;
        }
    }

    /** rememberConfiguration: refuse a policy regression, recognise the floor, or write the next one first. */
    method RememberConfiguration(desired: Configuration, written: bool) returns (ok: bool)
      modifies this`seen, this`disk
      ensures var p := P.Remember(old(Snapshot()), desired, written);
              ok == p.go && disk == p.world.disk && seen == p.world.runner.seen
      ensures !ok ==> disk == old(disk) && seen == old(seen)
    {
      var policy := seen.policy;
      if desired.protection.Some? {
        if desired.protection.value.policyVersion < policy {
          return false;
        }
        policy := desired.protection.value.policyVersion;
      }
      var digest := DigestOf(desired);
      if desired.revision == seen.revision && Some(digest) == seen.digest && desired.enabled == seen.enabled && policy == seen.policy {
        return true;
      }
      if !written {
        return false;
      }
      disk := Some(P.Floor(desired.revision, policy, Some(digest), desired.enabled));
      seen := disk.value;
      return true;
    }

    method Remember(desired: Configuration, written: bool) returns (ok: bool)
      modifies this, engine
      ensures P.Progress(Snapshot(), ok) == P.Remember(old(Snapshot()), desired, written)
    {
      ok := RememberConfiguration(desired, written);
      if !ok {
        Suspend("configuration_floor_unavailable");
      }
    }

    method Attempt(desired: Configuration, env: ApplyEnv)
      modifies this, engine
      ensures Snapshot() == P.Attempt(Setup(), old(Snapshot()), desired, env)
    {
      handed := handed + [desired];
      var applied := engine.Apply(desired, env);
      lastAttempt, attemptReported := Some(applied), false;
      if applied.status == "applied" {
        appliedRevision, enabled := desired.revision, desired.enabled;
        suspended, reasonCode := false, "";
      } else {
        Suspend(applied.reason);
      }
    }

    method ApplyConfiguration(desired: Configuration, env: ApplyEnv, now: Time)
      modifies this, engine
      ensures Snapshot() == P.ApplyStep(Setup(), old(Snapshot()), desired, env, now).world
    {
      var refreshBootstrap := desired.enabled && (engine.bootstrapAt.None? || now - engine.bootstrapAt.value >= P.BOOTSTRAP_LIFE);
      if desired.revision != appliedRevision || suspended || refreshBootstrap {
        if lastAttempt.None? || lastAttempt.value.revision != desired.revision || suspended || refreshBootstrap {
          Attempt(desired, env);
        }
      }
    }

    method Renew(desired: Configuration, refreshed: bool) returns (go: bool)
      modifies this, engine
      ensures P.Progress(Snapshot(), go) == P.Renew(old(Snapshot()), desired, refreshed)
    {
      if appliedRevision != desired.revision || suspended {
        return true;
      }
      if desired.enabled {
        if engine.guard.None? || !refreshed {
          Suspend("egress_lease_failed");
          return false;
        }
        engine.guard := Some(desired.validUntil);
      }
      validUntil := Some(desired.validUntil);
      return true;
    }

    method Acknowledge(acknowledged: bool) returns (go: bool)
      modifies this`attemptReported
      ensures P.Progress(Snapshot(), go) == P.Acknowledge(old(Snapshot()), acknowledged)
    {
      if lastAttempt.Some? && !attemptReported {
        if !acknowledged {
          return false;
        }
        attemptReported := true;
      }
      return true;
    }

    method EnsureRunning(env: HealthEnv)
      modifies this, engine
      ensures Snapshot() == P.EnsureRunning(Setup(), old(Snapshot()), env).world
    {
      if enabled {
        var healthy := engine.CheckHealth(env);
        if !healthy {
          Suspend("engine_state_drift");
        }
      }
    }

    /** syncConfiguration after a poll, up to the acknowledgement. */
    method SyncConfiguration(env: P.Env) returns (go: bool)
      modifies this, engine
      ensures P.Progress(Snapshot(), go) == Synced(Setup(), old(Snapshot()), env)
    {
      var polled := P.Outcome(env.poll, env.polledAt);
      go := Receive(polled);
      if !go {
        return;
      }
      var desired := polled.desired;
      go := Remember(desired, env.written);
      if !go {
        return;
      }
      ApplyConfiguration(desired, env.apply, env.appliedAt);
      go := Renew(desired, env.refreshed);
      if !go {
        return;
      }
      go := Acknowledge(env.acknowledged);
    }

    /** One turn of the Run loop. */
    method Iterate(env: P.Env)
      modifies this, engine
      ensures Snapshot() == P.Iterate(Setup(), old(Snapshot()), env)
      ensures P.Settled(old(Snapshot())) && P.DurableWorld(old(Snapshot())) && P.WellFormed(env) ==>
                && P.Settled(Snapshot()) && P.DurableWorld(Snapshot())
                && P.FloorLeq(P.OnDisk(old(disk)), P.OnDisk(disk))
                && (enabled ==> engine.process && engine.guard == validUntil && validUntil.Some? && validUntil.value > env.endedAt)
                && (!enabled ==> Idle(engine.Current()))
    {
      ghost var start := Snapshot();
      SyncedIsSteps(Setup(), start, env);
      if P.Settled(start) && P.DurableWorld(start) && P.WellFormed(env) {
        P.IterationSettles(Setup(), start, env);
        P.EventIsDurable(Setup(), start, P.Iterates(env));
      }
      Resume(env.gap, env.pollInterval);
      Expire(env.now);
      var go := SyncConfiguration(env);
      if go {
        EnsureRunning(env.health);
      }
      Expire(env.endedAt);
    }
  }

  /** Steps 3 to 7, written as one function. */
  function Synced(setup: P.Setup, w: P.World, env: P.Env): P.Progress {
    var p3 := P.Receive(setup, w, P.Outcome(env.poll, env.polledAt));
    if !p3.go then p3 else
    var desired := P.Outcome(env.poll, env.polledAt).desired;
    var p4 := P.Remember(p3.world, desired, env.written);
    if !p4.go then p4 else
    var p5 := P.ApplyStep(setup, p4.world, desired, env.apply, env.appliedAt);
    var p6 := P.Renew(p5.world, desired, env.refreshed);
    if !p6.go then p6 else P.Acknowledge(p6.world, env.acknowledged)
  }

  lemma SyncedIsSteps(setup: P.Setup, w: P.World, env: P.Env)
    ensures var woken := P.Expire(P.Resume(w, env.gap, env.pollInterval).world, env.now).world;
            var p := Synced(setup, woken, env);
            P.Steps(setup, w, env, 8) == if p.go then P.EnsureRunning(setup, p.world, env.health) else p
  {
    var p1, p2, p3 := P.Steps(setup, w, env, 1), P.Steps(setup, w, env, 2), P.Steps(setup, w, env, 3);
    var p4, p5, p6 := P.Steps(setup, w, env, 4), P.Steps(setup, w, env, 5), P.Steps(setup, w, env, 6);
    var p7, p8 := P.Steps(setup, w, env, 7), P.Steps(setup, w, env, 8);
    assert P.Steps(setup, w, env, 0) == P.Progress(w, true);
    assert p1 == P.Step(setup, w, env, 1);
    assert p2 == P.Step(setup, p1.world, env, 2);
    assert p3 == P.Step(setup, p2.world, env, 3);
    assert p3.go ==> p4 == P.Step(setup, p3.world, env, 4);
    assert p4.go ==> p5 == P.Step(setup, p4.world, env, 5);
    assert p5.go ==> p6 == P.Step(setup, p5.world, env, 6);
    assert p6.go ==> p7 == P.Step(setup, p6.world, env, 7);
    assert p7.go ==> p8 == P.Step(setup, p7.world, env, 8);
  }
}
