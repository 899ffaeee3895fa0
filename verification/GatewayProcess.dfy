/** The gateway runtime object: fields updated step by step, each method proved to do what the
    corresponding step of the run model does. */
module GatewayProcess {
  import opened Options
  import opened GatewayTypes
  import opened GatewayFirewall
  import R = GatewayRuntime
  import Ex = GatewayExecutor
  import opened GatewayRuns
  import opened GatewayExpiry

  /** The outside answers of a cycle, with the validator's two answers filled in. */
  function Judged(env: R.Env, publicKey: string, egress: string): R.Env {
    var desired := R.Incoming(env);
    env.(accepted := desired.Some? && DesiredOk(desired.value, publicKey, env.now, egress),
         verifyAccepted := desired.Some? && DesiredOk(desired.value, publicKey, env.verifiedAt, egress))
  }

  class Runtime {
    const applier: Ex.Executor
    var floor: R.Floor
    var configurationVersion: int
    var attemptedVersion: int
    var policyVersion: int
    var validUntil: Option<Time>
    var status: R.Status
    var diagnostic: string
    var terminalReason: string
    var disabled: bool
    var pending: Option<R.Report>
    var desired: Option<Desired>
    var pollInterval: int
    var heartbeatInterval: int
    var disk: seq<Option<R.Floor>>
    var handed: seq<Desired>
    var outcomes: seq<R.Report>
    var reported: seq<R.Report>

    /** NewRuntime: nothing known yet, disabled. */
    constructor (applier: Ex.Executor, disk: seq<Option<R.Floor>>, handed: seq<Desired>)
      ensures this.applier == applier
      ensures Snapshot() == R.World(true, R.FreshRuntime(R.NO_FLOOR), applier.Current(), disk, handed, [], [])
    {
      this.applier, floor := applier, R.NO_FLOOR;
      configurationVersion, attemptedVersion, policyVersion, validUntil := 0, 0, 0, None;
      status, diagnostic, terminalReason, disabled := R.Unhealthy, "configuration_unavailable", "", true;
      pending, desired, pollInterval, heartbeatInterval := None, None, 60 * SECOND, 60 * SECOND;
      this.disk, this.handed, outcomes, reported := disk, handed, [], [];
    }

    function Memory(): R.Runtime
      reads this
    {
      R.Runtime(floor, configurationVersion, attemptedVersion, policyVersion, validUntil, status, diagnostic, terminalReason,
                disabled, pending, desired, pollInterval, heartbeatInterval)
    }

    function Snapshot(): R.World
      reads this, applier
    {
      R.World(true, Memory(), applier.Current(), disk, handed, outcomes, reported)
    }

    /** ConfigureState: take over the floor the file shows, unless it is not a proper one. */
    method ConfigureState() returns (ok: bool)
      requires disk != []
      modifies this`floor
      ensures ok <==> (disk[|disk| - 1].Some? ==> disk[|disk| - 1].value.version >= 1 && disk[|disk| - 1].value.policy >= 1)
      ensures floor == if ok && disk[|disk| - 1].Some? then disk[|disk| - 1].value else old(floor)
    {
      var found := disk[|disk| - 1];
      if found.None? {
        return true;
      }
      if found.value.version < 1 || found.value.policy < 1 {
        return false;
      }
      floor := found.value;
      return true;
    }

    /** The start of a process: disable the system, then read the floor; either failing ends the process. A start
        over a consistent world gives a consistent world. */
    method Start() returns (ok: bool)
      requires disk != [] && applier.previous.None? && Memory() == R.FreshRuntime(R.NO_FLOOR) && outcomes == reported == []
      modifies this, applier
      ensures var booted := R.Boot(applier.script, old(Snapshot()).(up := false));
              ok == booted.up && applier.Current() == booted.executor && (ok ==> Snapshot() == booted)
      ensures ok && Consistent(old(Snapshot()).(up := false)) ==> Consistent(Snapshot())
    {
      ghost var down := Snapshot().(up := false);
      if Consistent(down) {
        EventIsConsistent(applier.script, down, R.Boots);
      }
      ok := applier.Disable();
      if ok {
        ok := ConfigureState();
      }
    }

    method SetStatus(status: R.Status, diagnostic: string)
      modifies this`status, this`diagnostic
      ensures Snapshot() == R.WithStatus(old(Snapshot()), status, diagnostic)
    {
      this.status, this.diagnostic := status, diagnostic;
    }

    method Expire(now: Time) returns (ok: bool)
      modifies this, applier
      ensures R.Progress(Snapshot(), ok) == R.Expire(applier.script, old(Snapshot()), now)
    {
      if validUntil.None? || validUntil.value > now || disabled {
        return true;
      }
      ok := applier.Disable();
      if !ok {
        SetStatus(R.Unhealthy, "expired_configuration_disable_failed");
        return;
      }
      SetStatus(R.Unhealthy, "configuration_expired");
      disabled := true;
    }

    method ReportPending(acknowledged: bool) returns (ok: bool)
      modifies this
      ensures R.Progress(Snapshot(), ok) == R.ReportPending(old(Snapshot()), acknowledged)
    {
      if pending.None? {
        return true;
      }
      if !acknowledged {
        SetStatus(R.Degraded, "configuration_report_failed");
        return false;
      }
      reported := reported + [pending.value];
      pending := None;
      return true;
    }

    method Receive(poll: Option<R.Message>, now: Time, maxSkew: int) returns (ok: bool)
      modifies this`status, this`diagnostic
      ensures R.Progress(Snapshot(), ok) == R.Receive(old(Snapshot()), poll, now, maxSkew)
    {
      ok := false;
      if poll.None? {
        SetStatus(R.Degraded, "control_unavailable");
      } else if !poll.value.forUs {
        SetStatus(R.Degraded, "invalid_configuration_message");
      } else if !R.InWindow(poll.value, now, maxSkew) {
        SetStatus(R.Degraded, "expired_configuration_message");
      } else if poll.value.payload.None? || poll.value.expiresAt != poll.value.payload.value.validUntil {
        SetStatus(R.Degraded, "invalid_configuration_payload");
      } else {
        ok := true;
      }
    }

    /** rememberConfiguration: refuse, recognise, or write the next floor before moving to it. */
    method RememberConfiguration(next: Desired, write: R.Write) returns (ok: bool)
      modifies this`floor, this`disk
      ensures R.Recalled(ok, floor, disk) == R.Recall(old(floor), old(disk), write, next)
    {
      if next.configurationVersion < floor.version || next.policyVersion < floor.policy {
        return false;
      }
      if next.configurationVersion == floor.version && floor.version > 0 {
        return floor.digest == Some(Identity(next));
      }
      var raised := R.FloorOf(next);
      disk := R.AfterWrite(disk, raised, write);
      if !write.Synced? {
        return false;
      }
      floor := raised;
      return true;
    }

    method Remember(write: R.Write, next: Desired) returns (ok: bool)
      modifies this, applier
      ensures R.Progress(Snapshot(), ok) == R.Remember(applier.script, old(Snapshot()), write, next)
    {
      ok := RememberConfiguration(next, write);
      if !ok {
        var _ := applier.Disable();
        SetStatus(R.Unhealthy, "configuration_floor_rejected");
        disabled := true;
      }
    }

    method Confirm(next: Desired)
      modifies this`desired, this`validUntil, this`status, this`diagnostic, this`disabled
      ensures Memory() == R.Confirmed(old(Memory()), next)
    {
      desired, validUntil, status, diagnostic, disabled := Some(next), Some(next.validUntil), R.Healthy, "", false;
    }

    method DisableOnDrift(reason: string)
      modifies this`status, this`diagnostic, this`disabled, applier
      ensures Snapshot() == R.Drifted(applier.script, old(Snapshot()), reason)
    {
      var ok := applier.Disable();
      if ok {
        SetStatus(R.Unhealthy, reason);
        disabled := true;
      } else {
        SetStatus(R.Unhealthy, "configuration_drift_disable_failed");
      }
    }

    method CheckDrift(now: Time, next: Desired)
      modifies this, applier
      ensures Snapshot() == R.CheckDrift(applier.script, old(Snapshot()), DesiredOk(next, applier.publicKey, now, applier.egress), next)
    {
      handed := handed + [next];
      var outcome := applier.Verify(next, now);
      if outcome.status == "applied" {
        Confirm(next);
      } else {
        DisableOnDrift(outcome.reason);
      }
    }

    method AdoptIntervals(next: Desired)
      modifies this`pollInterval, this`heartbeatInterval
      ensures Memory() == R.AdoptIntervals(old(Memory()), next)
    {
      if next.intervals.Some? && R.ValidInterval(next.intervals.value.heartbeatSeconds) && R.ValidInterval(next.intervals.value.pollSeconds) {
        heartbeatInterval := next.intervals.value.heartbeatSeconds * SECOND;
        pollInterval := next.intervals.value.pollSeconds * SECOND;
      }
    }

    method HandleKnown(now: Time, next: Desired) returns (go: bool)
      modifies this, applier
      ensures R.Progress(Snapshot(), go) ==
                R.HandleKnown(applier.script, old(Snapshot()), DesiredOk(next, applier.publicKey, now, applier.egress), next)
    {
      AdoptIntervals(next);
      if next.configurationVersion < configurationVersion || next.configurationVersion < attemptedVersion {
        SetStatus(R.Degraded, "stale_configuration");
        return false;
      }
      if next.configurationVersion == attemptedVersion && attemptedVersion > configurationVersion {
        SetStatus(R.Degraded, terminalReason);
        return false;
      }
      if next.configurationVersion == configurationVersion && configurationVersion > 0 && !disabled {
        CheckDrift(now, next);
        return false;
      }
      return true;
    }

    method RecordOutcome(next: Desired, outcome: Ex.Outcome, report: R.Report)
      modifies this`desired, this`configurationVersion, this`attemptedVersion, this`policyVersion, this`validUntil, this`status,
               this`diagnostic, this`disabled, this`terminalReason, this`pending, this`outcomes
      ensures Memory() == R.Recorded(old(Memory()), next, outcome, report) && outcomes == old(outcomes) + [report]
    {
      if outcome.status == "applied" {
        desired := Some(next);
        configurationVersion, attemptedVersion := next.configurationVersion, next.configurationVersion;
        policyVersion, validUntil := next.policyVersion, Some(next.validUntil);
        status, diagnostic, disabled, terminalReason := R.Healthy, "", false, "";
      } else {
        attemptedVersion, status := next.configurationVersion, R.Degraded;
        diagnostic, terminalReason := outcome.reason, outcome.reason;
      }
      pending := Some(report);
      outcomes := outcomes + [report];
    }

    method ApplyAndRecord(now: Time, next: Desired) returns (report: R.Report)
      modifies this, applier
      ensures var a := Ex.ApplyDesired(applier.script, old(applier.Current()), next, now,
                                       DesiredOk(next, applier.publicKey, now, applier.egress));
              Snapshot() == R.Attempted(old(Snapshot()), a, next) && report == R.ReportFor(next, a.outcome)
    {
      var outcome := applier.Apply(next, now);
      handed := handed + [next];
      report := R.ReportFor(next, outcome);
      RecordOutcome(next, outcome, report);
    }

    method Attempt(now: Time, acknowledged: bool, next: Desired)
      modifies this, applier
      ensures Snapshot() == R.Attempt(applier.script, old(Snapshot()), now, DesiredOk(next, applier.publicKey, now, applier.egress),
                                      acknowledged, next).world
    {
      var report := ApplyAndRecord(now, next);
      if acknowledged {
        reported := reported + [report];
        pending := None;
      }
    }

    /** From the floor check on. */
    method Handle(env: R.Env, next: Desired)
      requires R.Incoming(env) == Some(next)
      modifies this, applier
      ensures Snapshot() == HandleOf(applier.script, old(Snapshot()), Judged(env, applier.publicKey, applier.egress), next)
    {
      var ok := Remember(env.write, next);
      if !ok {
        return;
      }
      ok := HandleKnown(env.verifiedAt, next);
      if !ok {
        return;
      }
      Attempt(env.now, env.acknowledged, next);
    }

    /** Everything between the two expiry checks. */
    method Body(env: R.Env)
      modifies this, applier
      ensures Snapshot() == BodyOf(applier.script, old(Snapshot()), Judged(env, applier.publicKey, applier.egress))
    {
      var ok := ReportPending(env.pendingAcknowledged);
      if !ok {
        return;
      }
      ok := Receive(env.poll, env.now, env.maxSkew);
      if !ok {
        return;
      }
      Handle(env, env.poll.value.payload.value);
    }

    /** One cycle: whatever happens inside, the closing expiry check runs. */
    method Cycle(env: R.Env)
      modifies this, applier
      ensures Snapshot() == R.Cycle(applier.script, old(Snapshot()), Judged(env, applier.publicKey, applier.egress))
      ensures Consistent(old(Snapshot())) && R.WellFormed(env) ==> Consistent(Snapshot())
      ensures Consistent(old(Snapshot())) && Held(old(Snapshot())) && R.WellFormed(env) ==> Held(Snapshot())
      ensures R.IsExpired(Memory(), env.endedAt) ==> EndsWithFailedDisable(applier.log)
    {
      ghost var start, judged := Snapshot(), Judged(env, applier.publicKey, applier.egress);
      BodyIsSteps(applier.script, start, judged);
      CycleKeeps(applier.script, start, judged);
      var ok := Expire(env.now);
      if !ok {
        return;
      }
      Body(env);
      var _ := Expire(env.endedAt);
    }
  }

  /** What a cycle keeps, gathered for the object. */
  lemma CycleKeeps(script: seq<Ex.Answer>, w: R.World, env: R.Env)
    requires w.up
    ensures Consistent(w) && R.WellFormed(env) ==> Consistent(R.Cycle(script, w, env))
    ensures Consistent(w) && Held(w) && R.WellFormed(env) ==> Held(R.Cycle(script, w, env))
    ensures R.IsExpired(R.Cycle(script, w, env).runtime, env.endedAt) ==> EndsWithFailedDisable(R.Cycle(script, w, env).executor.log)
  {
    CycleEnforcesExpiry(script, w, env);
    if Consistent(w) && R.WellFormed(env) {
      CycleIsConsistent(script, w, env);
      if Held(w) {
        CycleHolds(script, w, env);
      }
    }
  }

  /** Steps 2 to 6, written as one function. */
  function BodyOf(script: seq<Ex.Answer>, w: R.World, env: R.Env): R.World {
    var p2 := R.ReportPending(w, env.pendingAcknowledged);
    if !p2.go then p2.world else
    var p3 := R.Receive(p2.world, env.poll, env.now, env.maxSkew);
    if !p3.go then p3.world else HandleOf(script, p3.world, env, R.Incoming(env).value)
  }

  /** Steps 4 to 6. */
  function HandleOf(script: seq<Ex.Answer>, w: R.World, env: R.Env, desired: Desired): R.World {
    var p4 := R.Remember(script, w, env.write, desired);
    if !p4.go then p4.world else
    var p5 := R.HandleKnown(script, p4.world, env.verifyAccepted, desired);
    if !p5.go then p5.world else R.Attempt(script, p5.world, env.now, env.accepted, env.acknowledged, desired).world
  }

  lemma BodyIsSteps(script: seq<Ex.Answer>, w: R.World, env: R.Env)
    ensures var p := R.Expire(script, w, env.now);
            p.go ==> R.Steps(script, w, env, 6).world == BodyOf(script, p.world, env)
  {
    var p0, p1, p2, p3 := R.Steps(script, w, env, 0), R.Steps(script, w, env, 1), R.Steps(script, w, env, 2), R.Steps(script, w, env, 3);
    var p4, p5, p6 := R.Steps(script, w, env, 4), R.Steps(script, w, env, 5), R.Steps(script, w, env, 6);
    assert p0 == R.Progress(w, true);
    assert p1 == R.Step(script, w, env, 1);
    assert p1.go ==> p2 == R.Step(script, p1.world, env, 2);
    assert p2.go ==> p3 == R.Step(script, p2.world, env, 3);
    assert p3.go ==> p4 == R.Step(script, p3.world, env, 4);
    assert p4.go ==> p5 == R.Step(script, p4.world, env, 5);
    assert p5.go ==> p6 == R.Step(script, p5.world, env, 6);
  }
}
