/** Whole-run properties of the gateway runtime beyond the version floor: runtime and executor agree,
    outcome reports are neither lost nor reordered, every installation is guarded, expiry is enforced. */
module GatewayRuns {
  import opened Options
  import opened GatewayTypes
  import opened GatewayRuntime
  import Ex = GatewayExecutor

  // ---- Runtime and executor agree ----

  /** Inside a cycle the floor may already be ahead of the last attempt. */
  predicate AgreesInside(w: World) {
    var r := w.runtime;
    && (r.status.Healthy? ==> !r.disabled && r.configurationVersion == r.attemptedVersion)
    && 0 <= r.configurationVersion <= r.attemptedVersion <= r.floor.version
    && (!r.disabled ==> r.configurationVersion > 0)
    && (r.configurationVersion > 0 ==>
          && r.desired.Some? && r.desired.value.configurationVersion == r.configurationVersion
          && r.validUntil == Some(r.desired.value.validUntil) && r.policyVersion == r.desired.value.policyVersion
          && (r.configurationVersion == r.floor.version ==> r.floor.digest == Some(Identity(r.desired.value))))
    && (!r.disabled && r.configurationVersion == r.attemptedVersion ==>
          w.executor.previous.Some? && Identity(w.executor.previous.value) == Identity(r.desired.value))
  }

  /** Between cycles the floor is where the last attempt was. */
  predicate Agrees(w: World) {
    w.up ==> AgreesInside(w) && (w.runtime.attemptedVersion > 0 ==> w.runtime.floor.version == w.runtime.attemptedVersion)
  }

  lemma ExpireAgrees(script: seq<Ex.Answer>, w: World, now: Time)
    requires w.up && Agrees(w)
    ensures Agrees(Expire(script, w, now).world)
  {
    if IsExpired(w.runtime, now) {
      var d := Ex.DisableLocked(script, w.executor);
      assert !d.ok ==> d.state.previous == w.executor.previous;
    }
  }

  lemma RememberAgrees(script: seq<Ex.Answer>, w: World, write: Write, desired: Desired)
    requires w.up && Agrees(w) && desired.configurationVersion >= 1
    ensures var p := Remember(script, w, write, desired);
            if p.go then AgreesInside(p.world) else Agrees(p.world)
  {
  }

  lemma CheckDriftAgrees(script: seq<Ex.Answer>, w: World, accepted: bool, desired: Desired)
    requires w.up && AgreesInside(w) && IsFloorOf(w.runtime.floor, desired)
    requires desired.configurationVersion == w.runtime.configurationVersion > 0 && !w.runtime.disabled
    ensures Agrees(CheckDrift(script, w, accepted, desired))
  {
    var v := Ex.VerifyDesired(script, w.executor, desired, accepted);
    assert v.state.previous == w.executor.previous;
    var d := Ex.DisableLocked(script, v.state);
    assert !d.ok ==> d.state.previous == w.executor.previous;
  }

  lemma HandleKnownAgrees(script: seq<Ex.Answer>, w: World, accepted: bool, desired: Desired)
    requires w.up && AgreesInside(w) && IsFloorOf(w.runtime.floor, desired) && desired.configurationVersion >= 1
    ensures var p := HandleKnown(script, w, accepted, desired);
            if p.go then AgreesInside(p.world) && (desired.configurationVersion == p.world.runtime.configurationVersion ==> p.world.runtime.disabled)
            else Agrees(p.world)
  {
    var w0 := w.(runtime := AdoptIntervals(w.runtime, desired));
    assert AgreesInside(w0);
    if desired.configurationVersion == w.runtime.configurationVersion > 0 && !w.runtime.disabled {
      CheckDriftAgrees(script, w0, accepted, desired);
    }
  }

  lemma AttemptAgrees(script: seq<Ex.Answer>, w: World, now: Time, accepted: bool, acknowledged: bool, desired: Desired)
    requires w.up && AgreesInside(w) && IsFloorOf(w.runtime.floor, desired) && desired.configurationVersion >= 1
    requires desired.configurationVersion == w.runtime.configurationVersion ==> w.runtime.disabled
    ensures Agrees(Attempt(script, w, now, accepted, acknowledged, desired).world)
  {
    var a := Ex.ApplyDesired(script, w.executor, desired, now, accepted);
    Ex.ApplyFailsClosed(script, w.executor, desired, now, accepted);
    assert a.outcome.status == "applied" ==> a.state.previous == Some(desired);
  }

  /** What holds after step `n`: agreement inside the cycle after a successful floor check, else between cycles. */
  predicate AgreesAfter(p: Progress, env: Env, n: nat) {
    if p.go && 4 <= n <= 5 then
      AgreesInside(p.world) &&
      (n == 5 && Incoming(env).Some? ==>
         (Incoming(env).value.configurationVersion == p.world.runtime.configurationVersion ==> p.world.runtime.disabled))
    else Agrees(p.world)
  }

  lemma StatusAgrees(w: World, status: Status, diagnostic: string)
    requires Agrees(w) && !status.Healthy?
    ensures Agrees(WithStatus(w, status, diagnostic))
  {
  }

  lemma ReportPendingAgrees(w: World, acknowledged: bool)
    requires w.up && Agrees(w)
    ensures Agrees(ReportPending(w, acknowledged).world)
  {
    StatusAgrees(w, Degraded, "configuration_report_failed");
  }

  lemma ReceiveAgrees(w: World, poll: Option<Message>, now: Time, maxSkew: int)
    requires w.up && Agrees(w)
    ensures Agrees(Receive(w, poll, now, maxSkew).world)
  {
    var after := Receive(w, poll, now, maxSkew);
    if !after.go {
      assert after.world == WithStatus(w, Degraded, after.world.runtime.diagnostic);
      StatusAgrees(w, Degraded, after.world.runtime.diagnostic);
    }
  }

  lemma StepAgrees(script: seq<Ex.Answer>, w: World, env: Env, n: nat)
    requires w.up && 1 <= n <= 6 && WellFormed(env) && (n > 3 ==> Incoming(env).Some?) && AgreesAfter(Progress(w, true), env, n - 1)
    requires n > 4 ==> IsFloorOf(w.runtime.floor, Incoming(env).value)
    ensures AgreesAfter(Step(script, w, env, n), env, n)
  {
    match n
    case 1 => ExpireAgrees(script, w, env.now);
    case 2 => ReportPendingAgrees(w, env.pendingAcknowledged);
    case 3 => ReceiveAgrees(w, env.poll, env.now, env.maxSkew);
    case 4 => RememberAgrees(script, w, env.write, Incoming(env).value);
    case 5 => HandleKnownAgrees(script, w, env.verifyAccepted, Incoming(env).value);
    case 6 => AttemptAgrees(script, w, env.now, env.accepted, env.acknowledged, Incoming(env).value);
  }

  lemma {:induction false} StepsAgree(script: seq<Ex.Answer>, w: World, env: Env, n: nat)
    requires w.up && Durable(w) && Agrees(w) && WellFormed(env) && n <= 6
    ensures AgreesAfter(Steps(script, w, env, n), env, n)
  {
    if n > 0 {
      StepsAgree(script, w, env, n - 1);
      StepsAreDurable(script, w, env, n - 1);
      var p := Steps(script, w, env, n - 1);
      if p.go {
        StepAgrees(script, p.world, env, n);
      }
    }
  }

  // ---- Reports ----

  /** Acknowledged reports are all outcomes so far, except the last one while it is pending. */
  predicate ReportsInOrder(w: World) {
    match w.runtime.pending
    case None => w.reported == w.outcomes
    case Some(report) => w.outcomes == w.reported + [report]
  }

  lemma {:induction false} StepsReportInOrder(script: seq<Ex.Answer>, w: World, env: Env, n: nat)
    requires ReportsInOrder(w)
    ensures var p := Steps(script, w, env, n);
            ReportsInOrder(p.world) && (p.go && n >= 2 ==> p.world.runtime.pending.None?)
  {
    if n > 0 {
      StepsReportInOrder(script, w, env, n - 1);
      var p := Steps(script, w, env, n - 1);
      if p.go {
        StepReports(script, p.world, env, n);
      }
    }
  }

  lemma StepReports(script: seq<Ex.Answer>, w: World, env: Env, n: nat)
    requires ReportsInOrder(w) && (n > 3 ==> Incoming(env).Some?) && (n > 2 ==> w.runtime.pending.None?)
    ensures var p := Step(script, w, env, n);
            ReportsInOrder(p.world) && (p.go && n >= 2 ==> p.world.runtime.pending.None?)
  {
    match n
    case 0 =>
    case 1 => ExpireReports(script, w, env.now);
    case 2 =>
    case 3 =>
    case 4 =>
    case 5 => HandleKnownReports(script, w, env.verifyAccepted, Incoming(env).value);
    case 6 =>
    case _ =>
  }

  predicate SameReports(w: World, after: World) {
    after.reported == w.reported && after.outcomes == w.outcomes && after.runtime.pending == w.runtime.pending
  }

  lemma ExpireReports(script: seq<Ex.Answer>, w: World, now: Time)
    ensures SameReports(w, Expire(script, w, now).world)
  {
  }

  lemma HandleKnownReports(script: seq<Ex.Answer>, w: World, accepted: bool, desired: Desired)
    ensures SameReports(w, HandleKnown(script, w, accepted, desired).world)
  {
    CheckDriftFrame(script, w.(runtime := AdoptIntervals(w.runtime, desired)), accepted, desired);
  }

  // ---- Every installation in a run is guarded ----

  ghost predicate AllGuarded(w: World) { Ex.InstallsGuarded(w.executor.log, 0) }

  /** A stretch of calls added to the log, itself guarded. */
  ghost predicate Extends(log: seq<Ex.Entry>, longer: seq<Ex.Entry>) {
    log <= longer && Ex.InstallsGuarded(longer, |log|)
  }

  lemma ExtendKeepsGuarded(log: seq<Ex.Entry>, longer: seq<Ex.Entry>)
    requires Ex.InstallsGuarded(log, 0) && Extends(log, longer)
    ensures Ex.InstallsGuarded(longer, 0)
  {
    assert longer[..|log|] == log;
    Ex.GuardedConcat(longer, 0, |log|);
  }

  lemma ExtendTwice(a: seq<Ex.Entry>, b: seq<Ex.Entry>, c: seq<Ex.Entry>)
    requires Extends(a, b) && Extends(b, c)
    ensures Extends(a, c)
  {
    assert c[..|b|] == b;
    Ex.GuardedConcat(c, |a|, |b|);
  }

  lemma DisableExtends(script: seq<Ex.Answer>, s: Ex.State)
    ensures Extends(s.log, Ex.DisableLocked(script, s).state.log)
  {
  }

  lemma ExpireExtends(script: seq<Ex.Answer>, w: World, now: Time)
    ensures Extends(w.executor.log, Expire(script, w, now).world.executor.log)
  {
    DisableExtends(script, w.executor);
  }

  lemma StepExtends(script: seq<Ex.Answer>, w: World, env: Env, n: nat)
    requires n > 3 ==> Incoming(env).Some?
    ensures Extends(w.executor.log, Step(script, w, env, n).world.executor.log)
  {
    match n
    case 0 =>
    case 1 => ExpireExtends(script, w, env.now);
    case 2 =>
    case 3 =>
    case 4 => RememberExtends(script, w, env.write, Incoming(env).value);
    case 5 => HandleKnownExtends(script, w, env.verifyAccepted, Incoming(env).value);
    case 6 => AttemptExtends(script, w, env.now, env.accepted, env.acknowledged, Incoming(env).value);
    case _ =>
  }

  lemma RememberExtends(script: seq<Ex.Answer>, w: World, write: Write, desired: Desired)
    ensures Extends(w.executor.log, Remember(script, w, write, desired).world.executor.log)
  {
    DisableExtends(script, w.executor);
  }

  lemma HandleKnownExtends(script: seq<Ex.Answer>, w: World, accepted: bool, desired: Desired)
    ensures Extends(w.executor.log, HandleKnown(script, w, accepted, desired).world.executor.log)
  {
    CheckDriftExtends(script, w.(runtime := AdoptIntervals(w.runtime, desired)), accepted, desired);
  }

  lemma AttemptExtends(script: seq<Ex.Answer>, w: World, now: Time, accepted: bool, acknowledged: bool, desired: Desired)
    ensures Extends(w.executor.log, Attempt(script, w, now, accepted, acknowledged, desired).world.executor.log)
  {
    Ex.ApplyFailsClosed(script, w.executor, desired, now, accepted);
  }

  lemma CheckDriftExtends(script: seq<Ex.Answer>, w: World, accepted: bool, desired: Desired)
    ensures Extends(w.executor.log, CheckDrift(script, w, accepted, desired).executor.log)
  {
    var v := Ex.VerifyDesired(script, w.executor, desired, accepted);
    assert Extends(w.executor.log, v.state.log);
    DisableExtends(script, v.state);
    ExtendTwice(w.executor.log, v.state.log, Ex.DisableLocked(script, v.state).state.log);
  }

  lemma {:induction false} StepsExtend(script: seq<Ex.Answer>, w: World, env: Env, n: nat)
    ensures Extends(w.executor.log, Steps(script, w, env, n).world.executor.log)
  {
    if n > 0 {
      StepsExtend(script, w, env, n - 1);
      var p := Steps(script, w, env, n - 1);
      if p.go {
        StepExtends(script, p.world, env, n);
        ExtendTwice(w.executor.log, p.world.executor.log, Step(script, p.world, env, n).world.executor.log);
      }
    }
  }

  // ---- All together, over every run ----

  ghost predicate Consistent(w: World) { Durable(w) && Agrees(w) && (w.up ==> ReportsInOrder(w)) && AllGuarded(w) }

  lemma {:induction false} CycleIsConsistent(script: seq<Ex.Answer>, w: World, env: Env)
    requires Consistent(w) && w.up && WellFormed(env)
    ensures Consistent(Cycle(script, w, env))
  {
    var body := Steps(script, w, env, 6);
    StepsAgree(script, w, env, 6);
    StepsReportInOrder(script, w, env, 6);
    StepsExtend(script, w, env, 6);
    StepsAreDurable(script, w, env, 6);
    EventIsDurable(script, w, Cycles(env));
    ExpireFrame(script, w, env.now);
    ExpireAgrees(script, w, env.now);
    ExpireReports(script, w, env.now);
    ExpireExtends(script, w, env.now);
    ExpireAgrees(script, body.world, env.endedAt);
    ExpireReports(script, body.world, env.endedAt);
    ExpireExtends(script, body.world, env.endedAt);
    ExtendTwice(w.executor.log, body.world.executor.log, Expire(script, body.world, env.endedAt).world.executor.log);
    ExtendKeepsGuarded(w.executor.log, Cycle(script, w, env).executor.log);
  }

  lemma {:induction false} EventIsConsistent(script: seq<Ex.Answer>, w: World, event: Event)
    requires Consistent(w) && WellFormedEvent(event)
    ensures Consistent(Happen(script, w, event))
  {
    EventIsDurable(script, w, event);
    match event
    case Cycles(env) =>
      if w.up {
        CycleIsConsistent(script, w, env);
      }
    case Dies(env, steps, _) =>
      StepsExtend(script, w, env, steps);
      ExtendKeepsGuarded(w.executor.log, Steps(script, w, env, steps).world.executor.log);
    case Boots =>
      DisableExtends(script, Ex.State(None, w.executor.log));
      ExtendKeepsGuarded(w.executor.log, Ex.DisableLocked(script, Ex.State(None, w.executor.log)).state.log);
  }

  lemma {:induction false} RunsAreConsistent(script: seq<Ex.Answer>, events: seq<Event>)
    requires forall i :: 0 <= i < |events| ==> WellFormedEvent(events[i])
    ensures Consistent(RunOf(script, events))
  {
    if events != [] {
      RunsAreConsistent(script, events[..|events| - 1]);
      RunsAreDurable(script, events[..|events| - 1]);
      EventIsConsistent(script, RunOf(script, events[..|events| - 1]), events[|events| - 1]);
    }
  }

  /** Between cycles of any run: healthy means enabled at one positive version that is also the floor's,
      and while enabled with nothing newer attempted, the executor's last good configuration is the
      runtime's own document. */
  lemma RuntimeAndExecutorAgree(script: seq<Ex.Answer>, events: seq<Event>)
    requires forall i :: 0 <= i < |events| ==> WellFormedEvent(events[i])
    ensures var w := RunOf(script, events);
            w.up ==>
              && (w.runtime.status.Healthy? ==>
                    !w.runtime.disabled && w.runtime.configurationVersion == w.runtime.attemptedVersion == w.runtime.floor.version > 0)
              && (!w.runtime.disabled && w.runtime.configurationVersion == w.runtime.attemptedVersion > 0 ==>
                    && w.runtime.desired.Some? && w.executor.previous.Some?
                    && w.runtime.desired.value.configurationVersion == w.runtime.configurationVersion
                    && w.runtime.desired.value.policyVersion == w.runtime.policyVersion
                    && Identity(w.executor.previous.value) == Identity(w.runtime.desired.value)
                    && w.runtime.floor.digest == Some(Identity(w.runtime.desired.value)))
  {
    RunsAreConsistent(script, events);
  }

  /** In one process, the acknowledged outcomes are the outcomes in order, missing at most the last. */
  lemma ReportsAreAPrefix(script: seq<Ex.Answer>, events: seq<Event>)
    requires forall i :: 0 <= i < |events| ==> WellFormedEvent(events[i])
    ensures var w := RunOf(script, events);
            w.up ==> w.reported <= w.outcomes && |w.outcomes| - |w.reported| <= 1 &&
                     (|w.reported| < |w.outcomes| <==> w.runtime.pending.Some?)
  {
    RunsAreConsistent(script, events);
  }

  /** In the System log of any run, across crashes, every Install directly follows a good Baseline. */
  lemma EveryInstallIsGuarded(script: seq<Ex.Answer>, events: seq<Event>)
    requires forall k :: 0 <= k < |events| ==> WellFormedEvent(events[k])
    ensures var log := RunOf(script, events).executor.log;
            forall i :: 0 <= i < |log| && log[i].call.Install? ==> i > 0 && log[i - 1].call.Baseline? && Ex.Good(log[i - 1])
  {
    RunsAreConsistent(script, events);
  }

  // ---- Expiry ----

  ghost predicate EndsWithFailedDisable(log: seq<Ex.Entry>) {
    && |log| >= 2
    && log[|log| - 2].call.Baseline? && log[|log| - 1].call.Shutdown?
    && !(Ex.Good(log[|log| - 2]) && Ex.Good(log[|log| - 1]))
  }

  lemma ExpireEnforces(script: seq<Ex.Answer>, w: World, now: Time)
    ensures var p := Expire(script, w, now);
            && (p.go ==> !IsExpired(p.world.runtime, now))
            && (!p.go ==> EndsWithFailedDisable(p.world.executor.log))
  {
  }

  /** A completed cycle leaves an expired configuration enabled only if its last act was a failed disable. */
  lemma CycleEnforcesExpiry(script: seq<Ex.Answer>, w: World, env: Env)
    ensures var after := Cycle(script, w, env);
            IsExpired(after.runtime, env.endedAt) ==> EndsWithFailedDisable(after.executor.log)
  {
    ExpireEnforces(script, w, env.now);
    ExpireEnforces(script, Steps(script, w, env, 6).world, env.endedAt);
  }

  /** runtimeIntervalJitter: any delay within a fifth of the interval. */
  predicate IsJittered(delay: int, interval: int) { interval - interval / 5 <= delay <= interval + interval / 5 }

  function NextDelay(r: Runtime, now: Time, jittered: int): int {
    if r.disabled || r.validUntil.None? then jittered
    else
      var untilExpiry := r.validUntil.value - now;
      if 0 < untilExpiry < jittered then untilExpiry else jittered
  }

  /** While a configuration is active and unexpired, the next cycle starts no later than its deadline and
      no later than the jittered interval. */
  lemma WakesBeforeDeadline(r: Runtime, now: Time, jittered: int)
    requires !r.disabled && r.validUntil.Some? && r.validUntil.value > now && IsJittered(jittered, r.pollInterval)
    ensures now + NextDelay(r, now, jittered) <= r.validUntil.value
    ensures NextDelay(r, now, jittered) <= r.pollInterval + r.pollInterval / 5
    ensures r.pollInterval > 0 ==> NextDelay(r, now, jittered) > 0
  {
  }

  predicate Ready(r: Runtime, now: Time) {
    r.configurationVersion > 0 && r.status.Healthy? && !r.disabled && r.validUntil.Some? && r.validUntil.value > now
  }

  /** A runtime that reports ready has installed, read back and not disabled the document at its floor. */
  lemma ReadyMeansInstalled(script: seq<Ex.Answer>, events: seq<Event>, now: Time)
    requires forall i :: 0 <= i < |events| ==> WellFormedEvent(events[i])
    requires RunOf(script, events).up && Ready(RunOf(script, events).runtime, now)
    ensures var w := RunOf(script, events);
            && w.executor.previous.Some? && w.executor.previous.value.validUntil > now
            && w.runtime.floor.digest == Some(Identity(w.executor.previous.value))
            && w.runtime.floor.version == w.executor.previous.value.configurationVersion
  {
    RunsAreConsistent(script, events);
    var w := RunOf(script, events);
    assert Identity(w.executor.previous.value).validUntil == Identity(w.runtime.desired.value).validUntil;
    assert Identity(w.executor.previous.value).configurationVersion == Identity(w.runtime.desired.value).configurationVersion;
  }
}
