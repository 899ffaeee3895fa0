/** What a gateway cycle does with a poll: which configurations reach the applier, when the runtime counts itself
    healthy, and that a good poll is installed. */
module RuntimeLaws {
  import opened Options
  import opened GatewayTypes
  import opened GatewayRuntime
  import opened GatewayRuns
  import opened ExecutorLaws
  import P = GatewayProcess
  import Ex = GatewayExecutor

  // ---- A cycle, unrolled ----

  lemma CycleUnrolls(script: seq<Ex.Answer>, w: World, env: Env)
    ensures var first := Expire(script, w, env.now);
            Cycle(script, w, env) ==
              if !first.go then first.world else Expire(script, P.BodyOf(script, first.world, env), env.endedAt).world
  {
    P.BodyIsSteps(script, w, env);
  }

  // ---- Healthy means read back ----

  /** The last System call is a good readback of the runtime's own document. */
  ghost predicate JustReadBack(w: World) {
    && w.runtime.desired.Some? && w.executor.log != []
    && w.executor.log[|w.executor.log| - 1].call == Ex.Readback(w.runtime.desired.value)
    && Ex.Good(w.executor.log[|w.executor.log| - 1])
  }

  lemma CheckDriftIsExact(script: seq<Ex.Answer>, w: World, accepted: bool, desired: Desired)
    ensures var after := CheckDrift(script, w, accepted, desired);
            && w.executor.log <= after.executor.log
            && (accepted && ReadsBack(script, |w.executor.log|) ==>
                  after.runtime.status.Healthy? && after.runtime.desired == Some(desired) && JustReadBack(after)
                  && !after.runtime.disabled && |after.executor.log| > |w.executor.log|)
            && (!(accepted && ReadsBack(script, |w.executor.log|)) ==>
                  !after.runtime.status.Healthy? && (after.runtime.disabled || EndsWithFailedDisable(after.executor.log)))
  {
    VerifyMeansReadBack(script, w.executor, desired, accepted);
    DisableCalls(script, Ex.VerifyDesired(script, w.executor, desired, accepted).state);
  }

  /** The installed version again: healthy exactly after a good readback of it, and otherwise disabled or left with a
      disable attempt that failed. */
  lemma KnownVersionIsReadBack(script: seq<Ex.Answer>, w: World, accepted: bool, desired: Desired)
    requires desired.configurationVersion == w.runtime.configurationVersion == w.runtime.attemptedVersion > 0 && !w.runtime.disabled
    ensures var p := HandleKnown(script, w, accepted, desired);
            && !p.go && w.executor.log <= p.world.executor.log
            && (p.world.runtime.status.Healthy? <==> accepted && ReadsBack(script, |w.executor.log|))
            && (p.world.runtime.status.Healthy? ==> JustReadBack(p.world) && |p.world.executor.log| > |w.executor.log|)
            && (!p.world.runtime.status.Healthy? ==> p.world.runtime.disabled || EndsWithFailedDisable(p.world.executor.log))
  {
    CheckDriftIsExact(script, w.(runtime := AdoptIntervals(w.runtime, desired)), accepted, desired);
  }

  lemma HandleKnownHealth(script: seq<Ex.Answer>, w: World, accepted: bool, desired: Desired)
    ensures var p := HandleKnown(script, w, accepted, desired);
            && w.executor.log <= p.world.executor.log
            && (p.go ==> p.world.executor == w.executor)
            && (!p.go && p.world.runtime.status.Healthy? ==> JustReadBack(p.world) && |p.world.executor.log| > |w.executor.log|)
  {
    CheckDriftIsExact(script, w.(runtime := AdoptIntervals(w.runtime, desired)), accepted, desired);
  }

  lemma AttemptHealth(script: seq<Ex.Answer>, w: World, now: Time, accepted: bool, acknowledged: bool, desired: Desired)
    ensures var after := Attempt(script, w, now, accepted, acknowledged, desired).world;
            && w.executor.log <= after.executor.log
            && (after.runtime.status.Healthy? ==> JustReadBack(after) && |after.executor.log| > |w.executor.log|)
  {
    Ex.ApplyFailsClosed(script, w.executor, desired, now, accepted);
    ApplySucceedsExactlyWhen(script, w.executor, desired, now, accepted);
  }

  lemma HandleHealth(script: seq<Ex.Answer>, w: World, env: Env, desired: Desired)
    ensures var after := P.HandleOf(script, w, env, desired);
            after.runtime.status.Healthy? ==>
              JustReadBack(after) && w.executor.log <= after.executor.log && |after.executor.log| > |w.executor.log|
  {
    var p4 := Remember(script, w, env.write, desired);
    if p4.go {
      var p5 := HandleKnown(script, p4.world, env.verifyAccepted, desired);
      HandleKnownHealth(script, p4.world, env.verifyAccepted, desired);
      if p5.go {
        AttemptHealth(script, p5.world, env.now, env.accepted, env.acknowledged, desired);
      }
    }
  }

  lemma EarlyHealth(w: World, env: Env)
    ensures var p := ReportPending(w, env.pendingAcknowledged);
            p.world.executor == w.executor && (!p.go ==> !p.world.runtime.status.Healthy?)
    ensures var p := Receive(w, env.poll, env.now, env.maxSkew);
            p.world.executor == w.executor && (!p.go ==> !p.world.runtime.status.Healthy?)
  {
  }

  /** A cycle that ends healthy read the runtime's own document back, successfully, as the last thing it asked of the
      System in that very cycle. */
  lemma {:induction false} HealthyMeansReadBack(script: seq<Ex.Answer>, w: World, env: Env)
    ensures var after := Cycle(script, w, env);
            after.runtime.status.Healthy? ==>
              JustReadBack(after) && w.executor.log <= after.executor.log && |after.executor.log| > |w.executor.log|
  {
    CycleUnrolls(script, w, env);
    var first := Expire(script, w, env.now);
    ExpireHealth(script, w, env.now);
    if first.go {
      EarlyHealth(first.world, env);
      var p2 := ReportPending(first.world, env.pendingAcknowledged);
      if p2.go {
        EarlyHealth(p2.world, env);
        var p3 := Receive(p2.world, env.poll, env.now, env.maxSkew);
        if p3.go {
          HandleHealth(script, p3.world, env, Incoming(env).value);
        }
      }
      ExpireHealth(script, P.BodyOf(script, first.world, env), env.endedAt);
    }
  }

  /** The expiry check calls nothing and changes nothing, or ends unhealthy. */
  lemma ExpireHealth(script: seq<Ex.Answer>, w: World, now: Time)
    ensures var p := Expire(script, w, now);
            && w.executor.log <= p.world.executor.log
            && (p.world == w || !p.world.runtime.status.Healthy?) && (!p.go ==> !p.world.runtime.status.Healthy?)
  {
    DisableCalls(script, w.executor);
  }

  // ---- What reaches the applier ----

  /** The poll carried this configuration: addressed to this gateway, sent within the allowed skew, not expired, and
      with the message's own expiry as its deadline. */
  predicate CarriedNow(env: Env, desired: Desired) {
    && env.poll.Some? && env.poll.value.forUs && env.poll.value.payload == Some(desired)
    && env.poll.value.occurredAt >= env.now - env.maxSkew && env.poll.value.occurredAt <= env.now + env.maxSkew
    && env.poll.value.expiresAt > env.now && env.poll.value.expiresAt > env.poll.value.occurredAt
    && desired.validUntil == env.poll.value.expiresAt
  }

  lemma HandleHands(script: seq<Ex.Answer>, w: World, env: Env, desired: Desired)
    ensures var after := P.HandleOf(script, w, env, desired); after.handed == w.handed || after.handed == w.handed + [desired]
  {
    var p4 := Remember(script, w, env.write, desired);
    if p4.go {
      HandleKnownOnceHands(script, p4.world, env.verifyAccepted, desired);
      AttemptFrame(script, HandleKnown(script, p4.world, env.verifyAccepted, desired).world, env.now, env.accepted, env.acknowledged, desired);
    }
  }

  lemma HandleKnownOnceHands(script: seq<Ex.Answer>, w: World, accepted: bool, desired: Desired)
    ensures var p := HandleKnown(script, w, accepted, desired);
            (p.go ==> p.world.handed == w.handed) && (p.world.handed == w.handed || p.world.handed == w.handed + [desired])
  {
    CheckDriftFrame(script, w.(runtime := AdoptIntervals(w.runtime, desired)), accepted, desired);
  }

  lemma EarlyStepsHand(w: World, env: Env)
    ensures ReportPending(w, env.pendingAcknowledged).world.handed == w.handed
    ensures Receive(w, env.poll, env.now, env.maxSkew).world.handed == w.handed
  {
  }

  lemma BodyHands(script: seq<Ex.Answer>, w: World, env: Env)
    ensures var after := P.BodyOf(script, w, env);
            after.handed == w.handed ||
            (Incoming(env).Some? && CarriedNow(env, Incoming(env).value) && after.handed == w.handed + [Incoming(env).value])
  {
    EarlyStepsHand(w, env);
    var p2 := ReportPending(w, env.pendingAcknowledged);
    if p2.go {
      EarlyStepsHand(p2.world, env);
      var p3 := Receive(p2.world, env.poll, env.now, env.maxSkew);
      if p3.go {
        HandleHands(script, p3.world, env, Incoming(env).value);
      }
    }
  }

  /** A cycle hands the applier nothing but the configuration its own poll carried, and that at most once. */
  lemma {:induction false} HandedWasCarried(script: seq<Ex.Answer>, w: World, env: Env)
    ensures var after := Cycle(script, w, env);
            after.handed == w.handed || (|after.handed| > 0 && after.handed == w.handed + [after.handed[|after.handed| - 1]]
                                         && CarriedNow(env, after.handed[|after.handed| - 1]))
  {
    CycleUnrolls(script, w, env);
    var first := Expire(script, w, env.now);
    ExpireFrame(script, w, env.now);
    if first.go {
      BodyHands(script, first.world, env);
      ExpireFrame(script, P.BodyOf(script, first.world, env), env.endedAt);
    }
  }

  /** What is applied, and not merely read back, is a version above every attempted one, or the same version again after
      the runtime was disabled. */
  lemma AppliesOnlyNewVersions(script: seq<Ex.Answer>, w: World, accepted: bool, desired: Desired)
    requires AgreesInside(w)
    ensures HandleKnown(script, w, accepted, desired).go <==>
              || desired.configurationVersion > w.runtime.attemptedVersion
              || (desired.configurationVersion == w.runtime.attemptedVersion == w.runtime.configurationVersion && w.runtime.disabled)
  {
  }

  /** A version that failed is not tried again: its reason stays on show and the applier is not asked. */
  lemma FailureIsNotRetried(script: seq<Ex.Answer>, w: World, accepted: bool, desired: Desired)
    requires desired.configurationVersion == w.runtime.attemptedVersion > w.runtime.configurationVersion
    ensures var p := HandleKnown(script, w, accepted, desired);
            && !p.go && p.world.executor == w.executor && p.world.handed == w.handed && p.world.outcomes == w.outcomes
            && p.world.runtime.status.Degraded? && p.world.runtime.diagnostic == w.runtime.terminalReason
            && p.world.runtime.validUntil == w.runtime.validUntil && p.world.runtime.disabled == w.runtime.disabled
  {
  }

  /** A failed attempt is recorded with its reason and reported, and leaves what was in force in force. */
  lemma FailedAttemptKeepsCourse(script: seq<Ex.Answer>, w: World, now: Time, accepted: bool, acknowledged: bool, desired: Desired)
    requires Ex.ApplyDesired(script, w.executor, desired, now, accepted).outcome.status != "applied"
    ensures var after := Attempt(script, w, now, accepted, acknowledged, desired).world;
            var outcome := Ex.ApplyDesired(script, w.executor, desired, now, accepted).outcome;
            var report := Report(desired.configurationVersion, desired.policyVersion, outcome.status, outcome.hash, outcome.reason);
            && after.runtime.attemptedVersion == desired.configurationVersion && after.runtime.status.Degraded?
            && after.runtime.diagnostic == after.runtime.terminalReason == outcome.reason
            && after.runtime.configurationVersion == w.runtime.configurationVersion && after.runtime.policyVersion == w.runtime.policyVersion
            && after.runtime.desired == w.runtime.desired && after.runtime.validUntil == w.runtime.validUntil
            && after.runtime.disabled == w.runtime.disabled && after.outcomes == w.outcomes + [report]
            && after.reported == (if acknowledged then w.reported + [report] else w.reported)
            && after.runtime.pending == (if acknowledged then None else Some(report))
  {
  }

  // ---- Polls that bring nothing ----

  /** What is wrong with the poll: no answer, not for this gateway, out of its time window, or no payload with that expiry. */
  predicate Lacks(env: Env, reason: string) {
    match env.poll
    case None => reason == "control_unavailable"
    case Some(m) =>
      var timely := m.occurredAt >= env.now - env.maxSkew && m.occurredAt <= env.now + env.maxSkew && m.expiresAt > m.occurredAt && m.expiresAt > env.now;
      if !m.forUs then reason == "invalid_configuration_message"
      else if !timely then reason == "expired_configuration_message"
      else (m.payload.None? || m.payload.value.validUntil != m.expiresAt) && reason == "invalid_configuration_payload"
  }

  predicate Unexpired(r: Runtime, now: Time) { r.disabled || r.validUntil.None? || r.validUntil.value > now }

  /** An unexpired runtime with nothing to report only takes note of such a poll. */
  lemma BadPollOnlyDegrades(script: seq<Ex.Answer>, w: World, env: Env, reason: string)
    requires Lacks(env, reason) && w.runtime.pending.None? && Unexpired(w.runtime, env.now) && Unexpired(w.runtime, env.endedAt)
    ensures Cycle(script, w, env) == WithStatus(w, Degraded, reason)
  {
    CycleUnrolls(script, w, env);
    assert Receive(w, env.poll, env.now, env.maxSkew) == Progress(WithStatus(w, Degraded, reason), false);
  }

  /** A pending report that cannot be delivered stops the cycle there; one that is delivered is cleared. */
  lemma PendingReportComesFirst(script: seq<Ex.Answer>, w: World, env: Env)
    requires w.runtime.pending.Some? && Unexpired(w.runtime, env.now) && Unexpired(w.runtime, env.endedAt)
    ensures !env.pendingAcknowledged ==> Cycle(script, w, env) == WithStatus(w, Degraded, "configuration_report_failed")
    ensures env.pendingAcknowledged ==>
              Cycle(script, w, env) == Cycle(script, w.(reported := w.reported + [w.runtime.pending.value], runtime := w.runtime.(pending := None)), env)
  {
    CycleUnrolls(script, w, env);
    CycleUnrolls(script, w.(reported := w.reported + [w.runtime.pending.value], runtime := w.runtime.(pending := None)), env);
  }

  // ---- A good poll is installed ----

  /** An idle, unexpired runtime whose poll carries a newer configuration, with every answer good. */
  predicate GoodPoll(script: seq<Ex.Answer>, w: World, env: Env, desired: Desired) {
    && !IsExpired(w.runtime, env.now) && w.runtime.pending.None? && CarriedNow(env, desired)
    && desired.configurationVersion > w.runtime.floor.version && desired.policyVersion >= w.runtime.floor.policy
    && desired.configurationVersion > w.runtime.attemptedVersion && desired.configurationVersion > w.runtime.configurationVersion
    && env.write.Synced? && env.accepted && env.endedAt < desired.validUntil
    && Succeeds(script, |w.executor.log|) && Succeeds(script, |w.executor.log| + 1) && ReadsBack(script, |w.executor.log| + 2)
  }

  /** Such a poll is remembered on disk, installed, read back and reported, and the runtime ends healthy at it. */
  lemma {:induction false} GoodPollIsInstalled(script: seq<Ex.Answer>, w: World, env: Env, desired: Desired)
    requires GoodPoll(script, w, env, desired)
    ensures var after := Cycle(script, w, env);
            var report := Report(desired.configurationVersion, desired.policyVersion, "applied", script[|w.executor.log| + 2].hash, "");
            && after.runtime.status.Healthy? && !after.runtime.disabled && after.runtime.diagnostic == ""
            && after.runtime.configurationVersion == after.runtime.attemptedVersion == desired.configurationVersion
            && after.runtime.policyVersion == desired.policyVersion && after.runtime.validUntil == Some(desired.validUntil)
            && after.executor.previous == Some(desired) && |after.executor.log| == |w.executor.log| + 3
            && IsFloorOf(after.runtime.floor, desired) && after.disk == [Some(after.runtime.floor)]
            && after.handed == w.handed + [desired] && after.outcomes == w.outcomes + [report]
            && (env.acknowledged ==> after.reported == w.reported + [report] && after.runtime.pending.None?)
            && (!env.acknowledged ==> after.reported == w.reported && after.runtime.pending == Some(report))
  {
    CycleUnrolls(script, w, env);
    var w5 := GoodPollReachesApply(script, w, env, desired);
    ApplySucceedsExactlyWhen(script, w5.executor, desired, env.now, true);
    GoodAttempt(script, w5, env.now, env.acknowledged, desired);
    assert !IsExpired(Attempt(script, w5, env.now, true, env.acknowledged, desired).world.runtime, env.endedAt);
  }

  lemma GoodPollReachesApply(script: seq<Ex.Answer>, w: World, env: Env, desired: Desired) returns (w5: World)
    requires GoodPoll(script, w, env, desired)
    ensures Expire(script, w, env.now) == Progress(w, true)
    ensures w5 == w.(disk := [Some(FloorOf(desired))], runtime := AdoptIntervals(w.runtime.(floor := FloorOf(desired)), desired))
    ensures P.BodyOf(script, w, env) == Attempt(script, w5, env.now, true, env.acknowledged, desired).world
  {
    assert ReportPending(w, env.pendingAcknowledged) == Progress(w, true);
    assert Receive(w, env.poll, env.now, env.maxSkew) == Progress(w, true);
    var w4 := Remember(script, w, env.write, desired).world;
    assert w4 == w.(disk := [Some(FloorOf(desired))], runtime := w.runtime.(floor := FloorOf(desired)));
    w5 := HandleKnown(script, w4, env.verifyAccepted, desired).world;
    assert w5 == w4.(runtime := AdoptIntervals(w4.runtime, desired));
  }

  lemma GoodAttempt(script: seq<Ex.Answer>, w: World, now: Time, acknowledged: bool, desired: Desired)
    requires Succeeds(script, |w.executor.log|) && Succeeds(script, |w.executor.log| + 1) && ReadsBack(script, |w.executor.log| + 2)
    ensures var after := Attempt(script, w, now, true, acknowledged, desired).world;
            var report := Report(desired.configurationVersion, desired.policyVersion, "applied", script[|w.executor.log| + 2].hash, "");
            && after.runtime.status.Healthy? && !after.runtime.disabled && after.runtime.diagnostic == ""
            && after.runtime.configurationVersion == after.runtime.attemptedVersion == desired.configurationVersion
            && after.runtime.policyVersion == desired.policyVersion && after.runtime.validUntil == Some(desired.validUntil)
            && after.executor.previous == Some(desired) && |after.executor.log| == |w.executor.log| + 3
            && after.runtime.floor == w.runtime.floor && after.disk == w.disk
            && after.handed == w.handed + [desired] && after.outcomes == w.outcomes + [report]
            && (acknowledged ==> after.reported == w.reported + [report] && after.runtime.pending.None?)
            && (!acknowledged ==> after.reported == w.reported && after.runtime.pending == Some(report))
  {
    ApplySucceedsExactlyWhen(script, w.executor, desired, now, true);
  }

  // ---- Starting and waking ----

  /** A process comes up only after both calls of its opening disable succeeded, holding nothing and disabled. */
  lemma StartsShut(script: seq<Ex.Answer>, w: World)
    requires w.disk != [] && !w.up && Boot(script, w).up
    ensures var after := Boot(script, w);
            && |after.executor.log| == |w.executor.log| + 2 && Succeeds(script, |w.executor.log|) && Succeeds(script, |w.executor.log| + 1)
            && after.executor.log[|w.executor.log|].call == Ex.Baseline(DEFAULT_INTERFACE)
            && after.executor.log[|w.executor.log| + 1].call == Ex.Shutdown(DEFAULT_INTERFACE)
            && after.executor.previous.None? && after.runtime.disabled && after.disk == w.disk && after.handed == w.handed
            && (w.disk[|w.disk| - 1].Some? ==> w.disk[|w.disk| - 1] == Some(after.runtime.floor))
            && (w.disk[|w.disk| - 1].None? ==> after.runtime.floor.version == 0)
  {
    DisableCalls(script, Ex.State(None, w.executor.log));
  }

  /** The next cycle starts after the jittered interval, or at the deadline if that comes sooner. */
  lemma WakesAtTheSooner(r: Runtime, now: Time, jittered: int)
    ensures r.disabled || r.validUntil.None? ==> NextDelay(r, now, jittered) == jittered
    ensures !r.disabled && r.validUntil.Some? && now < r.validUntil.value && now + jittered <= r.validUntil.value ==> NextDelay(r, now, jittered) == jittered
    ensures !r.disabled && r.validUntil.Some? && now < r.validUntil.value <= now + jittered ==> now + NextDelay(r, now, jittered) == r.validUntil.value
    ensures !r.disabled && r.validUntil.Some? && r.validUntil.value <= now ==> NextDelay(r, now, jittered) == jittered
  {
  }

  // ---- Intervals ----

  predicate IntervalsInRange(r: Runtime) {
    30 * SECOND <= r.pollInterval <= 300 * SECOND && 30 * SECOND <= r.heartbeatInterval <= 300 * SECOND
  }

  /** The intervals a configuration asks for are taken over exactly when both are between 30 and 300 seconds. */
  lemma IntervalsAreTakenOver(r: Runtime, desired: Desired)
    requires IntervalsInRange(r)
    ensures var after := AdoptIntervals(r, desired);
            && IntervalsInRange(after)
            && (desired.intervals.Some? && 30 <= desired.intervals.value.pollSeconds <= 300 && 30 <= desired.intervals.value.heartbeatSeconds <= 300 ==>
                  after.pollInterval == desired.intervals.value.pollSeconds * SECOND
                  && after.heartbeatInterval == desired.intervals.value.heartbeatSeconds * SECOND)
            && (desired.intervals.None? || !(30 <= desired.intervals.value.pollSeconds <= 300) || !(30 <= desired.intervals.value.heartbeatSeconds <= 300) ==>
                  after == r)
  {
  }
}
