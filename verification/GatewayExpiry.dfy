/** Expiry as the System sees it: what the executor still holds once a deadline has passed, and what the
    runtime's disabled flag says about that. */
module GatewayExpiry {
  import opened Options
  import opened GatewayTypes
  import opened GatewayRuntime
  import opened GatewayRuns
  import Ex = GatewayExecutor

  // ---- What the executor holds is what the runtime keeps time for ----

  predicate Held(w: World) {
    w.executor.previous.Some? ==>
      && w.runtime.desired.Some? && Identity(w.executor.previous.value) == Identity(w.runtime.desired.value)
      && w.runtime.validUntil == Some(w.executor.previous.value.validUntil)
  }

  /** Disabled means shut down: the executor holds nothing. */
  predicate ShutWhenDisabled(w: World) { w.runtime.disabled ==> w.executor.previous.None? }

  lemma DisablingHolds(script: seq<Ex.Answer>, s: Ex.State)
    ensures var d := Ex.DisableLocked(script, s); d.state.previous == if d.ok then None else s.previous
  {
  }

  /** The step leaves the executor and what the runtime keeps time for alone. */
  predicate SameCourse(w: World, after: World) {
    && after.executor == w.executor && after.runtime.desired == w.runtime.desired
    && after.runtime.validUntil == w.runtime.validUntil && after.runtime.disabled == w.runtime.disabled
  }

  lemma ReportPendingKeepsCourse(w: World, acknowledged: bool)
    ensures SameCourse(w, ReportPending(w, acknowledged).world)
  {
  }

  lemma ReceiveKeepsCourse(w: World, poll: Option<Message>, now: Time, maxSkew: int)
    ensures SameCourse(w, Receive(w, poll, now, maxSkew).world)
  {
  }

  lemma ExpireHolds(script: seq<Ex.Answer>, w: World, now: Time)
    ensures Held(w) ==> Held(Expire(script, w, now).world)
    ensures ShutWhenDisabled(w) ==> ShutWhenDisabled(Expire(script, w, now).world)
  {
    DisablingHolds(script, w.executor);
  }

  lemma RememberHolds(script: seq<Ex.Answer>, w: World, write: Write, desired: Desired)
    requires Held(w)
    ensures Held(Remember(script, w, write, desired).world)
  {
    DisablingHolds(script, w.executor);
  }

  lemma CheckDriftHolds(script: seq<Ex.Answer>, w: World, accepted: bool, desired: Desired)
    requires Held(w) && (w.runtime.desired.Some? ==> Identity(w.runtime.desired.value) == Identity(desired))
    ensures Held(CheckDrift(script, w, accepted, desired))
  {
    var v := Ex.VerifyDesired(script, w.executor, desired, accepted);
    assert v.state.previous == w.executor.previous;
    DisablingHolds(script, v.state);
  }

  lemma HandleKnownHolds(script: seq<Ex.Answer>, w: World, accepted: bool, desired: Desired)
    requires Held(w) && AgreesInside(w) && IsFloorOf(w.runtime.floor, desired)
    ensures Held(HandleKnown(script, w, accepted, desired).world)
  {
    var w0 := w.(runtime := AdoptIntervals(w.runtime, desired));
    assert Held(w0);
    if desired.configurationVersion == w.runtime.configurationVersion > 0 {
      CheckDriftHolds(script, w0, accepted, desired);
    }
  }

  lemma AttemptHolds(script: seq<Ex.Answer>, w: World, now: Time, accepted: bool, acknowledged: bool, desired: Desired)
    ensures Held(w) ==> Held(Attempt(script, w, now, accepted, acknowledged, desired).world)
    ensures ShutWhenDisabled(w) ==> ShutWhenDisabled(Attempt(script, w, now, accepted, acknowledged, desired).world)
  {
    Ex.ApplyFailsClosed(script, w.executor, desired, now, accepted);
  }

  lemma {:induction false} StepsHold(script: seq<Ex.Answer>, w: World, env: Env, n: nat)
    requires Held(w) && w.up && Durable(w) && Agrees(w) && WellFormed(env) && n <= 6
    ensures Held(Steps(script, w, env, n).world)
  {
    if n > 0 {
      StepsHold(script, w, env, n - 1);
      StepsAgree(script, w, env, n - 1);
      StepsAreDurable(script, w, env, n - 1);
      var p := Steps(script, w, env, n - 1);
      if p.go {
        StepHolds(script, p.world, env, n);
      }
    }
  }

  lemma StepHolds(script: seq<Ex.Answer>, w: World, env: Env, n: nat)
    requires Held(w) && w.up && 1 <= n <= 6 && (n > 3 ==> Incoming(env).Some?) && AgreesAfter(Progress(w, true), env, n - 1)
    requires n > 4 ==> IsFloorOf(w.runtime.floor, Incoming(env).value)
    ensures Held(Step(script, w, env, n).world)
  {
    match n
    case 1 => ExpireHolds(script, w, env.now);
    case 2 => ReportPendingKeepsCourse(w, env.pendingAcknowledged);
    case 3 => ReceiveKeepsCourse(w, env.poll, env.now, env.maxSkew);
    case 4 => RememberHolds(script, w, env.write, Incoming(env).value);
    case 5 => HandleKnownHolds(script, w, env.verifyAccepted, Incoming(env).value);
    case 6 => AttemptHolds(script, w, env.now, env.accepted, env.acknowledged, Incoming(env).value);
  }

  lemma {:induction false} CycleHolds(script: seq<Ex.Answer>, w: World, env: Env)
    requires Held(w) && w.up && Durable(w) && Agrees(w) && WellFormed(env)
    ensures Held(Cycle(script, w, env))
  {
    StepsHold(script, w, env, 6);
    ExpireHolds(script, w, env.now);
    ExpireHolds(script, Steps(script, w, env, 6).world, env.endedAt);
  }

  lemma {:induction false} RunsHold(script: seq<Ex.Answer>, events: seq<Event>)
    requires forall i :: 0 <= i < |events| ==> WellFormedEvent(events[i])
    ensures RunOf(script, events).up ==> Held(RunOf(script, events))
  {
    if events != [] {
      var before, last := RunOf(script, events[..|events| - 1]), events[|events| - 1];
      RunsHold(script, events[..|events| - 1]);
      RunsAreConsistent(script, events[..|events| - 1]);
      if before.up && last.Cycles? {
        CycleHolds(script, before, last.env);
      } else if last.Boots? {
        DisablingHolds(script, Ex.State(None, before.executor.log));
      }
    }
  }

  ghost predicate HoldsExpired(w: World, now: Time) {
    w.executor.previous.Some? && w.executor.previous.value.validUntil <= now
  }

  /** At the end of every cycle of any run: if the executor still holds a configuration past its deadline, the
      System's last two calls are a disable attempt that failed, or the runtime counts itself disabled. */
  lemma {:induction false} ExpiredIsDisabledOrFlagged(script: seq<Ex.Answer>, events: seq<Event>, env: Env)
    requires (forall i :: 0 <= i < |events| ==> WellFormedEvent(events[i])) && WellFormed(env)
    requires RunOf(script, events).up && HoldsExpired(Cycle(script, RunOf(script, events), env), env.endedAt)
    ensures var after := Cycle(script, RunOf(script, events), env);
            EndsWithFailedDisable(after.executor.log) || after.runtime.disabled
  {
    var w := RunOf(script, events);
    RunsHold(script, events);
    RunsAreConsistent(script, events);
    CycleHolds(script, w, env);
    CycleEnforcesExpiry(script, w, env);
  }

  // ---- When the flag can be trusted ----

  /** The cycle's floor check does not refuse with a disable that fails. */
  predicate RefusalShuts(script: seq<Ex.Answer>, w: World, env: Env)
    requires w.disk != []
  {
    var p := Steps(script, w, env, 3);
    p.go && !Remember(script, p.world, env.write, Incoming(env).value).go && p.world.executor.previous.Some? ==>
      Ex.DisableLocked(script, p.world.executor).ok
  }

  /** The floor check is where the flag and the System part company, exactly when its disable fails. */
  lemma RememberShuts(script: seq<Ex.Answer>, w: World, write: Write, desired: Desired)
    requires ShutWhenDisabled(w)
    ensures var p := Remember(script, w, write, desired);
            ShutWhenDisabled(p.world) <==>
              (!p.go && w.executor.previous.Some? ==> Ex.DisableLocked(script, w.executor).ok)
  {
    DisablingHolds(script, w.executor);
  }

  lemma HandleKnownShuts(script: seq<Ex.Answer>, w: World, accepted: bool, desired: Desired)
    requires ShutWhenDisabled(w)
    ensures ShutWhenDisabled(HandleKnown(script, w, accepted, desired).world)
  {
    var v := Ex.VerifyDesired(script, w.executor, desired, accepted);
    assert v.state.previous == w.executor.previous;
    DisablingHolds(script, v.state);
  }

  lemma {:induction false} EarlyStepsStayShut(script: seq<Ex.Answer>, w: World, env: Env, n: nat)
    requires ShutWhenDisabled(w) && n <= 3
    ensures ShutWhenDisabled(Steps(script, w, env, n).world)
  {
    if n > 0 {
      EarlyStepsStayShut(script, w, env, n - 1);
      var before := Steps(script, w, env, n - 1).world;
      ExpireHolds(script, before, env.now);
      ReportPendingKeepsCourse(before, env.pendingAcknowledged);
      ReceiveKeepsCourse(before, env.poll, env.now, env.maxSkew);
    }
  }

  /** For a whole cycle: disabled still means shut down afterwards exactly when no refusal's disable failed. */
  lemma {:induction false} CycleShutsExactlyWhen(script: seq<Ex.Answer>, w: World, env: Env)
    requires ShutWhenDisabled(w) && w.disk != []
    ensures ShutWhenDisabled(Cycle(script, w, env)) <==> (Expire(script, w, env.now).go ==> RefusalShuts(script, w, env))
  {
    var p3, p4, p5, p6 := Steps(script, w, env, 3), Steps(script, w, env, 4), Steps(script, w, env, 5), Steps(script, w, env, 6);
    EarlyStepsStayShut(script, w, env, 3);
    ExpireHolds(script, w, env.now);
    if p3.go {
      assert p4 == Step(script, p3.world, env, 4);
      RememberShuts(script, p3.world, env.write, Incoming(env).value);
      if p4.go {
        assert p5 == Step(script, p4.world, env, 5);
        HandleKnownShuts(script, p4.world, env.verifyAccepted, Incoming(env).value);
        if p5.go {
          assert p6 == Step(script, p5.world, env, 6);
          AttemptHolds(script, p5.world, env.now, env.accepted, env.acknowledged, Incoming(env).value);
        }
        ExpireHolds(script, p6.world, env.endedAt);
      } else {
        assert p6 == p5 == p4;
      }
    } else {
      assert p6 == p5 == p4 == p3;
      ExpireHolds(script, p6.world, env.endedAt);
    }
  }

  /** In every run in which no refusal's disable failed, disabled means shut down, and a cycle leaves an expired
      configuration with the executor only after a disable attempt that failed. */
  lemma {:induction false} DisabledMeansShutDown(script: seq<Ex.Answer>, events: seq<Event>)
    requires forall i :: 0 <= i < |events| ==> WellFormedEvent(events[i])
    requires forall i :: 0 <= i < |events| && events[i].Cycles? ==> RefusalShuts(script, RunOf(script, events[..i]), events[i].env)
    ensures RunOf(script, events).up ==> ShutWhenDisabled(RunOf(script, events))
    ensures forall env ::
              (&& RunOf(script, events).up && WellFormed(env) && RefusalShuts(script, RunOf(script, events), env)
               && HoldsExpired(Cycle(script, RunOf(script, events), env), env.endedAt)) ==>
                EndsWithFailedDisable(Cycle(script, RunOf(script, events), env).executor.log)
  {
    var w := RunOf(script, events);
    if events != [] {
      var front, last := events[..|events| - 1], events[|events| - 1];
      forall i | 0 <= i < |front| && front[i].Cycles? ensures RefusalShuts(script, RunOf(script, front[..i]), front[i].env) {
        assert front[..i] == events[..i];
      }
      DisabledMeansShutDown(script, front);
      var before := RunOf(script, front);
      if before.up && last.Cycles? {
        CycleShutsExactlyWhen(script, before, last.env);
      } else if last.Boots? {
        DisablingHolds(script, Ex.State(None, before.executor.log));
      }
    }
    forall env | w.up && WellFormed(env) && RefusalShuts(script, w, env) && HoldsExpired(Cycle(script, w, env), env.endedAt)
      ensures EndsWithFailedDisable(Cycle(script, w, env).executor.log)
    {
      ExpiredIsDisabledOrFlagged(script, events, env);
      CycleShutsExactlyWhen(script, w, env);
    }
  }

  /** "Disabled means shut down" fails: a refused floor check whose disable fails sets the flag over a configuration
      that stays in force, and no expiry check ever touches it again. */
  lemma DisabledMayStillServe(script: seq<Ex.Answer>, w: World, write: Write, refused: Desired, now: Time)
    requires w.executor.previous.Some? && !Remember(script, w, write, refused).go && !Ex.DisableLocked(script, w.executor).ok
    ensures var flagged := Remember(script, w, write, refused).world;
            && flagged.runtime.disabled && flagged.executor.previous == w.executor.previous
            && Expire(script, flagged, now) == Progress(flagged, true)
  {
    DisablingHolds(script, w.executor);
  }

  /** Answers of a System that fails to disable, then fails to install, then rolls back. */
  function RollbackAfterFailedDisable(hash: string): seq<Ex.Answer> {
    [Ex.Failed, Ex.Failed, Ex.Returned(""), Ex.Failed, Ex.Returned(""), Ex.Returned(""), Ex.Returned(hash)]
  }

  /** An instance: after the refusal the next attempt fails and reinstalls the predecessor with a good readback,
      while the runtime still counts itself disabled. */
  lemma DisabledMayBeReinstalled(w: World, refused: Desired, later: Desired, now: Time, hash: string)
    requires IsSha256Text(hash)
    requires w.executor.log == [] && w.executor.previous.Some? && w.executor.previous.value.validUntil > now
    requires w.executor.previous.value.wireGuard.None? && w.executor.previous.value.policyVersion == later.policyVersion
    requires refused.configurationVersion < w.runtime.floor.version
    ensures var script := RollbackAfterFailedDisable(hash);
            var flagged := Remember(script, w, Synced, refused).world;
            var after := Attempt(script, flagged, now, true, false, later).world;
            && after.runtime.disabled && after.executor.previous == w.executor.previous && |after.executor.log| == 7
            && after.executor.log[6].call == Ex.Readback(w.executor.previous.value) && Ex.Good(after.executor.log[6])
  {
    var script := RollbackAfterFailedDisable(hash);
    var flagged := Remember(script, w, Synced, refused).world;
    assert flagged.executor == Ex.DisableLocked(script, w.executor).state;
    assert |flagged.executor.log| == 2;
    var s1 := Ex.Ask(script, flagged.executor, Ex.Baseline(InterfaceName(later)));
    var s2 := Ex.Ask(script, s1, Ex.Install(later));
    assert Ex.LastGood(s1) && !Ex.LastGood(s2) && |s2.log| == 4;
    var r := Ex.Recover(script, s2, later, now, "system_apply_failed");
    assert r.state.log[6].call == Ex.Readback(w.executor.previous.value);
  }
}
