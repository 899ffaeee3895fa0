/** What a proxy runner does with a poll, and when its engine counts as running: stated on the poll, the clock and the
    System's answers themselves. */
module ProxyLaws {
  import opened Options
  import opened ProxyEngine
  import opened ProxyRunner
  import P = ProxyProcess

  // ---- The engine ----

  /** A good health check of a running engine: guard ready, process there, every backend probed, file as it was applied,
      protection read back where there is a controller, and an answer. */
  predicate SoundCheck(controller: bool, s: State, env: HealthEnv) {
    && env.guardReady && !env.exited && env.probed && env.responds
    && (s.fileHash.None? || env.file == s.fileHash)
    && (!controller || s.protection.None? || env.protectionRead)
  }

  lemma HealthyMeansSound(controller: bool, s: State, env: HealthEnv)
    ensures Health(controller, s, env).ok <==> s.process && s.guard.Some? && SoundCheck(controller, s, env)
    ensures Health(controller, s, env).ok ==> Health(controller, s, env).state == s
  {
  }

  /** The check does not end the wait for a good one. */
  predicate KeepsWaiting(env: HealthEnv) { !env.cancelled && !(env.guardReady && env.exited) }

  /** Waiting from attempt `n` on succeeds exactly when one of the first twenty checks is sound and every check before it
      keeps waiting. */
  lemma {:induction false} WaitSucceedsExactlyWhen(controller: bool, s: State, attempts: seq<HealthEnv>, n: nat)
    requires n <= START_ATTEMPTS && s.process && s.guard.Some?
    ensures Awaited(controller, s, attempts, n).ok <==>
              exists k :: n <= k < |attempts| && k < 20 && SoundCheck(controller, s, attempts[k])
                       && forall j :: n <= j < k ==> KeepsWaiting(attempts[j])
    decreases START_ATTEMPTS - n
  {
    if n < START_ATTEMPTS && n < |attempts| {
      HealthyMeansSound(controller, s, attempts[n]);
      var h := Health(controller, s, attempts[n]);
      if !h.ok && KeepsWaiting(attempts[n]) {
        assert h.state == s;
        WaitSucceedsExactlyWhen(controller, s, attempts, n + 1);
      } else if !h.ok && !attempts[n].cancelled {
        NeverHealthyAgain(controller, h.state, attempts, n + 1);
      }
    }
  }

  lemma {:induction false} NeverHealthyAgain(controller: bool, s: State, attempts: seq<HealthEnv>, n: nat)
    requires n <= START_ATTEMPTS && !s.process
    ensures !Awaited(controller, s, attempts, n).ok
    decreases START_ATTEMPTS - n
  {
    if n < START_ATTEMPTS && n < |attempts| && !attempts[n].cancelled {
      NeverHealthyAgain(controller, Health(controller, s, attempts[n]).state, attempts, n + 1);
    }
  }

  /** The engine as it is when the written file is to be started. */
  function Written(s: State, desired: Configuration, document: string): State {
    State(true, Some(desired.validUntil), Some(document), Some(document), desired.protection, s.bootstrapAt)
  }

  /** Every stage of applying an enabled configuration succeeds, up to the readback of the very document. */
  predicate StagesSucceed(env: ApplyEnv) {
    && env.readable && env.protectionOk && env.rendered && env.protected && env.guarded.Some? && env.readbackSupported
    && env.validated && env.written && env.start.guardReady && env.start.launched && env.actual == env.guarded
  }

  /** Applying succeeds exactly when the configuration is disabled, or every stage succeeds and the start-up wait does. */
  lemma ApplySucceedsExactlyWhen(controller: bool, s: State, desired: Configuration, env: ApplyEnv)
    ensures var r := ApplyTo(controller, s, desired, env);
            r.applied.status == "applied" <==>
              || !desired.enabled
              || (StagesSucceed(env) && Awaited(controller, Written(s, desired, env.guarded.value), env.start.attempts, 0).ok)
    ensures var r := ApplyTo(controller, s, desired, env);
            r.applied.status == "applied" && desired.enabled ==>
              r.state == Written(s, desired, env.guarded.value).(bootstrapAt := Some(env.now)) && r.applied.reason == ""
  {
    if env.guarded.Some? {
      AwaitedIsAllOrNothing(controller, Written(s, desired, env.guarded.value), env.start.attempts, 0);
    }
  }

  /** A rejection names the first stage that failed; what fails after the file was written is rolled back, unless that
      fails too. */
  lemma RejectionNamesItsStage(controller: bool, s: State, desired: Configuration, env: ApplyEnv)
    requires desired.enabled
    ensures var a := ApplyTo(controller, s, desired, env).applied;
            && (a.reason == "read_failed" <==> !env.readable)
            && (a.reason == "protection_invalid" <==> env.readable && !env.protectionOk)
            && (a.reason == "render_failed" <==> env.readable && env.protectionOk && !env.rendered)
            && (a.reason == "protection_compile_failed" <==> env.readable && env.protectionOk && env.rendered && !env.protected)
            && (a.reason == "bootstrap_guard_failed" ==> env.protected && env.guarded.None?)
            && (a.reason == "rule_readback_unsupported" ==> env.guarded.Some? && !env.readbackSupported)
            && (a.reason == "validation_failed" ==> env.readbackSupported && !env.validated)
            && (a.reason == "write_failed" ==> env.validated && !env.written)
            && (a.reason == "start_failed" ==> env.written && env.restored && a.status == "rolled-back")
            && (a.reason == "readback_failed" ==> env.written && env.actual != env.guarded && env.restored && a.status == "rolled-back")
            && (a.reason == "rollback_failed" ==> env.written && !env.restored && a.status == "rejected")
  {
  }

  // ---- Polls that end access ----

  /** An enabled configuration without complete, well-formed protection and binding. */
  predicate BadlyProtected(c: Configuration, wellFormed: bool) {
    c.enabled &&
    (|| c.protection.None? || c.binding.None? || !wellFormed
     || c.protection.value.policyVersion < 1 || |c.protection.value.cidrs| > 4096 || |c.protection.value.hosts| > 2048
     || |c.binding.value.resourceIds| > 128
     || (c.binding.value.resourceIds != [] && c.protection.value.cidrs == [] && c.protection.value.hosts == [])
     || Repeats(c.protection.value.cidrs) || Repeats(c.protection.value.hosts) || Repeats(c.binding.value.resourceIds))
  }

  predicate Repeats(s: seq<string>) { exists i, j :: 0 <= i < j < |s| && s[i] == s[j] }

  /** The poll says that access is over, or brings something that must not be run. */
  predicate Refuses(poll: Poll, now: Time) {
    match poll
    case Failed(status) => status == Some(401) || status == Some(403) || status == Some(404) || status == Some(409)
    case Nothing => true
    case Payload(decoded, hashMatches, wellFormed) =>
      decoded.None? || !hashMatches || decoded.value.validUntil <= now || BadlyProtected(decoded.value, wellFormed)
  }

  lemma ProtectionTest(c: Configuration, wellFormed: bool)
    ensures ProtectionOk(c, wellFormed) <==> !BadlyProtected(c, wellFormed)
  {
    if c.protection.Some? && c.binding.Some? {
      assert forall s: seq<string> :: Distinct(s) <==> !Repeats(s);
    }
  }

  /** How the outcome of a poll relates to the poll itself. */
  lemma OutcomeOfPoll(poll: Poll, now: Time)
    ensures var outcome := Outcome(poll, now);
            && (Refuses(poll, now) <==> outcome.NoConfiguration? || (outcome.PollError? && outcome.unsafe))
            && (outcome.Got? <==> poll.Payload? && !Refuses(poll, now))
            && (outcome.Got? ==> poll.decoded == Some(outcome.desired))
            && (outcome.PollError? && !outcome.unsafe <==> poll.Failed? && !Refuses(poll, now))
  {
    if poll.Payload? && poll.decoded.Some? {
      ProtectionTest(poll.decoded.value, poll.wellFormed);
    }
  }

  predicate Ended(w: World) { !w.runner.enabled && Idle(w.engine) }

  lemma EndedStaysEnded(w: World, now: Time)
    requires !w.runner.enabled
    ensures Expire(w, now).world == w
  {
  }

  function Woken(w: World, env: Env): World { Expire(Resume(w, env.gap, env.pollInterval).world, env.now).world }

  lemma IterateUnrolls(setup: Setup, w: World, env: Env)
    ensures var p := P.Synced(setup, Woken(w, env), env);
            Iterate(setup, w, env) ==
              Expire(if p.go then EnsureRunning(setup, p.world, env.health).world else p.world, env.endedAt).world
  {
    P.SyncedIsSteps(setup, w, env);
  }

  /** After an iteration whose poll refuses access, whatever ran before, nothing runs and nothing was handed to the engine. */
  lemma RefusalEndsAccess(setup: Setup, w: World, env: Env)
    requires Refuses(env.poll, env.polledAt)
    ensures var after := Iterate(setup, w, env); Ended(after) && after.runner.suspended && after.handed == w.handed
  {
    IterateUnrolls(setup, w, env);
    OutcomeOfPoll(env.poll, env.polledAt);
    var p := P.Synced(setup, Woken(w, env), env);
    assert !p.go && !p.world.runner.enabled && Idle(p.world.engine);
    EndedStaysEnded(p.world, env.endedAt);
  }

  /** Nothing interrupts the iteration: no gap in the clock, and no deadline passes. */
  predicate Undisturbed(w: World, env: Env) {
    && env.gap >= 0 && (env.gap <= 15 * SECOND || env.gap <= 3 * env.pollInterval)
    && (w.runner.enabled ==> w.runner.validUntil.Some? && w.runner.validUntil.value > env.now && w.runner.validUntil.value > env.endedAt)
  }

  /** Any other failed poll leaves an undisturbed runner exactly as it was. */
  lemma OtherFailuresChangeNothing(setup: Setup, w: World, env: Env)
    requires env.poll.Failed? && !Refuses(env.poll, env.polledAt) && Undisturbed(w, env)
    ensures Iterate(setup, w, env) == w
  {
    IterateUnrolls(setup, w, env);
    OutcomeOfPoll(env.poll, env.polledAt);
    assert Woken(w, env) == w;
  }

  /** The polled configuration must not follow what this runner has seen: another engine, a lower revision, the same
      revision with other content or flag, a lower policy version, or a floor that could not be written. */
  predicate MustNotFollow(setup: Setup, seen: Floor, c: Configuration, written: bool) {
    || c.engine != setup.engine
    || c.revision < seen.revision
    || (c.revision == seen.revision && (seen.digest != Some(DigestOf(c)) || seen.enabled != c.enabled))
    || (c.protection.Some? && c.protection.value.policyVersion < seen.policy)
    || (!written && (c.revision != seen.revision || (c.protection.Some? && c.protection.value.policyVersion != seen.policy)))
  }

  lemma FollowTest(setup: Setup, w: World, c: Configuration, written: bool)
    ensures Receive(setup, w, Got(c)).go && Remember(w, c, written).go <==> !MustNotFollow(setup, w.runner.seen, c, written)
    ensures Receive(setup, w, Got(c)).go ==> Receive(setup, w, Got(c)).world == w
    ensures !Receive(setup, w, Got(c)).go ==> Ended(Receive(setup, w, Got(c)).world) && Receive(setup, w, Got(c)).world.handed == w.handed
    ensures !Remember(w, c, written).go ==> Ended(Remember(w, c, written).world) && Remember(w, c, written).world.handed == w.handed
  {
  }

  /** After an iteration that polled such a configuration nothing runs and nothing was handed to the engine. */
  lemma RegressionEndsAccess(setup: Setup, w: World, env: Env)
    requires env.poll.Payload? && !Refuses(env.poll, env.polledAt)
    requires MustNotFollow(setup, w.runner.seen, env.poll.decoded.value, env.written)
    ensures var after := Iterate(setup, w, env); Ended(after) && after.handed == w.handed && after.disk == w.disk
  {
    IterateUnrolls(setup, w, env);
    WakingKeepsRecords(w, env);
    RegressionStopsSync(setup, Woken(w, env), env);
    EndedStaysEnded(P.Synced(setup, Woken(w, env), env).world, env.endedAt);
  }

  lemma WakingKeepsRecords(w: World, env: Env)
    ensures SameRecords(w, Woken(w, env))
  {
  }

  lemma RegressionStopsSync(setup: Setup, w: World, env: Env)
    requires env.poll.Payload? && !Refuses(env.poll, env.polledAt)
    requires MustNotFollow(setup, w.runner.seen, env.poll.decoded.value, env.written)
    ensures var p := P.Synced(setup, w, env); !p.go && Ended(p.world) && p.world.handed == w.handed && p.world.disk == w.disk
  {
    OutcomeOfPoll(env.poll, env.polledAt);
    FollowTest(setup, w, env.poll.decoded.value, env.written);
  }

  // ---- What reaches the engine ----

  /** The poll carried this configuration, intact, unexpired, protected, for this engine. */
  predicate Carried(setup: Setup, env: Env, c: Configuration) {
    && env.poll.Payload? && env.poll.decoded == Some(c) && env.poll.hashMatches && c.validUntil > env.polledAt
    && !BadlyProtected(c, env.poll.wellFormed) && c.engine == setup.engine
  }

  lemma SyncHands(setup: Setup, w: World, env: Env)
    ensures var after := P.Synced(setup, w, env).world;
            || after.handed == w.handed
            || (Incoming(env).Some? && Carried(setup, env, Incoming(env).value) && after.handed == w.handed + [Incoming(env).value])
  {
    OutcomeOfPoll(env.poll, env.polledAt);
    var outcome := Outcome(env.poll, env.polledAt);
    if outcome.Got? {
      FollowTest(setup, w, outcome.desired, env.written);
      var p4 := Remember(w, outcome.desired, env.written);
      var p5 := ApplyStep(setup, p4.world, outcome.desired, env.apply, env.appliedAt);
      LateStepsKeepRecords(setup, p5.world, outcome.desired, env);
      LateStepsKeepRecords(setup, Renew(p5.world, outcome.desired, env.refreshed).world, outcome.desired, env);
    }
  }

  /** An iteration hands the engine nothing but the configuration its own poll carried, and that at most once. */
  lemma HandedWasCarried(setup: Setup, w: World, env: Env)
    ensures var after := Iterate(setup, w, env);
            || after.handed == w.handed
            || (Incoming(env).Some? && Carried(setup, env, Incoming(env).value) && after.handed == w.handed + [Incoming(env).value])
  {
    IterateUnrolls(setup, w, env);
    WakingKeepsRecords(w, env);
    SyncHands(setup, Woken(w, env), env);
    LateStepsKeepRecords(setup, P.Synced(setup, Woken(w, env), env).world, IDLE_CONFIGURATION, env);
  }

  const IDLE_CONFIGURATION := Configuration(None, None, 0, "", false, "", "", 0)

  /** After a gap in the clock nothing runs unless the engine was given a configuration anew. */
  lemma GapNeedsFreshConfiguration(setup: Setup, w: World, env: Env)
    requires env.gap < 0 || (env.gap > 15 * SECOND && env.gap > 3 * env.pollInterval)
    requires Iterate(setup, w, env).runner.enabled
    ensures |Iterate(setup, w, env).handed| > |w.handed|
  {
    IterateUnrolls(setup, w, env);
    var woken := Woken(w, env);
    assert woken.runner.suspended && !woken.runner.enabled && woken.handed == w.handed;
    SuspendedNeedsApply(setup, woken, env);
    LateStepsKeepRecords(setup, P.Synced(setup, woken, env).world, IDLE_CONFIGURATION, env);
  }

  lemma SuspendedNeedsApply(setup: Setup, w: World, env: Env)
    requires w.runner.suspended && !w.runner.enabled
    ensures var p := P.Synced(setup, w, env); p.world.runner.enabled ==> |p.world.handed| > |w.handed|
  {
    OutcomeOfPoll(env.poll, env.polledAt);
    var outcome := Outcome(env.poll, env.polledAt);
    if outcome.Got? {
      FollowTest(setup, w, outcome.desired, env.written);
      var p4 := Remember(w, outcome.desired, env.written);
      if p4.go {
        var w5 := ApplyStep(setup, p4.world, outcome.desired, env.apply, env.appliedAt).world;
        assert w5.handed == w.handed + [outcome.desired];
        LateStepsKeepRecords(setup, w5, outcome.desired, env);
        LateStepsKeepRecords(setup, Renew(w5, outcome.desired, env.refreshed).world, outcome.desired, env);
      }
    }
  }

  // ---- Running means healthy ----

  /** An iteration that gets as far as its health check and ends enabled found the running engine sound. */
  lemma EnabledWasSound(setup: Setup, w: World, env: Env)
    requires P.Synced(setup, Woken(w, env), env).go && Iterate(setup, w, env).runner.enabled
    ensures var s := P.Synced(setup, Woken(w, env), env).world.engine;
            s.process && s.guard.Some? && SoundCheck(setup.controller, s, env.health) && Iterate(setup, w, env).engine == s
  {
    IterateUnrolls(setup, w, env);
    HealthyMeansSound(setup.controller, P.Synced(setup, Woken(w, env), env).world.engine, env.health);
  }

  /** An enabled runner's bootstrap is never older than five minutes when the apply step is done. */
  lemma BootstrapStaysFresh(setup: Setup, w: World, c: Configuration, env: ApplyEnv, now: Time)
    requires c.enabled && Running(w.runner, w.engine)
    requires ApplyStep(setup, w, c, env, now).world.runner.enabled
    ensures var at := ApplyStep(setup, w, c, env, now).world.engine.bootstrapAt;
            at.Some? && (at.value == env.now || now - at.value < 300 * SECOND)
  {
    ApplySucceedsExactlyWhen(setup.controller, w.engine, c, env);
  }

  /** The loop sleeps for its interval, or to the deadline of an enabled runner if that comes sooner, but never less than a
      millisecond. */
  lemma SleepsToTheSooner(r: Runner, now: Time, pollInterval: int)
    ensures !r.enabled || r.validUntil.None? ==> Delay(r, now, pollInterval) == pollInterval
    ensures r.enabled && r.validUntil.Some? && pollInterval >= MILLISECOND && now + pollInterval <= r.validUntil.value ==>
              Delay(r, now, pollInterval) == pollInterval
    ensures r.enabled && r.validUntil.Some? && now + MILLISECOND <= r.validUntil.value <= now + pollInterval ==>
              now + Delay(r, now, pollInterval) == r.validUntil.value
    ensures r.enabled && r.validUntil.Some? && r.validUntil.value < now + MILLISECOND ==> Delay(r, now, pollInterval) == MILLISECOND
  {
  }

  // ---- Good polls ----

  /** The configuration that runs is polled again, perhaps with a later deadline: the lease and the deadline move on, the
      engine is left alone, and nothing is written. */
  lemma SteadyPollRenews(setup: Setup, w: World, env: Env, c: Configuration)
    requires Settled(w) && w.runner.enabled && Undisturbed(w, env) && Carried(setup, env, c) && c.validUntil > env.endedAt
    requires c.revision == w.runner.seen.revision && w.runner.seen.digest == Some(DigestOf(c)) && w.runner.seen.enabled == c.enabled
    requires c.protection.Some? ==> c.protection.value.policyVersion == w.runner.seen.policy
    requires w.engine.bootstrapAt.Some? && env.appliedAt - w.engine.bootstrapAt.value < 300 * SECOND
    requires env.refreshed && env.acknowledged && SoundCheck(setup.controller, w.engine, env.health)
    ensures var after := Iterate(setup, w, env);
            && after.runner.enabled && after.runner.validUntil == Some(c.validUntil) && after.engine == w.engine.(guard := Some(c.validUntil))
            && after.handed == w.handed && after.disk == w.disk && after.runner.attemptReported
  {
    IterateUnrolls(setup, w, env);
    OutcomeOfPoll(env.poll, env.polledAt);
    assert Woken(w, env) == w;
    FollowTest(setup, w, c, env.written);
    assert Remember(w, c, env.written) == Progress(w, true);
    assert !NeedsApply(w.runner, w.engine, c, env.appliedAt);
    var w6 := Renew(w, c, env.refreshed).world;
    assert w6 == w.(engine := w.engine.(guard := Some(c.validUntil)), runner := w.runner.(validUntil := Some(c.validUntil)));
    HealthyMeansSound(setup.controller, w6.engine, env.health);
  }

  /** A newer configuration with every answer good is written down, applied, leased, acknowledged and left running, or, if
      it is disabled, leaves nothing running. */
  lemma NewerPollRuns(setup: Setup, w: World, env: Env, c: Configuration)
    requires Running(w.runner, w.engine) && Carried(setup, env, c) && c.validUntil > env.endedAt && c.revision > w.runner.seen.revision
    requires c.protection.Some? ==> c.protection.value.policyVersion >= w.runner.seen.policy
    requires env.written && env.refreshed && env.acknowledged
    requires ApplyTo(setup.controller, Woken(w, env).engine, c, env.apply).applied.status == "applied"
    requires c.enabled ==> SoundCheck(setup.controller, ApplyTo(setup.controller, Woken(w, env).engine, c, env.apply).state, env.health)
    ensures var after := Iterate(setup, w, env);
            && after.runner.enabled == c.enabled && !after.runner.suspended && after.runner.reason == ""
            && after.runner.appliedRevision == c.revision && after.runner.validUntil == Some(c.validUntil)
            && after.disk.Some? && after.disk.value == after.runner.seen && AtOrBelow(c, after.runner.seen) && after.runner.seen.revision == c.revision
            && after.handed == w.handed + [c] && after.runner.attemptReported
            && AppliedAt(after.runner.lastAttempt, c.revision) && after.runner.lastAttempt.value.readback == Some(DigestOf(c))
            && (c.enabled ==> after.engine.process && after.engine.guard == Some(c.validUntil))
            && (!c.enabled ==> Idle(after.engine))
  {
    IterateUnrolls(setup, w, env);
    WakingKeepsRunning(w, env);
    NewerPollSyncs(setup, Woken(w, env), env, c);
  }

  lemma WakingKeepsRunning(w: World, env: Env)
    requires Running(w.runner, w.engine)
    ensures var woken := Woken(w, env); Running(woken.runner, woken.engine) && SameRecords(w, woken)
  {
  }

  lemma NewerPollSyncs(setup: Setup, w: World, env: Env, c: Configuration)
    requires Running(w.runner, w.engine) && Carried(setup, env, c) && c.validUntil > env.endedAt && c.revision > w.runner.seen.revision
    requires c.protection.Some? ==> c.protection.value.policyVersion >= w.runner.seen.policy
    requires env.written && env.refreshed && env.acknowledged
    requires ApplyTo(setup.controller, w.engine, c, env.apply).applied.status == "applied"
    requires c.enabled ==> SoundCheck(setup.controller, ApplyTo(setup.controller, w.engine, c, env.apply).state, env.health)
    ensures var p := P.Synced(setup, w, env);
            var floor := FloorFor(c, w.runner.seen);
            var w5 := Attempt(setup, w.(disk := Some(floor), runner := w.runner.(seen := floor)), c, env.apply);
            && p.go && WellApplied(w5, c)
            && Expire(EnsureRunning(setup, p.world, env.health).world, env.endedAt).world ==
                 w5.(runner := w5.runner.(validUntil := Some(c.validUntil), attemptReported := true))
  {
    OutcomeOfPoll(env.poll, env.polledAt);
    FollowTest(setup, w, c, env.written);
    var w4 := Remember(w, c, env.written).world;
    assert w4 == w.(disk := Some(FloorFor(c, w.runner.seen)), runner := w.runner.(seen := FloorFor(c, w.runner.seen)));
    GoodAttempt(setup, w4, c, env.apply);
    NewerPollEnds(setup, Attempt(setup, w4, c, env.apply), env, c);
  }

  /** The configuration was just applied: running behind its lease if it is enabled, nothing running if it is not. */
  predicate WellApplied(w: World, c: Configuration) {
    && w.runner.appliedRevision == c.revision && !w.runner.suspended && w.runner.reason == "" && w.runner.enabled == c.enabled
    && AppliedAt(w.runner.lastAttempt, c.revision) && w.runner.lastAttempt.value.readback == Some(DigestOf(c))
    && (c.enabled ==> w.engine.process && w.engine.guard == Some(c.validUntil)) && (!c.enabled ==> Idle(w.engine))
  }

  lemma GoodAttempt(setup: Setup, w: World, c: Configuration, env: ApplyEnv)
    requires ApplyTo(setup.controller, w.engine, c, env).applied.status == "applied"
    ensures var after := Attempt(setup, w, c, env);
            && WellApplied(after, c) && after.handed == w.handed + [c] && after.disk == w.disk && after.runner.seen == w.runner.seen
            && after.engine == ApplyTo(setup.controller, w.engine, c, env).state
  {
    ApplyFailsClosed(setup.controller, w.engine, c, env);
  }

  /** From the apply on. */
  lemma NewerPollEnds(setup: Setup, w: World, env: Env, c: Configuration)
    requires w.runner.appliedRevision == c.revision && !w.runner.suspended && w.runner.enabled == c.enabled && w.runner.lastAttempt.Some?
    requires c.validUntil > env.endedAt && env.refreshed && env.acknowledged
    requires c.enabled ==> w.engine.process && w.engine.guard == Some(c.validUntil) && SoundCheck(setup.controller, w.engine, env.health)
    ensures var p6 := Renew(w, c, env.refreshed);
            var p7 := Acknowledge(p6.world, env.acknowledged);
            && p6.go && p7.go
            && Expire(EnsureRunning(setup, p7.world, env.health).world, env.endedAt).world ==
                 w.(runner := w.runner.(validUntil := Some(c.validUntil), attemptReported := true))
  {
    var p6 := Renew(w, c, env.refreshed);
    assert p6.world == w.(runner := w.runner.(validUntil := Some(c.validUntil)));
    HealthyMeansSound(setup.controller, w.engine, env.health);
  }
}
