/** The proxy runner: poll, check and write the revision floor, apply, renew the egress lease, acknowledge,
    check health, expire. A world is the runner, the engine, the floor file and the list of configurations
    given to the engine; a run is any sequence of loop iterations, deaths part-way and restarts. */
module ProxyRunner {
  import opened Options
  import opened ProxyEngine

  /** The revision floor; revision 0 is "none yet". */
  datatype Floor = Floor(revision: int, policy: int, digest: Option<Digest>, enabled: bool)

  const NO_FLOOR := Floor(0, 0, None, false)

  datatype Runner = Runner(seen: Floor, appliedRevision: int, enabled: bool, lastAttempt: Option<Applied>, attemptReported: bool,
                           validUntil: Option<Time>, suspended: bool, reason: string)

  datatype World = World(up: bool, runner: Runner, engine: State, disk: Option<Floor>, handed: seq<Configuration>)

  /** What reading the desired configuration met: an error with or without a status code, no content, or a payload. */
  datatype Poll =
    | Failed(status: Option<int>)
    | Nothing
    | Payload(decoded: Option<Configuration>, hashMatches: bool, wellFormed: bool)

  datatype Polled = PollError(unsafe: bool) | NoConfiguration | Got(desired: Configuration)

  datatype Env = Env(gap: int, pollInterval: int, now: Time, poll: Poll, polledAt: Time, written: bool, apply: ApplyEnv,
                     appliedAt: Time, refreshed: bool, acknowledged: bool, health: HealthEnv, endedAt: Time)

  datatype Progress = Progress(world: World, go: bool)

  /** The constants of one installation: which engine it drives and whether that has a controller. */
  datatype Setup = Setup(engine: string, controller: bool)

  const SECOND := 1_000_000_000
  const MILLISECOND := 1_000_000
  const BOOTSTRAP_LIFE := 300 * SECOND

  // ---- The steps of an iteration ----

  function Suspended(w: World, reason: string): World {
    w.(engine := Stopped(w.engine), runner := w.runner.(enabled := false, suspended := true, reason := reason))
  }

  predicate Gapped(gap: int, pollInterval: int) {
    gap < 0 || gap > (if 3 * pollInterval > 15 * SECOND then 3 * pollInterval else 15 * SECOND)
  }

  function Resume(w: World, gap: int, pollInterval: int): Progress {
    Progress(if Gapped(gap, pollInterval) then Suspended(w, "system_resume_requires_refresh") else w, true)
  }

  predicate Lapsed(validUntil: Option<Time>, now: Time) { validUntil.None? || validUntil.value <= now }

  function Expire(w: World, now: Time): Progress {
    Progress(if w.runner.enabled && Lapsed(w.runner.validUntil, now) then Suspended(w, "configuration_expired") else w, true)
  }

  predicate Distinct(s: seq<string>) { forall i, j :: 0 <= i < j < |s| ==> s[i] != s[j] }

  /** validateProtection; `wellFormed` is the form of the identifiers, hosts and prefixes as texts. */
  predicate ProtectionOk(c: Configuration, wellFormed: bool) {
    c.enabled ==>
      && c.protection.Some? && c.protection.value.policyVersion >= 1
      && |c.protection.value.cidrs| <= 4096 && |c.protection.value.hosts| <= 2048
      && c.binding.Some? && |c.binding.value.resourceIds| <= 128 && Distinct(c.binding.value.resourceIds)
      && (c.binding.value.resourceIds != [] ==> c.protection.value.cidrs != [] || c.protection.value.hosts != [])
      && Distinct(c.protection.value.cidrs) && Distinct(c.protection.value.hosts)
      && wellFormed
  }

  /** Client.Configuration and isProtectionFailure. */
  function Outcome(poll: Poll, now: Time): Polled {
    match poll
    case Failed(status) => PollError(status.Some? && status.value in [401, 403, 404, 409])
    case Nothing => NoConfiguration
    case Payload(decoded, hashMatches, wellFormed) =>
      if decoded.None? || decoded.value.validUntil <= now || !hashMatches || !ProtectionOk(decoded.value, wellFormed)
      then PollError(true) else Got(decoded.value)
  }

  predicate Stale(c: Configuration, seen: Floor) {
    c.revision < seen.revision || (c.revision == seen.revision && (Some(DigestOf(c)) != seen.digest || c.enabled != seen.enabled))
  }

  function Receive(setup: Setup, w: World, polled: Polled): Progress {
    match polled
    case PollError(unsafe) => Progress(if unsafe then Suspended(w, "protection_unavailable") else w, false)
    case NoConfiguration => Progress(Suspended(w, "configuration_unavailable"), false)
    case Got(c) =>
      if c.engine != setup.engine then Progress(Suspended(w, "engine_mismatch"), false)
      else if Stale(c, w.runner.seen) then Progress(Suspended(w, "stale_configuration"), false)
      else Progress(w, true)
  }

  /** The configuration this iteration works on, once the poll succeeded. */
  function Incoming(env: Env): Option<Configuration> {
    match Outcome(env.poll, env.polledAt) case Got(c) => Some(c) case _ => None
  }

  function PolicyOf(c: Configuration, seen: Floor): int { if c.protection.Some? then c.protection.value.policyVersion else seen.policy }

  function FloorFor(c: Configuration, seen: Floor): Floor { Floor(c.revision, PolicyOf(c, seen), Some(DigestOf(c)), c.enabled) }

  function Remember(w: World, c: Configuration, written: bool): Progress {
    var next := FloorFor(c, w.runner.seen);
    if PolicyOf(c, w.runner.seen) < w.runner.seen.policy then Progress(Suspended(w, "configuration_floor_unavailable"), false)
    else if next == w.runner.seen then Progress(w, true)
    else if !written then Progress(Suspended(w, "configuration_floor_unavailable"), false)
    else Progress(w.(disk := Some(next), runner := w.runner.(seen := next)), true)
  }

  predicate BootstrapDue(c: Configuration, bootstrapAt: Option<Time>, now: Time) {
    c.enabled && (bootstrapAt.None? || now - bootstrapAt.value >= BOOTSTRAP_LIFE)
  }

  predicate NeedsApply(r: Runner, engine: State, c: Configuration, now: Time) {
    var again := r.suspended || BootstrapDue(c, engine.bootstrapAt, now);
    && (c.revision != r.appliedRevision || again)
    && (r.lastAttempt.None? || r.lastAttempt.value.revision != c.revision || again)
  }

  /** Apply and record; anything but "applied" suspends, for a rejected replacement may narrow access. */
  function Attempt(setup: Setup, w: World, c: Configuration, env: ApplyEnv): World {
    var a := ApplyTo(setup.controller, w.engine, c, env);
    var w1 := w.(engine := a.state, handed := w.handed + [c],
                 runner := w.runner.(lastAttempt := Some(a.applied), attemptReported := false));
    if a.applied.status == "applied" then
      w1.(runner := w1.runner.(appliedRevision := c.revision, enabled := c.enabled, suspended := false, reason := ""))
    else Suspended(w1, a.applied.reason)
  }

  function ApplyStep(setup: Setup, w: World, c: Configuration, env: ApplyEnv, now: Time): Progress {
    Progress(if NeedsApply(w.runner, w.engine, c, now) then Attempt(setup, w, c, env) else w, true)
  }

  /** Renew the guard's lease, then the runner's own deadline. */
  function Renew(w: World, c: Configuration, refreshed: bool): Progress {
    if w.runner.appliedRevision != c.revision || w.runner.suspended then Progress(w, true)
    else if c.enabled && (w.engine.guard.None? || !refreshed) then Progress(Suspended(w, "egress_lease_failed"), false)
    else
      Progress(w.(engine := if c.enabled then w.engine.(guard := Some(c.validUntil)) else w.engine,
                  runner := w.runner.(validUntil := Some(c.validUntil))), true)
  }

  function Acknowledge(w: World, acknowledged: bool): Progress {
    if w.runner.lastAttempt.None? || w.runner.attemptReported then Progress(w, true)
    else if !acknowledged then Progress(w, false)
    else Progress(w.(runner := w.runner.(attemptReported := true)), true)
  }

  function EnsureRunning(setup: Setup, w: World, env: HealthEnv): Progress {
    if !w.runner.enabled then Progress(w, true)
    else
      var h := Health(setup.controller, w.engine, env);
      var w1 := w.(engine := h.state);
      Progress(if h.ok then w1 else Suspended(w1, "engine_state_drift"), true)
  }

  function Step(setup: Setup, w: World, env: Env, n: nat): Progress
    requires n > 3 ==> Incoming(env).Some?
  {
    match n
    case 1 => Resume(w, env.gap, env.pollInterval)
    case 2 => Expire(w, env.now)
    case 3 => Receive(setup, w, Outcome(env.poll, env.polledAt))
    case 4 => Remember(w, Incoming(env).value, env.written)
    case 5 => ApplyStep(setup, w, Incoming(env).value, env.apply, env.appliedAt)
    case 6 => Renew(w, Incoming(env).value, env.refreshed)
    case 7 => Acknowledge(w, env.acknowledged)
    case 8 => EnsureRunning(setup, w, env.health)
    case _ => Progress(w, true)
  }

  /** The first `n` steps, stopping early where the cycle returns early. */
  function Steps(setup: Setup, w: World, env: Env, n: nat): (p: Progress)
    ensures p.go && n >= 3 ==> Incoming(env).Some?
  {
    if n == 0 then Progress(w, true)
    else
      var p := Steps(setup, w, env, n - 1);
      if !p.go then p else Step(setup, p.world, env, n)
  }

  /** One turn of the loop; the closing expiry check always runs. */
  function Iterate(setup: Setup, w: World, env: Env): World { Expire(Steps(setup, w, env, 8).world, env.endedAt).world }

  /** How long the loop then sleeps. */
  function Delay(r: Runner, now: Time, pollInterval: int): int {
    if r.enabled && r.validUntil.Some? then
      var left := if pollInterval < r.validUntil.value - now then pollInterval else r.validUntil.value - now;
      if left > MILLISECOND then left else MILLISECOND
    else pollInterval
  }

  // ---- Runs ----

  datatype Event =
    | Iterates(env: Env)
    | Dies(env: Env, steps: nat, file: Option<string>)
    | Boots

  function FreshRunner(seen: Floor): Runner { Runner(seen, 0, false, None, false, None, false, "") }

  /** NewRunner: nothing runs, and the floor file must be readable and proper. */
  function Boot(w: World): World {
    if w.up then w
    else if w.disk.None? then w.(up := true, engine := IDLE.(file := w.engine.file), runner := FreshRunner(NO_FLOOR))
    else if w.disk.value.revision < 1 || w.disk.value.policy < 0 then w
    else w.(up := true, engine := IDLE.(file := w.engine.file), runner := FreshRunner(w.disk.value))
  }

  /** The process dies part-way; its child and its guard die with it, and the engine's file may show anything. */
  function Die(setup: Setup, w: World, env: Env, steps: nat, file: Option<string>): World {
    var reached := if w.up then Steps(setup, w, env, steps).world else w;
    reached.(up := false, engine := IDLE.(file := file))
  }

  function Happen(setup: Setup, w: World, event: Event): World {
    match event
    case Iterates(env) => if w.up then Iterate(setup, w, env) else w
    case Dies(env, steps, file) => Die(setup, w, env, steps, file)
    case Boots => Boot(w)
  }

  function RunOf(setup: Setup, events: seq<Event>): World {
    if events == [] then World(false, FreshRunner(NO_FLOOR), IDLE, None, [])
    else Happen(setup, RunOf(setup, events[..|events| - 1]), events[|events| - 1])
  }

  /** The runtime contract: revisions are positive and policy versions not negative. */
  predicate WellFormed(env: Env) {
    Incoming(env).Some? ==>
      && Incoming(env).value.revision >= 1
      && (Incoming(env).value.protection.Some? ==> Incoming(env).value.protection.value.policyVersion >= 0)
  }

  predicate WellFormedRun(events: seq<Event>) { forall i :: 0 <= i < |events| && !events[i].Boots? ==> WellFormed(events[i].env) }

  // ---- What survives every step, death and restart ----

  predicate AtOrBelow(c: Configuration, f: Floor) {
    && c.revision <= f.revision
    && (c.revision == f.revision ==> f.digest == Some(DigestOf(c)) && f.enabled == c.enabled)
    && (c.protection.Some? ==> c.protection.value.policyVersion <= f.policy)
  }

  predicate FloorLeq(f: Floor, g: Floor) {
    f.revision <= g.revision && f.policy <= g.policy && (f.revision == g.revision ==> f.digest == g.digest && f.enabled == g.enabled)
  }

  /** Two configurations given to the engine, the first one earlier. */
  predicate NoRegression(c: Configuration, d: Configuration) {
    && c.revision <= d.revision
    && (c.revision == d.revision ==> DigestOf(c) == DigestOf(d) && c.enabled == d.enabled)
    && (c.protection.Some? && d.protection.Some? ==> c.protection.value.policyVersion <= d.protection.value.policyVersion)
  }

  predicate HandedInOrder(handed: seq<Configuration>) { forall i, j :: 0 <= i < j < |handed| ==> NoRegression(handed[i], handed[j]) }

  predicate Bounds(f: Floor, handed: seq<Configuration>) { forall i :: 0 <= i < |handed| ==> AtOrBelow(handed[i], f) }

  /** The floor as the file gives it. */
  function OnDisk(disk: Option<Floor>): Floor { if disk.Some? then disk.value else NO_FLOOR }

  predicate Durable(up: bool, seen: Floor, disk: Option<Floor>, handed: seq<Configuration>) {
    && HandedInOrder(handed) && Bounds(OnDisk(disk), handed)
    && (disk.Some? ==> disk.value.revision >= 1 && disk.value.policy >= 0)
    && (disk.None? ==> handed == [])
    && (up ==> seen == OnDisk(disk))
  }

  predicate DurableWorld(w: World) { Durable(w.up, w.runner.seen, w.disk, w.handed) }

  /** The floor is written before the runner moves to it, and only ever upwards. */
  lemma RememberIsDurable(w: World, c: Configuration, written: bool)
    requires DurableWorld(w) && w.up && !Stale(c, w.runner.seen) && c.revision >= 1
    requires c.protection.Some? ==> c.protection.value.policyVersion >= 0
    ensures var p := Remember(w, c, written);
            && DurableWorld(p.world) && p.world.up && FloorLeq(OnDisk(w.disk), OnDisk(p.world.disk))
            && (p.go ==> AtOrBelow(c, p.world.runner.seen) && p.world.runner.seen.revision == c.revision && p.world.disk.Some?)
  {
    var next := FloorFor(c, w.runner.seen);
    if Remember(w, c, written).world.disk != w.disk {
      forall i | 0 <= i < |w.handed| ensures AtOrBelow(w.handed[i], next) {
        assert AtOrBelow(w.handed[i], w.runner.seen);
      }
    }
  }

  lemma HandingIsDurable(seen: Floor, disk: Option<Floor>, handed: seq<Configuration>, c: Configuration)
    requires Durable(true, seen, disk, handed) && disk.Some? && AtOrBelow(c, seen) && seen.revision == c.revision
    requires c.protection.Some? ==> c.protection.value.policyVersion == seen.policy
    ensures Durable(true, seen, disk, handed + [c])
  {
    forall i | 0 <= i < |handed| ensures NoRegression(handed[i], c) {
      assert AtOrBelow(handed[i], seen);
    }
  }

  lemma {:induction false} StepsAreDurable(setup: Setup, w: World, env: Env, n: nat)
    requires DurableWorld(w) && w.up && WellFormed(env)
    ensures var p := Steps(setup, w, env, n);
            && DurableWorld(p.world) && p.world.up && FloorLeq(OnDisk(w.disk), OnDisk(p.world.disk))
            && (p.go && n == 3 ==> !Stale(Incoming(env).value, p.world.runner.seen))
            && (p.go && n == 4 ==> Remembered(p.world, Incoming(env).value))
  {
    if n > 0 {
      StepsAreDurable(setup, w, env, n - 1);
      var q := Steps(setup, w, env, n - 1);
      if q.go {
        StepIsDurable(setup, q.world, env, n);
      }
    }
  }

  predicate Remembered(w: World, c: Configuration) {
    && w.disk.Some? && AtOrBelow(c, w.runner.seen) && w.runner.seen.revision == c.revision
    && (c.protection.Some? ==> c.protection.value.policyVersion == w.runner.seen.policy)
  }

  lemma {:induction false} StepIsDurable(setup: Setup, w: World, env: Env, n: nat)
    requires DurableWorld(w) && w.up && WellFormed(env) && n > 0
    requires n > 3 ==> Incoming(env).Some?
    requires n == 4 ==> !Stale(Incoming(env).value, w.runner.seen)
    requires n == 5 ==> Remembered(w, Incoming(env).value)
    ensures var p := Step(setup, w, env, n);
            && DurableWorld(p.world) && p.world.up && FloorLeq(OnDisk(w.disk), OnDisk(p.world.disk))
            && (p.go && n == 3 ==> Incoming(env).Some? && !Stale(Incoming(env).value, p.world.runner.seen))
            && (p.go && n == 4 ==> Remembered(p.world, Incoming(env).value))
  {
    if n == 4 {
      RememberIsDurable(w, Incoming(env).value, env.written);
    } else if n == 5 {
      ApplyIsDurable(setup, w, Incoming(env).value, env.apply, env.appliedAt);
    } else {
      QuietStep(setup, w, env, n);
    }
  }

  lemma ApplyIsDurable(setup: Setup, w: World, c: Configuration, env: ApplyEnv, now: Time)
    requires DurableWorld(w) && w.up && Remembered(w, c)
    ensures var after := ApplyStep(setup, w, c, env, now).world;
            DurableWorld(after) && after.up && after.disk == w.disk
  {
    HandingIsDurable(w.runner.seen, w.disk, w.handed, c);
  }

  /** Of a step: it changed nothing, or it suspended. */
  predicate KeptOrSuspended(w: World, after: World) { after == w || after == Suspended(w, after.runner.reason) }

  lemma ReceiveKeepsOrSuspends(setup: Setup, w: World, polled: Polled)
    ensures KeptOrSuspended(w, Receive(setup, w, polled).world)
    ensures Receive(setup, w, polled).go ==> polled.Got? && !Stale(polled.desired, w.runner.seen)
  {
  }

  predicate SameRecords(w: World, after: World) {
    after.up == w.up && after.disk == w.disk && after.handed == w.handed && after.runner.seen == w.runner.seen
  }

  /** Steps 6 to 8 neither touch the floor nor hand out anything. */
  lemma LateStepsKeepRecords(setup: Setup, w: World, c: Configuration, env: Env)
    ensures SameRecords(w, Renew(w, c, env.refreshed).world)
    ensures SameRecords(w, Acknowledge(w, env.acknowledged).world)
    ensures SameRecords(w, EnsureRunning(setup, w, env.health).world)
  {
  }

  /** The other steps neither touch the floor nor hand out anything. */
  lemma QuietStep(setup: Setup, w: World, env: Env, n: nat)
    requires n != 4 && n != 5 && (n > 3 ==> Incoming(env).Some?)
    ensures var p := Step(setup, w, env, n);
            SameRecords(w, p.world) && (p.go && n == 3 ==> Incoming(env).Some? && !Stale(Incoming(env).value, w.runner.seen))
  {
    if n > 3 {
      LateStepsKeepRecords(setup, w, Incoming(env).value, env);
    } else if n == 3 {
      ReceiveKeepsOrSuspends(setup, w, Outcome(env.poll, env.polledAt));
    }
  }

  lemma {:induction false} EventIsDurable(setup: Setup, w: World, event: Event)
    requires DurableWorld(w) && (!event.Boots? ==> WellFormed(event.env))
    ensures DurableWorld(Happen(setup, w, event)) && FloorLeq(OnDisk(w.disk), OnDisk(Happen(setup, w, event).disk))
    ensures event.Iterates? ==> Happen(setup, w, event).up == w.up
  {
    if w.up && event.Iterates? {
      StepsAreDurable(setup, w, event.env, 8);
    } else if w.up && event.Dies? {
      StepsAreDurable(setup, w, event.env, event.steps);
    }
  }

  lemma {:induction false} RunsAreDurable(setup: Setup, events: seq<Event>)
    requires WellFormedRun(events)
    ensures DurableWorld(RunOf(setup, events))
  {
    if events != [] {
      RunsAreDurable(setup, events[..|events| - 1]);
      EventIsDurable(setup, RunOf(setup, events[..|events| - 1]), events[|events| - 1]);
    }
  }

  /** Over any run with deaths and restarts: revisions given to the engine never decrease, equal revisions carry
      equal digest and enabled flag, and the policy versions of their protections never decrease. */
  lemma RevisionsNeverRegress(setup: Setup, events: seq<Event>)
    requires WellFormedRun(events)
    ensures var handed := RunOf(setup, events).handed;
            forall i, j :: 0 <= i < j < |handed| ==> NoRegression(handed[i], handed[j])
  {
    RunsAreDurable(setup, events);
  }

  /** The recorded floor, policy version included, never goes back, and no restart is ever refused. */
  lemma {:induction false} FloorNeverGoesBack(setup: Setup, events: seq<Event>, n: nat)
    requires WellFormedRun(events) && n <= |events|
    ensures FloorLeq(OnDisk(RunOf(setup, events[..n]).disk), OnDisk(RunOf(setup, events).disk))
    ensures RunOf(setup, events).up ==> RunOf(setup, events).runner.seen == OnDisk(RunOf(setup, events).disk)
    ensures RunOf(setup, events + [Boots]).up
  {
    RunsAreDurable(setup, events);
    assert (events + [Boots])[..|events|] == events;
    if n == |events| {
      assert events[..n] == events;
    } else {
      var front := events[..|events| - 1];
      FloorNeverGoesBack(setup, front, n);
      assert front[..n] == events[..n];
      RunsAreDurable(setup, front);
      EventIsDurable(setup, RunOf(setup, front), events[|events| - 1]);
    }
  }

  // ---- Failing closed ----

  predicate AppliedAt(a: Option<Applied>, revision: int) { a.Some? && a.value.status == "applied" && a.value.revision == revision }

  /** What holds after every step: the engine runs behind a guard exactly when the runner is enabled. */
  predicate Running(r: Runner, e: State) {
    && (r.enabled ==> !r.suspended && e.process && e.guard.Some? && r.lastAttempt.Some?)
    && (!r.enabled ==> Idle(e))
    && (r.lastAttempt.Some? && !r.suspended ==> AppliedAt(r.lastAttempt, r.appliedRevision) && r.appliedRevision >= 1)
    && (r.lastAttempt.None? ==> r.appliedRevision == 0) && r.appliedRevision <= r.seen.revision
    && (!r.suspended && r.appliedRevision >= 1 && r.appliedRevision == r.seen.revision ==>
          r.enabled == r.seen.enabled && r.lastAttempt.Some? && r.lastAttempt.value.readback == r.seen.digest)
  }

  /** What also holds except between the floor write and the apply: an enabled runner runs the newest revision. */
  predicate UpToDate(r: Runner) { r.enabled ==> r.appliedRevision == r.seen.revision }

  /** And, except between the apply and the renewal: its deadline is the guard's lease. */
  predicate Leased(r: Runner, e: State) { r.enabled ==> r.validUntil == e.guard }

  predicate Settled(w: World) { Running(w.runner, w.engine) && UpToDate(w.runner) && Leased(w.runner, w.engine) }

  lemma SuspendedSettles(w: World, reason: string)
    requires Running(w.runner, w.engine)
    ensures Settled(Suspended(w, reason))
  {
  }

  lemma RememberRuns(w: World, c: Configuration, written: bool)
    requires Settled(w) && !Stale(c, w.runner.seen)
    ensures var p := Remember(w, c, written);
            && Running(p.world.runner, p.world.engine)
            && (p.go ==> p.world.runner.seen == FloorFor(c, w.runner.seen))
            && (p.go && p.world.runner.enabled && p.world.runner.appliedRevision == c.revision ==> Leased(p.world.runner, p.world.engine))
            && (!p.go ==> Settled(p.world))
  {
    if !Remember(w, c, written).go {
      SuspendedSettles(w, "configuration_floor_unavailable");
    }
  }

  predicate SeenIs(r: Runner, c: Configuration) {
    r.seen.revision == c.revision && r.seen.digest == Some(DigestOf(c)) && r.seen.enabled == c.enabled
  }

  lemma ApplyRuns(setup: Setup, w: World, c: Configuration, env: ApplyEnv, now: Time)
    requires Running(w.runner, w.engine) && SeenIs(w.runner, c) && c.revision >= 1
    ensures var w1 := ApplyStep(setup, w, c, env, now).world;
            && Running(w1.runner, w1.engine) && UpToDate(w1.runner) && w1.runner.seen == w.runner.seen
            && (!w1.runner.suspended ==> w1.runner.appliedRevision == c.revision && w1.runner.enabled == c.enabled)
  {
    if NeedsApply(w.runner, w.engine, c, now) {
      ApplyFailsClosed(setup.controller, w.engine, c, env);
    }
  }

  /** What the steps of an iteration have reached: settled, except around the apply. */
  predicate Reached(p: Progress, env: Env, n: nat) {
    if !p.go || n <= 3 || n >= 6 then Settled(p.world)
    else
      && Incoming(env).Some? && Running(p.world.runner, p.world.engine) && SeenIs(p.world.runner, Incoming(env).value)
      && (n == 5 ==>
            && UpToDate(p.world.runner)
            && (!p.world.runner.suspended ==>
                  && p.world.runner.appliedRevision == Incoming(env).value.revision
                  && p.world.runner.enabled == Incoming(env).value.enabled))
  }

  lemma {:induction false} StepReaches(setup: Setup, w: World, env: Env, n: nat)
    requires n > 0 && WellFormed(env) && Reached(Progress(w, true), env, n - 1)
    requires n > 3 ==> Incoming(env).Some?
    requires n == 4 ==> !Stale(Incoming(env).value, w.runner.seen)
    ensures Reached(Step(setup, w, env, n), env, n)
  {
    match n
    case 4 => RememberRuns(w, Incoming(env).value, env.written);
    case 5 => ApplyRuns(setup, w, Incoming(env).value, env.apply, env.appliedAt);
    case 6 =>
    case 8 =>
    case _ => PlainStepSettles(setup, w, env, n);
  }

  /** The steps that change nothing or suspend. */
  lemma PlainStepSettles(setup: Setup, w: World, env: Env, n: nat)
    requires Settled(w) && n !in {4, 5, 6, 8} && (n > 3 ==> Incoming(env).Some?)
    ensures Settled(Step(setup, w, env, n).world)
  {
    if n == 7 {
    } else {
      if n == 3 {
        ReceiveKeepsOrSuspends(setup, w, Outcome(env.poll, env.polledAt));
      }
      SuspendedSettles(w, Step(setup, w, env, n).world.runner.reason);
    }
  }

  lemma {:induction false} StepsReach(setup: Setup, w: World, env: Env, n: nat)
    requires Settled(w) && w.up && DurableWorld(w) && WellFormed(env)
    ensures Reached(Steps(setup, w, env, n), env, n)
  {
    if n > 0 {
      StepsReach(setup, w, env, n - 1);
      StepsAreDurable(setup, w, env, n - 1);
      var q := Steps(setup, w, env, n - 1);
      if q.go {
        StepReaches(setup, q.world, env, n);
      }
    }
  }

  /** An iteration settles again, and an enabled runner then has time left. */
  lemma {:induction false} IterationSettles(setup: Setup, w: World, env: Env)
    requires Settled(w) && w.up && DurableWorld(w) && WellFormed(env)
    ensures var after := Iterate(setup, w, env);
            Settled(after) && (after.runner.enabled ==> after.runner.validUntil.Some? && after.runner.validUntil.value > env.endedAt)
  {
    StepsReach(setup, w, env, 8);
  }

  lemma {:induction false} RunsSettle(setup: Setup, events: seq<Event>)
    requires WellFormedRun(events)
    ensures RunOf(setup, events).up ==> Settled(RunOf(setup, events))
  {
    if events != [] {
      var front, last := events[..|events| - 1], events[|events| - 1];
      RunsSettle(setup, front);
      RunsAreDurable(setup, front);
      if RunOf(setup, front).up && last.Iterates? {
        IterationSettles(setup, RunOf(setup, front), last.env);
      }
    }
  }

  /** The runner is fail-closed: at the end of each iteration of any run, enabled means not suspended, time left
      on the deadline and an equal lease on the guard, a live process, and the last attempt applied at the highest
      revision ever accepted with the digest on disk; not enabled means that neither process nor guard is left. */
  lemma {:induction false} IterationsEndClosed(setup: Setup, events: seq<Event>, env: Env)
    requires WellFormedRun(events) && WellFormed(env) && RunOf(setup, events).up
    ensures var w := RunOf(setup, events + [Iterates(env)]);
            var r := w.runner;
            && (r.enabled ==>
                  && !r.suspended && w.engine.process && w.engine.guard == r.validUntil
                  && r.validUntil.Some? && r.validUntil.value > env.endedAt
                  && w.disk.Some? && w.disk.value.enabled
                  && r.appliedRevision == w.disk.value.revision
                  && AppliedAt(r.lastAttempt, r.appliedRevision) && r.lastAttempt.value.readback == w.disk.value.digest
                  && forall i :: 0 <= i < |w.handed| ==> w.handed[i].revision <= r.appliedRevision)
            && (!r.enabled ==> Idle(w.engine))
  {
    var w := RunOf(setup, events);
    RunsSettle(setup, events);
    RunsAreDurable(setup, events);
    assert (events + [Iterates(env)])[..|events|] == events;
    IterationSettles(setup, w, env);
    EventIsDurable(setup, w, Iterates(env));
    var after := Iterate(setup, w, env);
    if after.runner.enabled {
      assert after.runner.seen == OnDisk(after.disk);
      forall i | 0 <= i < |after.handed| ensures after.handed[i].revision <= after.runner.appliedRevision {
        assert AtOrBelow(after.handed[i], OnDisk(after.disk));
      }
    }
  }

  /** The loop wakes up no later than a millisecond past the deadline it guards. */
  lemma WakesByDeadline(setup: Setup, events: seq<Event>, env: Env, now: Time)
    requires WellFormedRun(events) && WellFormed(env) && RunOf(setup, events).up && now >= env.endedAt
    ensures var r := RunOf(setup, events + [Iterates(env)]).runner;
            r.enabled ==> r.validUntil.Some? && now + Delay(r, now, env.pollInterval) <=
                            (if r.validUntil.value > now + MILLISECOND then r.validUntil.value else now + MILLISECOND)
  {
    IterationsEndClosed(setup, events, env);
  }
}
