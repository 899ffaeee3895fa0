/** The gateway runtime: expire, report, poll, check the version floor, apply, record. A world is the
    process, the executor, the floor file and what an observer has seen so far; a run is any sequence
    of cycles, deaths in the middle of a cycle and restarts, with arbitrary answers from the outside. */
module GatewayRuntime {
  import opened Options
  import opened GatewayTypes
  import Ex = GatewayExecutor

  datatype Status = Healthy | Degraded | Unhealthy

  /** The version floor; the digest is the enforcement document itself. Version 0 is "none yet". */
  datatype Floor = Floor(version: int, policy: int, digest: Option<Desired>)

  const NO_FLOOR := Floor(0, 0, None)

  datatype Report = Report(version: int, policy: int, status: string, hash: string, reason: string)

  datatype Runtime = Runtime(floor: Floor, configurationVersion: int, attemptedVersion: int, policyVersion: int,
                             validUntil: Option<Time>, status: Status, diagnostic: string, terminalReason: string,
                             disabled: bool, pending: Option<Report>, desired: Option<Desired>,
                             pollInterval: int, heartbeatInterval: int)

  /** `disk` lists the contents the floor file may show after a power loss; the last one is what is
      visible now. `handed`, `outcomes` and `reported` record what the applier was given, what it
      answered in this process, and which answers network control acknowledged. */
  datatype World = World(up: bool, runtime: Runtime, executor: Ex.State, disk: seq<Option<Floor>>,
                         handed: seq<Desired>, outcomes: seq<Report>, reported: seq<Report>)

  /** A message from network control; `forUs` gathers the schema, type, producer and identity checks. */
  datatype Message = Message(forUs: bool, occurredAt: Time, expiresAt: Time, payload: Option<Desired>)

  /** How far a floor write got: before the rename, renamed but the directory not synced, or done. */
  datatype Write = NotRenamed | RenamedOnly | Synced

  /** Everything one cycle learns from outside: clock readings, the validator and the network. */
  datatype Env = Env(now: Time, verifiedAt: Time, endedAt: Time, maxSkew: int, pendingAcknowledged: bool, poll: Option<Message>,
                     write: Write, accepted: bool, verifyAccepted: bool, acknowledged: bool)

  datatype Progress = Progress(world: World, go: bool)

  // ---- The steps of a cycle ----

  function WithStatus(w: World, status: Status, diagnostic: string): World {
    w.(runtime := w.runtime.(status := status, diagnostic := diagnostic))
  }

  predicate IsExpired(r: Runtime, now: Time) { r.validUntil.Some? && r.validUntil.value <= now && !r.disabled }

  function Expire(script: seq<Ex.Answer>, w: World, now: Time): Progress {
    if !IsExpired(w.runtime, now) then Progress(w, true)
    else
      var d := Ex.DisableLocked(script, w.executor);
      var w1 := w.(executor := d.state);
      if !d.ok then Progress(WithStatus(w1, Unhealthy, "expired_configuration_disable_failed"), false)
      else
        var w2 := WithStatus(w1, Unhealthy, "configuration_expired");
        Progress(w2.(runtime := w2.runtime.(disabled := true)), true)
  }

  function ReportPending(w: World, acknowledged: bool): Progress {
    if w.runtime.pending.None? then Progress(w, true)
    else if !acknowledged then Progress(WithStatus(w, Degraded, "configuration_report_failed"), false)
    else Progress(w.(reported := w.reported + [w.runtime.pending.value], runtime := w.runtime.(pending := None)), true)
  }

  predicate InWindow(m: Message, now: Time, maxSkew: int) {
    now - maxSkew <= m.occurredAt <= now + maxSkew && m.expiresAt > m.occurredAt && m.expiresAt > now
  }

  /** decodeDesired: the configuration a message carries, if it passes every check. */
  function Decoded(poll: Option<Message>, now: Time, maxSkew: int): Option<Desired> {
    if poll.Some? && poll.value.forUs && InWindow(poll.value, now, maxSkew)
       && poll.value.payload.Some? && poll.value.payload.value.validUntil == poll.value.expiresAt
    then poll.value.payload else None
  }

  function Incoming(env: Env): Option<Desired> { Decoded(env.poll, env.now, env.maxSkew) }

  function Receive(w: World, poll: Option<Message>, now: Time, maxSkew: int): Progress {
    if poll.None? then Progress(WithStatus(w, Degraded, "control_unavailable"), false)
    else if !poll.value.forUs then Progress(WithStatus(w, Degraded, "invalid_configuration_message"), false)
    else if !InWindow(poll.value, now, maxSkew) then Progress(WithStatus(w, Degraded, "expired_configuration_message"), false)
    else if Decoded(poll, now, maxSkew).None? then Progress(WithStatus(w, Degraded, "invalid_configuration_payload"), false)
    else Progress(w, true)
  }

  /** The floor file after a write that got as far as `write`. */
  function AfterWrite(disk: seq<Option<Floor>>, floor: Floor, write: Write): seq<Option<Floor>> {
    match write
    case NotRenamed => disk
    case RenamedOnly => disk + [Some(floor)]
    case Synced => [Some(floor)]
  }

  datatype Recalled = Recalled(ok: bool, floor: Floor, disk: seq<Option<Floor>>)

  function FloorOf(desired: Desired): Floor { Floor(desired.configurationVersion, desired.policyVersion, Some(Identity(desired))) }

  /** rememberConfiguration: refuse, recognise, or write the next floor before moving to it. */
  function Recall(floor: Floor, disk: seq<Option<Floor>>, write: Write, desired: Desired): Recalled {
    if desired.configurationVersion < floor.version || desired.policyVersion < floor.policy then Recalled(false, floor, disk)
    else if desired.configurationVersion == floor.version && floor.version > 0 then
      Recalled(floor.digest == Some(Identity(desired)), floor, disk)
    else Recalled(write.Synced?, if write.Synced? then FloorOf(desired) else floor, AfterWrite(disk, FloorOf(desired), write))
  }

  function Remember(script: seq<Ex.Answer>, w: World, write: Write, desired: Desired): Progress {
    var m := Recall(w.runtime.floor, w.disk, write, desired);
    var w1 := w.(disk := m.disk, runtime := w.runtime.(floor := m.floor));
    if m.ok then Progress(w1, true)
    else
      var w2 := WithStatus(w1.(executor := Ex.DisableLocked(script, w1.executor).state), Unhealthy, "configuration_floor_rejected");
      Progress(w2.(runtime := w2.runtime.(disabled := true)), false)
  }

  predicate ValidInterval(seconds: int) { 30 <= seconds <= 300 }

  function AdoptIntervals(r: Runtime, desired: Desired): Runtime {
    if desired.intervals.None? || !ValidInterval(desired.intervals.value.heartbeatSeconds) ||
       !ValidInterval(desired.intervals.value.pollSeconds) then r
    else r.(heartbeatInterval := desired.intervals.value.heartbeatSeconds * SECOND,
            pollInterval := desired.intervals.value.pollSeconds * SECOND)
  }

  function Confirmed(r: Runtime, desired: Desired): Runtime {
    r.(desired := Some(desired), validUntil := Some(desired.validUntil), status := Healthy, diagnostic := "", disabled := false)
  }

  /** Drift was seen: disable, and say why. */
  function Drifted(script: seq<Ex.Answer>, w: World, reason: string): World {
    var d := Ex.DisableLocked(script, w.executor);
    var w1 := w.(executor := d.state);
    if !d.ok then WithStatus(w1, Unhealthy, "configuration_drift_disable_failed")
    else w1.(runtime := w.runtime.(disabled := true, status := Unhealthy, diagnostic := reason))
  }

  /** The installed version again: read it back, and disable on drift. */
  function CheckDrift(script: seq<Ex.Answer>, w: World, accepted: bool, desired: Desired): World {
    var v := Ex.VerifyDesired(script, w.executor, desired, accepted);
    var w1 := w.(executor := v.state, handed := w.handed + [desired]);
    if v.outcome.status == "applied" then w1.(runtime := Confirmed(w.runtime, desired))
    else Drifted(script, w1, v.outcome.reason)
  }

  /** applyRuntimeIntervals and handleKnownVersion. */
  function HandleKnown(script: seq<Ex.Answer>, w: World, accepted: bool, desired: Desired): Progress {
    var r := AdoptIntervals(w.runtime, desired);
    var w0 := w.(runtime := r);
    var version := desired.configurationVersion;
    if version < r.configurationVersion || version < r.attemptedVersion then
      Progress(WithStatus(w0, Degraded, "stale_configuration"), false)
    else if version == r.attemptedVersion && r.attemptedVersion > r.configurationVersion then
      Progress(WithStatus(w0, Degraded, r.terminalReason), false)
    else if version == r.configurationVersion && r.configurationVersion > 0 && !r.disabled then
      Progress(CheckDrift(script, w0, accepted, desired), false)
    else Progress(w0, true)
  }

  function Recorded(r: Runtime, desired: Desired, outcome: Ex.Outcome, report: Report): Runtime {
    if outcome.status == "applied" then
      r.(desired := Some(desired), configurationVersion := desired.configurationVersion,
         attemptedVersion := desired.configurationVersion, policyVersion := desired.policyVersion,
         validUntil := Some(desired.validUntil), status := Healthy, diagnostic := "", disabled := false,
         terminalReason := "", pending := Some(report))
    else
      r.(attemptedVersion := desired.configurationVersion, status := Degraded, diagnostic := outcome.reason,
         terminalReason := outcome.reason, pending := Some(report))
  }

  function ReportFor(desired: Desired, outcome: Ex.Outcome): Report {
    Report(desired.configurationVersion, desired.policyVersion, outcome.status, outcome.hash, outcome.reason)
  }

  /** Apply and record the outcome. */
  function Attempted(w: World, a: Ex.Result, desired: Desired): World {
    var report := ReportFor(desired, a.outcome);
    w.(executor := a.state, handed := w.handed + [desired], outcomes := w.outcomes + [report],
       runtime := Recorded(w.runtime, desired, a.outcome, report))
  }

  /** Apply, record the outcome, report it. */
  function Attempt(script: seq<Ex.Answer>, w: World, now: Time, accepted: bool, acknowledged: bool, desired: Desired): Progress {
    var a := Ex.ApplyDesired(script, w.executor, desired, now, accepted);
    var w1 := Attempted(w, a, desired);
    if !acknowledged then Progress(w1, false)
    else Progress(w1.(reported := w1.reported + [ReportFor(desired, a.outcome)], runtime := w1.runtime.(pending := None)), false)
  }

  /** Step `n` of a cycle. */
  function Step(script: seq<Ex.Answer>, w: World, env: Env, n: nat): (p: Progress)
    requires n > 3 ==> Incoming(env).Some?
    ensures p.go && n == 3 ==> Incoming(env).Some?
    ensures w.disk != [] ==> p.world.disk != []
  {
    match n
    case 1 => Expire(script, w, env.now)
    case 2 => ReportPending(w, env.pendingAcknowledged)
    case 3 => Receive(w, env.poll, env.now, env.maxSkew)
    case 4 => Remember(script, w, env.write, Incoming(env).value)
    case 5 => HandleKnown(script, w, env.verifyAccepted, Incoming(env).value)
    case 6 => Attempt(script, w, env.now, env.accepted, env.acknowledged, Incoming(env).value)
    case _ => Progress(w, true)
  }

  /** The first `n` steps, stopping early where the cycle returns early. */
  function Steps(script: seq<Ex.Answer>, w: World, env: Env, n: nat): (p: Progress)
    ensures p.go && n >= 3 ==> Incoming(env).Some?
    ensures w.disk != [] ==> p.world.disk != []
  {
    if n == 0 then Progress(w, true)
    else
      var p := Steps(script, w, env, n - 1);
      if !p.go then p else Step(script, p.world, env, n)
  }

  /** Runtime.Cycle: unless the opening expiry check failed, the closing one runs on every return path. */
  function Cycle(script: seq<Ex.Answer>, w: World, env: Env): World {
    var first := Expire(script, w, env.now);
    if !first.go then first.world
    else Expire(script, Steps(script, w, env, 6).world, env.endedAt).world
  }

  // ---- Runs ----

  datatype Event =
    | Cycles(env: Env)
    | Dies(env: Env, steps: nat, survivor: nat)
    | Boots

  function FreshRuntime(floor: Floor): Runtime {
    Runtime(floor, 0, 0, 0, None, Unhealthy, "configuration_unavailable", "", true, None, None, 60 * SECOND, 60 * SECOND)
  }

  /** The process starts: it must disable the system, then read the floor file. */
  function Boot(script: seq<Ex.Answer>, w: World): World
    requires w.disk != []
  {
    var d := Ex.DisableLocked(script, Ex.State(None, w.executor.log));
    var w1 := w.(executor := d.state, outcomes := [], reported := []);
    var found := w.disk[|w.disk| - 1];
    if w.up then w
    else if !d.ok then w1
    else if found.None? then w1.(up := true, runtime := FreshRuntime(NO_FLOOR))
    else if found.value.version < 1 || found.value.policy < 1 then w1
    else w1.(up := true, runtime := FreshRuntime(found.value))
  }

  /** The process dies part-way into a cycle; the file keeps one of the contents it may show. */
  function Die(script: seq<Ex.Answer>, w: World, env: Env, steps: nat, survivor: nat): World
    requires w.disk != []
  {
    var reached := if w.up then Steps(script, w, env, steps).world else w;
    reached.(up := false, disk := [reached.disk[survivor % |reached.disk|]])
  }

  function Happen(script: seq<Ex.Answer>, w: World, event: Event): (after: World)
    requires w.disk != []
    ensures after.disk != []
  {
    match event
    case Cycles(env) => if w.up then Cycle(script, w, env) else w
    case Dies(env, steps, survivor) => Die(script, w, env, steps, survivor)
    case Boots => Boot(script, w)
  }

  const BEGINNING := World(false, FreshRuntime(NO_FLOOR), Ex.State(None, []), [None], [], [], [])

  /** The runtime contract: decoded versions are positive. */
  predicate WellFormed(env: Env) {
    Incoming(env).Some? ==> Incoming(env).value.configurationVersion >= 1 && Incoming(env).value.policyVersion >= 1
  }

  predicate WellFormedEvent(event: Event) { !event.Boots? ==> WellFormed(event.env) }

  // ---- The durable invariant: what survives every step and every death ----

  predicate IsFloorOf(f: Floor, c: Desired) {
    f.version == c.configurationVersion && f.policy == c.policyVersion && f.digest == Some(Identity(c))
  }

  /** A configuration is at or below a floor. */
  predicate AtOrBelow(c: Desired, f: Floor) {
    && c.configurationVersion <= f.version && c.policyVersion <= f.policy
    && (c.configurationVersion == f.version ==> f.digest == Some(Identity(c)))
  }

  predicate FloorLeq(f: Floor, g: Floor) {
    f.version <= g.version && f.policy <= g.policy && (f.version == g.version ==> f == g)
  }

  /** Two configurations given to the applier, the first one earlier. */
  predicate NoRegression(c: Desired, d: Desired) {
    && c.configurationVersion <= d.configurationVersion && c.policyVersion <= d.policyVersion
    && (c.configurationVersion == d.configurationVersion ==> Identity(c) == Identity(d))
  }

  predicate HandedInOrder(handed: seq<Desired>) {
    forall i, j :: 0 <= i < j < |handed| ==> NoRegression(handed[i], handed[j])
  }

  predicate ProperFloor(f: Floor) {
    f.version >= 1 && f.policy >= 1 && f.digest.Some? && f.digest.value.configurationVersion == f.version
    && f.digest.value.policyVersion == f.policy
  }

  predicate Bounds(f: Floor, handed: seq<Desired>) { forall i :: 0 <= i < |handed| ==> AtOrBelow(handed[i], f) }

  predicate DiskBounds(content: Option<Floor>, handed: seq<Desired>) {
    && (content.Some? ==> ProperFloor(content.value) && Bounds(content.value, handed))
    && (content.None? ==> handed == [])
  }

  predicate MemoryBelow(floor: Floor, content: Option<Floor>) {
    floor.version > 0 ==> content.Some? && FloorLeq(floor, content.value)
  }

  predicate Durable(w: World) {
    && HandedInOrder(w.handed)
    && w.disk != [] && (!w.up ==> |w.disk| == 1)
    && (forall k :: 0 <= k < |w.disk| ==> DiskBounds(w.disk[k], w.handed))
    && (w.up ==>
          && (w.runtime.floor == NO_FLOOR || ProperFloor(w.runtime.floor))
          && Bounds(w.runtime.floor, w.handed)
          && forall k :: 0 <= k < |w.disk| ==> MemoryBelow(w.runtime.floor, w.disk[k]))
  }

  /** The floor write: at every point in it, nothing handed out so far gets ahead of the floor. */
  lemma RememberIsDurable(script: seq<Ex.Answer>, w: World, write: Write, desired: Desired)
    requires Durable(w) && w.up && desired.configurationVersion >= 1 && desired.policyVersion >= 1
    ensures var p := Remember(script, w, write, desired);
            && Durable(p.world) && p.world.up
            && (p.go ==> IsFloorOf(p.world.runtime.floor, desired))
  {
    var p := Remember(script, w, write, desired);
    var next := FloorOf(desired);
    if p.world.disk != w.disk {
      forall i | 0 <= i < |w.handed| ensures AtOrBelow(w.handed[i], next) {
        assert AtOrBelow(w.handed[i], w.runtime.floor);
      }
      assert DiskBounds(Some(next), w.handed) by {
        assert ProperFloor(next);
      }
      assert FloorLeq(w.runtime.floor, next);
    }
  }

  lemma HandingIsDurable(w: World, after: World, desired: Desired)
    requires Durable(w) && w.up && IsFloorOf(w.runtime.floor, desired) && desired.configurationVersion >= 1
    requires after.up && after.handed == w.handed + [desired] && after.disk == w.disk && after.runtime.floor == w.runtime.floor
    ensures Durable(after)
  {
    forall i | 0 <= i < |w.handed| ensures NoRegression(w.handed[i], desired) {
      assert AtOrBelow(w.handed[i], w.runtime.floor);
    }
    forall k | 0 <= k < |w.disk| ensures DiskBounds(w.disk[k], after.handed) {
      assert MemoryBelow(w.runtime.floor, w.disk[k]) && DiskBounds(w.disk[k], w.handed);
    }
    assert Bounds(after.runtime.floor, after.handed);
  }

  /** The parts of the world that survive a death, and the floor in memory. */
  predicate SameFloor(w: World, after: World) {
    after.up == w.up && after.disk == w.disk && after.runtime.floor == w.runtime.floor
  }

  lemma ExpireFrame(script: seq<Ex.Answer>, w: World, now: Time)
    ensures var after := Expire(script, w, now).world; SameFloor(w, after) && after.handed == w.handed
  {
  }

  lemma CheckDriftFrame(script: seq<Ex.Answer>, w: World, accepted: bool, desired: Desired)
    ensures var after := CheckDrift(script, w, accepted, desired);
            SameFloor(w, after) && after.handed == w.handed + [desired] && after.outcomes == w.outcomes
            && after.reported == w.reported && after.runtime.pending == w.runtime.pending
  {
  }

  lemma HandleKnownFrame(script: seq<Ex.Answer>, w: World, accepted: bool, desired: Desired)
    ensures var after := HandleKnown(script, w, accepted, desired).world;
            SameFloor(w, after) && (after.handed == w.handed || after.handed == w.handed + [desired])
  {
    CheckDriftFrame(script, w.(runtime := AdoptIntervals(w.runtime, desired)), accepted, desired);
  }

  lemma AttemptFrame(script: seq<Ex.Answer>, w: World, now: Time, accepted: bool, acknowledged: bool, desired: Desired)
    ensures var after := Attempt(script, w, now, accepted, acknowledged, desired).world; SameFloor(w, after) && after.handed == w.handed + [desired]
  {
  }

  /** Only step 4 touches the floor or the file; only 5 and 6 hand anything to the applier. */
  lemma StepFrame(script: seq<Ex.Answer>, w: World, env: Env, n: nat)
    requires n != 4 && (n > 3 ==> Incoming(env).Some?)
    ensures var after := Step(script, w, env, n).world;
            && SameFloor(w, after)
            && (after.handed == w.handed || (5 <= n <= 6 && after.handed == w.handed + [Incoming(env).value]))
  {
    if n == 1 {
      ExpireFrame(script, w, env.now);
    } else if n == 5 {
      HandleKnownFrame(script, w, env.verifyAccepted, Incoming(env).value);
    } else if n == 6 {
      AttemptFrame(script, w, env.now, env.accepted, env.acknowledged, Incoming(env).value);
    }
  }

  lemma UntouchedIsDurable(w: World, after: World)
    requires Durable(w)
    requires SameFloor(w, after) && after.handed == w.handed
    ensures Durable(after)
  {
  }

  /** Steps 1 to 3 touch nothing durable; 4 moves the floor; 5 and 6 hand out what the floor admits. */
  lemma {:induction false} StepIsDurable(script: seq<Ex.Answer>, w: World, env: Env, n: nat)
    requires Durable(w) && w.up && WellFormed(env) && (n > 3 ==> Incoming(env).Some?)
    requires 5 <= n <= 6 ==> IsFloorOf(w.runtime.floor, Incoming(env).value)
    ensures var p := Step(script, w, env, n);
            && Durable(p.world) && p.world.up
            && (p.go && 4 <= n <= 5 ==> IsFloorOf(p.world.runtime.floor, Incoming(env).value))
  {
    var p := Step(script, w, env, n);
    if n == 4 {
      RememberIsDurable(script, w, env.write, Incoming(env).value);
    } else {
      StepFrame(script, w, env, n);
      if p.world.handed == w.handed {
        UntouchedIsDurable(w, p.world);
      } else {
        HandingIsDurable(w, p.world, Incoming(env).value);
      }
    }
  }

  /** Every prefix of a cycle keeps the durable invariant. */
  lemma {:induction false} StepsAreDurable(script: seq<Ex.Answer>, w: World, env: Env, n: nat)
    requires Durable(w) && w.up && WellFormed(env)
    ensures var p := Steps(script, w, env, n);
            && Durable(p.world) && p.world.up
            && (p.go && 4 <= n <= 5 ==> IsFloorOf(p.world.runtime.floor, Incoming(env).value))
  {
    if n > 0 {
      StepsAreDurable(script, w, env, n - 1);
      var p := Steps(script, w, env, n - 1);
      if p.go {
        StepIsDurable(script, p.world, env, n);
      }
    }
  }

  lemma {:induction false} CycleIsDurable(script: seq<Ex.Answer>, w: World, env: Env)
    requires Durable(w) && w.up && WellFormed(env)
    ensures Durable(Cycle(script, w, env)) && Cycle(script, w, env).up
  {
    var body := Steps(script, w, env, 6).world;
    StepsAreDurable(script, w, env, 6);
    ExpireFrame(script, w, env.now);
    ExpireFrame(script, body, env.endedAt);
    UntouchedIsDurable(w, Expire(script, w, env.now).world);
    UntouchedIsDurable(body, Expire(script, body, env.endedAt).world);
  }

  lemma {:induction false} DeathIsDurable(script: seq<Ex.Answer>, w: World, env: Env, steps: nat, survivor: nat)
    requires Durable(w) && WellFormed(env)
    ensures Durable(Die(script, w, env, steps, survivor))
  {
    if w.up {
      StepsAreDurable(script, w, env, steps);
    }
  }

  lemma {:induction false} EventIsDurable(script: seq<Ex.Answer>, w: World, event: Event)
    requires Durable(w) && WellFormedEvent(event)
    ensures Durable(Happen(script, w, event))
  {
    match event
    case Cycles(env) =>
      if w.up {
        CycleIsDurable(script, w, env);
      }
    case Dies(env, steps, survivor) => DeathIsDurable(script, w, env, steps, survivor);
    case Boots =>
  }

  /** The world after a sequence of events. */
  function RunOf(script: seq<Ex.Answer>, events: seq<Event>): (w: World)
    ensures w.disk != []
  {
    if events == [] then BEGINNING
    else Happen(script, RunOf(script, events[..|events| - 1]), events[|events| - 1])
  }

  /** Every run ends with the durable invariant. */
  lemma {:induction false} RunsAreDurable(script: seq<Ex.Answer>, events: seq<Event>)
    requires forall i :: 0 <= i < |events| ==> WellFormedEvent(events[i])
    ensures Durable(RunOf(script, events))
  {
    if events != [] {
      RunsAreDurable(script, events[..|events| - 1]);
      EventIsDurable(script, RunOf(script, events[..|events| - 1]), events[|events| - 1]);
    }
  }

  /** No regression across crashes: in any run, configurations given to the applier never go back in
      configuration or policy version, and two of the same version are the same document, so no
      version's deadline is ever extended. */
  lemma AppliedConfigurationsNeverRegress(script: seq<Ex.Answer>, events: seq<Event>)
    requires forall k :: 0 <= k < |events| ==> WellFormedEvent(events[k])
    ensures var handed := RunOf(script, events).handed;
            forall i, j :: 0 <= i < j < |handed| ==>
              && handed[i].configurationVersion <= handed[j].configurationVersion
              && handed[i].policyVersion <= handed[j].policyVersion
              && (handed[i].configurationVersion == handed[j].configurationVersion ==>
                    handed[i].validUntil == handed[j].validUntil && Identity(handed[i]) == Identity(handed[j]))
  {
    RunsAreDurable(script, events);
    var handed := RunOf(script, events).handed;
    forall i, j | 0 <= i < j < |handed|
      ensures NoRegression(handed[i], handed[j])
      ensures Identity(handed[i]) == Identity(handed[j]) ==> handed[i].validUntil == handed[j].validUntil
    {
      assert HandedInOrder(handed);
      assert Identity(handed[i]).validUntil == handed[i].validUntil && Identity(handed[j]).validUntil == handed[j].validUntil;
    }
  }
}
