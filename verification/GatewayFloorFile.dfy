/** What the floor file shows over a run: exactly when it goes back, and that it never does as long as no
    write breaks off between the rename and the directory sync. */
module GatewayFloorFile {
  import opened Options
  import opened GatewayTypes
  import opened GatewayRuntime
  import Ex = GatewayExecutor

  /** The floor the file shows now. */
  function Shown(disk: seq<Option<Floor>>): Floor
    requires disk != []
  {
    if disk[|disk| - 1].Some? then disk[|disk| - 1].value else NO_FLOOR
  }

  /** The configuration is new to the floor in memory and not below it. */
  predicate Admitted(floor: Floor, desired: Desired) {
    && desired.configurationVersion >= floor.version && desired.policyVersion >= floor.policy
    && !(desired.configurationVersion == floor.version && floor.version > 0)
  }

  /** The floor check lowers what the file shows exactly when the write gets to the rename, memory admits the
      configuration, and the file shows something the configuration is not at or above. */
  lemma RememberLowersExactlyWhen(script: seq<Ex.Answer>, w: World, write: Write, desired: Desired)
    requires w.disk != []
    ensures var after := Remember(script, w, write, desired).world;
            && after.disk != []
            && (!FloorLeq(Shown(w.disk), Shown(after.disk))
                <==> !write.NotRenamed? && Admitted(w.runtime.floor, desired) && !FloorLeq(Shown(w.disk), FloorOf(desired)))
  {
  }

  /** The same for a whole cycle: only its floor check touches the file. */
  lemma {:induction false} CycleLowersExactlyWhen(script: seq<Ex.Answer>, w: World, env: Env)
    requires w.disk != []
    ensures var after := Cycle(script, w, env);
            && after.disk != []
            && (!FloorLeq(Shown(w.disk), Shown(after.disk))
                <==> && Steps(script, w, env, 3).go && !env.write.NotRenamed? && Admitted(w.runtime.floor, Incoming(env).value)
                     && !FloorLeq(Shown(w.disk), FloorOf(Incoming(env).value)))
  {
    ExpireFrame(script, w, env.now);
    ExpireFrame(script, Steps(script, w, env, 6).world, env.endedAt);
    EarlySteps(script, w, env, 3);
    var p3, p4 := Steps(script, w, env, 3), Steps(script, w, env, 4);
    if p3.go {
      assert p4 == Step(script, p3.world, env, 4);
      RememberLowersExactlyWhen(script, p3.world, env.write, Incoming(env).value);
      LateSteps(script, w, env, 6);
      if !Expire(script, w, env.now).go {
        StoppedStaysStopped(script, w, env, 3);
      }
    } else {
      StoppedEarly(script, w, env, 6);
    }
  }

  lemma {:induction false} EarlySteps(script: seq<Ex.Answer>, w: World, env: Env, n: nat)
    requires n <= 3
    ensures SameFloor(w, Steps(script, w, env, n).world)
  {
    if n > 0 {
      EarlySteps(script, w, env, n - 1);
      var p := Steps(script, w, env, n - 1);
      if p.go {
        StepFrame(script, p.world, env, n);
      }
    }
  }

  lemma {:induction false} LateSteps(script: seq<Ex.Answer>, w: World, env: Env, n: nat)
    requires n >= 4
    ensures SameFloor(Steps(script, w, env, 4).world, Steps(script, w, env, n).world)
  {
    if n > 4 {
      LateSteps(script, w, env, n - 1);
      var p := Steps(script, w, env, n - 1);
      if p.go {
        StepFrame(script, p.world, env, n);
      }
    }
  }

  lemma {:induction false} StoppedEarly(script: seq<Ex.Answer>, w: World, env: Env, n: nat)
    requires n >= 3 && !Steps(script, w, env, 3).go
    ensures Steps(script, w, env, n) == Steps(script, w, env, 3)
  {
    if n > 3 {
      StoppedEarly(script, w, env, n - 1);
    }
  }

  /** A failed opening expiry check stops the steps at once. */
  lemma {:induction false} StoppedStaysStopped(script: seq<Ex.Answer>, w: World, env: Env, n: nat)
    requires n >= 1 && !Expire(script, w, env.now).go
    ensures !Steps(script, w, env, n).go
  {
    if n == 1 {
      assert Steps(script, w, env, 0) == Progress(w, true);
    } else {
      StoppedStaysStopped(script, w, env, n - 1);
    }
  }

  /** The property "the file only grows" fails: a write that breaks off after the rename shows a version that is
      then lowered, from any floor in memory. What was handed out stays at or below both. */
  lemma FileMayGoBack(script: seq<Ex.Answer>, w: World, higher: Desired, lower: Desired)
    requires Durable(w) && w.up
    requires w.runtime.floor.version < lower.configurationVersion < higher.configurationVersion
    requires lower.policyVersion >= 1 && higher.policyVersion >= 1 && lower.policyVersion >= w.runtime.floor.policy
    requires higher.policyVersion >= w.runtime.floor.policy && lower.configurationVersion >= 1
    ensures var p := Remember(script, w, RenamedOnly, higher);
            var q := Remember(script, p.world, Synced, lower);
            && !p.go && Durable(p.world) && Shown(p.world.disk) == FloorOf(higher)
            && q.go && Durable(q.world) && Shown(q.world.disk) == FloorOf(lower)
  {
    RememberIsDurable(script, w, RenamedOnly, higher);
    RememberIsDurable(script, Remember(script, w, RenamedOnly, higher).world, Synced, lower);
  }

  // ---- Whole writes ----

  /** The file shows one content for certain and, while the process is up, the floor in memory. */
  predicate Intact(w: World) { |w.disk| == 1 && (w.up ==> Shown(w.disk) == w.runtime.floor) }

  /** No write of the event breaks off between the rename and the sync. */
  predicate WholeWrites(event: Event) { !event.Boots? ==> !event.env.write.RenamedOnly? }

  lemma {:induction false} StepsGrow(script: seq<Ex.Answer>, w: World, env: Env, n: nat)
    requires Intact(w) && w.up && WellFormed(env) && !env.write.RenamedOnly?
    ensures var after := Steps(script, w, env, n).world;
            Intact(after) && after.up && FloorLeq(Shown(w.disk), Shown(after.disk))
  {
    if n > 0 {
      StepsGrow(script, w, env, n - 1);
      var p := Steps(script, w, env, n - 1);
      if p.go && n == 4 {
      } else if p.go {
        StepFrame(script, p.world, env, n);
      }
    }
  }

  lemma {:induction false} EventGrows(script: seq<Ex.Answer>, w: World, event: Event)
    requires Intact(w) && WellFormedEvent(event) && WholeWrites(event)
    ensures var after := Happen(script, w, event); Intact(after) && FloorLeq(Shown(w.disk), Shown(after.disk))
  {
    match event
    case Cycles(env) =>
      if w.up {
        StepsGrow(script, w, env, 6);
        ExpireFrame(script, w, env.now);
        ExpireFrame(script, Steps(script, w, env, 6).world, env.endedAt);
      }
    case Dies(env, steps, survivor) =>
      if w.up {
        StepsGrow(script, w, env, steps);
      }
    case Boots =>
  }

  /** When the file does only grow: in every run whose writes fail before the rename or not at all, whatever deaths
      and restarts there are, what it shows never goes back and, while the process is up, is the floor in memory. */
  lemma {:induction false} FileOnlyGrows(script: seq<Ex.Answer>, events: seq<Event>, n: nat)
    requires n <= |events| && forall i :: 0 <= i < |events| ==> WellFormedEvent(events[i]) && WholeWrites(events[i])
    ensures Intact(RunOf(script, events)) && Intact(RunOf(script, events[..n]))
    ensures FloorLeq(Shown(RunOf(script, events[..n]).disk), Shown(RunOf(script, events).disk))
  {
    if events == [] {
      assert events[..n] == events;
    } else {
      var front := events[..|events| - 1];
      FileOnlyGrows(script, front, if n < |events| then n else n - 1);
      EventGrows(script, RunOf(script, front), events[|events| - 1]);
      if n < |events| {
        assert front[..n] == events[..n];
      } else {
        assert events[..n] == events;
      }
    }
  }
}
