/** What the executor answers and calls, read off the System's answers: when Apply and Verify succeed, what a
    predecessor must satisfy to be reinstalled, and which interface each call names. */
module ExecutorLaws {
  import opened Options
  import opened GatewayTypes
  import opened GatewayExecutor
  import opened RollbackAccess

  /** The System's answer to call number `n` is a success; of a readback, with a well-formed hash. */
  predicate Succeeds(script: seq<Answer>, n: nat) { n < |script| && script[n].Returned? }
  predicate ReadsBack(script: seq<Answer>, n: nat) { Succeeds(script, n) && IsSha256Text(script[n].hash) }

  // ---- Verify ----

  /** Verify answers "applied" exactly when the configuration is accepted and its one call, a readback of just that
      configuration, succeeds; it then passes the hash on. Anything else is a rejection. */
  lemma VerifyMeansReadBack(script: seq<Answer>, s: State, desired: Desired, accepted: bool)
    ensures var r := VerifyDesired(script, s, desired, accepted);
            && r.state.previous == s.previous
            && (r.outcome.status == "applied" <==> accepted && ReadsBack(script, |s.log|))
            && (r.outcome.status != "applied" ==> r.outcome.status == "rejected" && r.outcome.reason != "")
            && (!accepted ==> r.state.log == s.log)
            && (accepted ==>
                  && |r.state.log| == |s.log| + 1 && r.state.log[..|s.log|] == s.log
                  && r.state.log[|s.log|].call == Readback(desired))
            && (r.outcome.status == "applied" ==>
                  Good(r.state.log[|s.log|]) && r.outcome.hash == script[|s.log|].hash && r.outcome.reason == "")
  {
  }

  // ---- Apply ----

  /** Apply answers "applied" exactly when the configuration is accepted and baseline, install and readback all succeed,
      in that order and with nothing else called; it then passes the hash on and remembers the configuration. */
  lemma ApplySucceedsExactlyWhen(script: seq<Answer>, s: State, desired: Desired, now: Time, accepted: bool)
    ensures var r := ApplyDesired(script, s, desired, now, accepted);
            var n := |s.log|;
            && (r.outcome.status == "applied" <==> accepted && Succeeds(script, n) && Succeeds(script, n + 1) && ReadsBack(script, n + 2))
            && (r.outcome.status == "applied" ==>
                  && |r.state.log| == n + 3 && r.state.log[..n] == s.log
                  && r.state.log[n].call == Baseline(InterfaceName(desired)) && r.state.log[n + 1].call == Install(desired)
                  && r.state.log[n + 2].call == Readback(desired)
                  && r.state.previous == Some(desired) && r.outcome.hash == script[n + 2].hash && r.outcome.reason == "")
  {
    RecoverNeverApplies(script, Ask(script, s, Baseline(InterfaceName(desired))), desired, now, "firewall_baseline_failed");
    var s1 := Ask(script, s, Baseline(InterfaceName(desired)));
    var s2 := Ask(script, s1, Install(desired));
    var s3 := Ask(script, s2, Readback(desired));
    RecoverNeverApplies(script, s2, desired, now, "system_apply_failed");
    RecoverNeverApplies(script, s3, desired, now, "readback_failed");
  }

  lemma RecoverNeverApplies(script: seq<Answer>, s: State, desired: Desired, now: Time, reason: string)
    ensures Recover(script, s, desired, now, reason).outcome.status != "applied"
  {
    RecoverFailsClosed(script, s, desired, now, reason);
  }

  /** Which call failed is what the outcome gives as its reason, unless recovery itself failed. */
  lemma FailureNamesItsStep(script: seq<Answer>, s: State, desired: Desired, now: Time, accepted: bool)
    ensures var r := ApplyDesired(script, s, desired, now, accepted);
            var n := |s.log|;
            && (!accepted ==> r.outcome.reason == "invalid_configuration")
            && (accepted && r.outcome.reason !in ["rollback_failed", "restriction_disable_failed"] ==>
                  && (!Succeeds(script, n) ==> r.outcome.reason == "firewall_baseline_failed")
                  && (Succeeds(script, n) && !Succeeds(script, n + 1) ==> r.outcome.reason == "system_apply_failed")
                  && (Succeeds(script, n) && Succeeds(script, n + 1) && !ReadsBack(script, n + 2) ==> r.outcome.reason == "readback_failed"))
  {
  }

  // ---- Reinstalling a predecessor ----

  /** Falling back to `previous` cannot bring back what `desired` takes away: the policy version is the same, every
      allow of the old rules is still there and every deny of the new rules was there before. */
  ghost predicate MayFallBack(previous: Desired, desired: Desired) {
    && previous.policyVersion == desired.policyVersion
    && (previous.wireGuard.Some? ==>
          && desired.wireGuard.Some?
          && (forall rule :: rule in previous.wireGuard.value.rules && rule.effect == "allow" ==> rule in desired.wireGuard.value.rules)
          && (forall rule :: rule in desired.wireGuard.value.rules && rule.effect == "deny" ==> rule in previous.wireGuard.value.rules))
  }

  lemma CheckIsMayFallBack(previous: Desired, desired: Desired)
    ensures !WouldRestoreAccess(previous, desired) <==> MayFallBack(previous, desired)
  {
    if previous.wireGuard.Some? && desired.wireGuard.Some? {
      var before, after := previous.wireGuard.value.rules, desired.wireGuard.value.rules;
      assert forall i :: 0 <= i < |before| ==> before[i] in before;
      assert forall i :: 0 <= i < |after| ==> after[i] in after;
      if rule :| rule in before && rule.effect == "allow" && rule !in after {
        var i :| 0 <= i < |before| && before[i] == rule;
        assert IsAllow(before[i]);
      }
      if rule :| rule in after && rule.effect == "deny" && rule !in before {
        var i :| 0 <= i < |after| && after[i] == rule;
        assert IsDeny(after[i]);
      }
    }
  }

  /** Every configuration Apply installs is the desired one, or the unexpired predecessor it may fall back to; baselines and
      shutdowns name the desired interface or the held one. */
  ghost predicate CallsOnly(log: seq<Entry>, from: nat, previous: Option<Desired>, desired: Desired, now: Time) {
    forall i :: from <= i < |log| ==>
      && (log[i].call.Install? ==>
            log[i].call.desired == desired ||
            (previous == Some(log[i].call.desired) && previous.value.validUntil > now && MayFallBack(previous.value, desired)))
      && (log[i].call.Baseline? || log[i].call.Shutdown? ==>
            log[i].call.name == InterfaceName(desired) || (previous.Some? && log[i].call.name == InterfaceName(previous.value)))
  }

  lemma DisableCalls(script: seq<Answer>, s: State)
    ensures var d := DisableLocked(script, s);
            var name := if s.previous.Some? then InterfaceName(s.previous.value) else DEFAULT_INTERFACE;
            && |d.state.log| == |s.log| + 2 && d.state.log[..|s.log|] == s.log
            && d.state.log[|s.log|].call == Baseline(name) && d.state.log[|s.log| + 1].call == Shutdown(name)
            && (d.ok <==> Succeeds(script, |s.log|) && Succeeds(script, |s.log| + 1))
            && d.state.previous == if d.ok then None else s.previous
  {
  }

  lemma RecoverCalls(script: seq<Answer>, s: State, desired: Desired, now: Time, reason: string)
    ensures var r := Recover(script, s, desired, now, reason);
            s.log <= r.state.log && CallsOnly(r.state.log, |s.log|, s.previous, desired, now)
  {
    if s.previous.Some? {
      CheckIsMayFallBack(s.previous.value, desired);
    }
    if s.previous.Some? && WouldRestoreAccess(s.previous.value, desired) {
      DisableCalls(script, s);
    }
  }

  /** A failed Apply rolls back exactly when there is a predecessor it may fall back to and the calls for that succeed:
      baseline, then reinstall and readback while it is unexpired, or a shutdown once it has expired. */
  lemma RollsBackExactlyWhen(script: seq<Answer>, s: State, desired: Desired, now: Time, reason: string)
    ensures var r := Recover(script, s, desired, now, reason);
            var n := |s.log|;
            && (r.outcome.status == "rolled-back" <==>
                  && s.previous.Some? && MayFallBack(s.previous.value, desired) && Succeeds(script, n) && Succeeds(script, n + 1)
                  && (s.previous.value.validUntil > now ==> ReadsBack(script, n + 2)))
            && (r.outcome.status == "rolled-back" && s.previous.value.validUntil > now ==>
                  && |r.state.log| == n + 3 && r.state.log[n].call == Baseline(InterfaceName(desired))
                  && r.state.log[n + 1].call == Install(s.previous.value) && r.state.log[n + 2].call == Readback(s.previous.value))
  {
    if s.previous.Some? {
      CheckIsMayFallBack(s.previous.value, desired);
    }
  }

  /** Recovery after a stretch of calls that began in `s`. */
  lemma RecoverCallsAfter(script: seq<Answer>, s: State, middle: State, desired: Desired, now: Time, reason: string)
    requires s.log <= middle.log && middle.previous == s.previous && CallsOnly(middle.log, |s.log|, s.previous, desired, now)
    ensures var r := Recover(script, middle, desired, now, reason);
            s.log <= r.state.log && CallsOnly(r.state.log, |s.log|, s.previous, desired, now)
  {
    RecoverCalls(script, middle, desired, now, reason);
    var log := Recover(script, middle, desired, now, reason).state.log;
    assert forall i :: 0 <= i < |middle.log| ==> log[i] == middle.log[i];
  }

  lemma {:induction false} ApplyCallsOnly(script: seq<Answer>, s: State, desired: Desired, now: Time, accepted: bool)
    ensures var r := ApplyDesired(script, s, desired, now, accepted);
            s.log <= r.state.log && CallsOnly(r.state.log, |s.log|, s.previous, desired, now)
  {
    var s1 := Ask(script, s, Baseline(InterfaceName(desired)));
    var s2 := Ask(script, s1, Install(desired));
    var s3 := Ask(script, s2, Readback(desired));
    if !accepted {
    } else if !LastGood(s1) {
      RecoverCallsAfter(script, s, s1, desired, now, "firewall_baseline_failed");
    } else if !LastGood(s2) {
      RecoverCallsAfter(script, s, s2, desired, now, "system_apply_failed");
    } else if !LastGood(s3) {
      RecoverCallsAfter(script, s, s3, desired, now, "readback_failed");
    }
  }

  /** A failed Apply across policy versions never reinstalls its predecessor. */
  lemma PolicyChangeNeverRollsBack(script: seq<Answer>, s: State, desired: Desired, now: Time, accepted: bool)
    requires s.previous.Some? && s.previous.value.policyVersion != desired.policyVersion
    ensures var r := ApplyDesired(script, s, desired, now, accepted);
            && r.outcome.status != "rolled-back"
            && forall i :: |s.log| <= i < |r.state.log| && r.state.log[i].call.Install? ==> r.state.log[i].call.desired == desired
  {
    ApplyCallsOnly(script, s, desired, now, accepted);
  }
}
