/** The gateway executor: apply, read back, and fall back or disable when anything fails. Every
    System call is recorded in a log with its answer; answers come from an arbitrary script, so a
    statement for all scripts is a statement for every pattern of System failures. */
module GatewayExecutor {
  import opened Options
  import opened GatewayTypes
  import opened GatewayFirewall
  import opened RollbackAccess

  /** The System interface; Install is its Apply and Shutdown its Disable. */
  datatype Call = Baseline(name: string) | Install(desired: Desired) | Readback(desired: Desired) | Shutdown(name: string)
  datatype Answer = Failed | Returned(hash: string)
  datatype Entry = Entry(call: Call, answer: Answer)

  /** A call that did what was asked; a readback must also return a well-formed hash. */
  predicate Good(e: Entry) { e.answer.Returned? && (e.call.Readback? ==> IsSha256Text(e.answer.hash)) }

  datatype State = State(previous: Option<Desired>, log: seq<Entry>)
  datatype Outcome = Outcome(status: string, hash: string, reason: string)
  datatype Result = Result(state: State, outcome: Outcome)
  datatype Disabling = Disabling(state: State, ok: bool)

  function AnswerAt(script: seq<Answer>, n: nat): Answer { if n < |script| then script[n] else Failed }

  function Ask(script: seq<Answer>, s: State, call: Call): State {
    s.(log := s.log + [Entry(call, AnswerAt(script, |s.log|))])
  }

  predicate LastGood(s: State) { s.log != [] && Good(s.log[|s.log| - 1]) }

  /** A failed outcome; its hash text stands for the digest of status and reason. */
  function FailedOutcome(status: string, reason: string): Outcome {
    Outcome(status, "network-gateway:" + status + ":" + reason, reason)
  }

  function DisableLocked(script: seq<Answer>, s: State): Disabling {
    var name := if s.previous.Some? then InterfaceName(s.previous.value) else DEFAULT_INTERFACE;
    var s1 := Ask(script, s, Baseline(name));
    var s2 := Ask(script, s1, Shutdown(name));
    var ok := LastGood(s1) && LastGood(s2);
    Disabling(if ok then s2.(previous := None) else s2, ok)
  }

  function Rollback(script: seq<Answer>, s: State, name: string, now: Time): Disabling {
    var s1 := Ask(script, s, Baseline(name));
    if !LastGood(s1) then Disabling(Ask(script, s1, Shutdown(name)), false)
    else if s.previous.None? || s.previous.value.validUntil <= now then
      var s2 := Ask(script, s1, Shutdown(name));
      Disabling(s2, LastGood(s2))
    else
      var s2 := Ask(script, s1, Install(s.previous.value));
      if !LastGood(s2) then Disabling(Ask(script, s2, Shutdown(name)), false)
      else
        var s3 := Ask(script, s2, Readback(s.previous.value));
        if !LastGood(s3) then Disabling(Ask(script, s3, Shutdown(name)), false)
        else Disabling(s3, true)
  }

  function Recover(script: seq<Answer>, s: State, desired: Desired, now: Time, reason: string): Result {
    if s.previous.Some? && WouldRestoreAccess(s.previous.value, desired) then
      var d := DisableLocked(script, s);
      Result(d.state, FailedOutcome("rejected", if d.ok then reason else "restriction_disable_failed"))
    else
      var d := Rollback(script, s, InterfaceName(desired), now);
      Result(d.state,
             if !d.ok then FailedOutcome("rejected", "rollback_failed")
             else if s.previous.None? then FailedOutcome("rejected", reason)
             else FailedOutcome("rolled-back", reason))
  }

  /** Executor.Apply; `accepted` is the validator's answer. */
  function ApplyDesired(script: seq<Answer>, s: State, desired: Desired, now: Time, accepted: bool): Result {
    if !accepted then Result(s, FailedOutcome("rejected", "invalid_configuration"))
    else
      var s1 := Ask(script, s, Baseline(InterfaceName(desired)));
      if !LastGood(s1) then Recover(script, s1, desired, now, "firewall_baseline_failed")
      else
        var s2 := Ask(script, s1, Install(desired));
        if !LastGood(s2) then Recover(script, s2, desired, now, "system_apply_failed")
        else
          var s3 := Ask(script, s2, Readback(desired));
          if !LastGood(s3) then Recover(script, s3, desired, now, "readback_failed")
          else Result(s3.(previous := Some(desired)), Outcome("applied", s3.log[|s3.log| - 1].answer.hash, ""))
  }

  function VerifyDesired(script: seq<Answer>, s: State, desired: Desired, accepted: bool): Result {
    if !accepted then Result(s, FailedOutcome("rejected", "invalid_configuration"))
    else
      var s1 := Ask(script, s, Readback(desired));
      if !LastGood(s1) then Result(s1, FailedOutcome("rejected", "configuration_drift"))
      else Result(s1, Outcome("applied", s1.log[|s1.log| - 1].answer.hash, ""))
  }

  // ---- The executor object ----

  class Executor {
    const publicKey: string
    const egress: string
    const script: seq<Answer>
    var previous: Option<Desired>
    var log: seq<Entry>

    constructor (publicKey: string, egress: string, script: seq<Answer>, log: seq<Entry>)
      ensures this.publicKey == publicKey && this.egress == egress && this.script == script
      ensures Current() == State(None, log)
    {
      this.publicKey, this.egress, this.script := publicKey, egress, script;
      this.previous, this.log := None, log;
    }

    function Current(): State reads this { State(previous, log) }

    /** One System call: its answer is the script's next one. */
    method Invoke(call: Call) returns (ok: bool)
      modifies this`log
      ensures Current() == Ask(script, old(Current()), call)
      ensures ok == LastGood(Current())
    {
      var entry := Entry(call, AnswerAt(script, |log|));
      log := log + [entry];
      ok := Good(entry);
    }

    method Disable() returns (ok: bool)
      modifies this
      ensures Disabling(Current(), ok) == DisableLocked(script, old(Current()))
    {
      var name := if previous.Some? then InterfaceName(previous.value) else DEFAULT_INTERFACE;
      var baseline := Invoke(Baseline(name));
      var disabled := Invoke(Shutdown(name));
      ok := baseline && disabled;
      if ok {
        previous := None;
      }
    }

    method FallBack(name: string, now: Time) returns (ok: bool)
      modifies this`log
      ensures Disabling(Current(), ok) == Rollback(script, old(Current()), name, now)
    {
      ok := Invoke(Baseline(name));
      if !ok {
        var _ := Invoke(Shutdown(name));
        return false;
      }
      if previous.None? || previous.value.validUntil <= now {
        ok := Invoke(Shutdown(name));
        return;
      }
      ok := Invoke(Install(previous.value));
      if ok {
        ok := Invoke(Readback(previous.value));
      }
      if !ok {
        var _ := Invoke(Shutdown(name));
      }
    }

    method RecoverFailure(desired: Desired, now: Time, reason: string) returns (outcome: Outcome)
      modifies this
      ensures Result(Current(), outcome) == Recover(script, old(Current()), desired, now, reason)
    {
      if previous.Some? && WouldRestoreAccess(previous.value, desired) {
        var ok := Disable();
        return FailedOutcome("rejected", if ok then reason else "restriction_disable_failed");
      }
      var hadPrevious := previous.Some?;
      var ok := FallBack(InterfaceName(desired), now);
      if !ok {
        return FailedOutcome("rejected", "rollback_failed");
      }
      return FailedOutcome(if hadPrevious then "rolled-back" else "rejected", reason);
    }

    method Apply(desired: Desired, now: Time) returns (outcome: Outcome)
      modifies this
      ensures Result(Current(), outcome) ==
                ApplyDesired(script, old(Current()), desired, now, DesiredOk(desired, publicKey, now, egress))
    {
      var accepted := ValidateGatewayDesired(desired, publicKey, now, egress);
      if !accepted {
        return FailedOutcome("rejected", "invalid_configuration");
      }
      var ok := Invoke(Baseline(InterfaceName(desired)));
      if !ok {
        outcome := RecoverFailure(desired, now, "firewall_baseline_failed");
        return;
      }
      ok := Invoke(Install(desired));
      if !ok {
        outcome := RecoverFailure(desired, now, "system_apply_failed");
        return;
      }
      ok := Invoke(Readback(desired));
      if !ok {
        outcome := RecoverFailure(desired, now, "readback_failed");
        return;
      }
      previous := Some(desired);
      return Outcome("applied", log[|log| - 1].answer.hash, "");
    }

    method Verify(desired: Desired, now: Time) returns (outcome: Outcome)
      modifies this`log
      ensures Result(Current(), outcome) == VerifyDesired(script, old(Current()), desired, DesiredOk(desired, publicKey, now, egress))
    {
      var accepted := ValidateGatewayDesired(desired, publicKey, now, egress);
      if !accepted {
        return FailedOutcome("rejected", "invalid_configuration");
      }
      var ok := Invoke(Readback(desired));
      if !ok {
        return FailedOutcome("rejected", "configuration_drift");
      }
      return Outcome("applied", log[|log| - 1].answer.hash, "");
    }
  }

  // ---- Failing closed ----

  /** From entry `from` on, every Install directly follows a good Baseline of the same stretch. */
  ghost predicate InstallsGuarded(log: seq<Entry>, from: nat) {
    forall i :: from <= i < |log| && log[i].call.Install? ==> i > from && log[i - 1].call.Baseline? && Good(log[i - 1])
  }

  /** How a stretch of calls may end, given its outcome. */
  ghost predicate EndsClosed(before: State, after: State, outcome: Outcome, desired: Desired, now: Time) {
    && |after.log| > |before.log|
    && var last := after.log[|after.log| - 1];
       match outcome.status
       case "applied" =>
         last.call == Readback(desired) && Good(last) && after.previous == Some(desired) && outcome.hash == last.answer.hash
       case "rolled-back" =>
         && before.previous.Some? && after.previous == before.previous && Good(last)
         && !WouldRestoreAccess(before.previous.value, desired)
         && (if before.previous.value.validUntil > now then last.call == Readback(before.previous.value) else last.call.Shutdown?)
       case "rejected" => last.call.Shutdown? && (after.previous == before.previous || after.previous.None?)
       case _ => false
  }

  lemma RollbackEndsClosed(script: seq<Answer>, s: State, name: string, now: Time)
    ensures var d := Rollback(script, s, name, now);
            && s.log <= d.state.log && |d.state.log| > |s.log| && InstallsGuarded(d.state.log, |s.log|)
            && d.state.previous == s.previous
            && var last := d.state.log[|d.state.log| - 1];
               && (d.ok ==> Good(last))
               && (d.ok && s.previous.Some? && s.previous.value.validUntil > now ==> last.call == Readback(s.previous.value))
               && (!d.ok || s.previous.None? || s.previous.value.validUntil <= now ==> last.call.Shutdown?)
  {
  }

  lemma RecoverFailsClosed(script: seq<Answer>, s: State, desired: Desired, now: Time, reason: string)
    ensures var r := Recover(script, s, desired, now, reason);
            && s.log <= r.state.log
            && InstallsGuarded(r.state.log, |s.log|)
            && EndsClosed(s, r.state, r.outcome, desired, now)
            && r.outcome.status != "applied"
  {
    if s.previous.Some? && WouldRestoreAccess(s.previous.value, desired) {
    } else {
      RollbackEndsClosed(script, s, InterfaceName(desired), now);
    }
  }

  lemma GuardedConcat(log: seq<Entry>, from: nat, middle: nat)
    requires from <= middle <= |log| && InstallsGuarded(log[..middle], from) && InstallsGuarded(log, middle)
    ensures InstallsGuarded(log, from)
  {
    forall i | from <= i < |log| && log[i].call.Install? ensures i > from && log[i - 1].call.Baseline? && Good(log[i - 1]) {
      if i < middle {
        assert log[..middle][i] == log[i];
        assert log[..middle][i - 1] == log[i - 1];
      }
    }
  }

  /** Recovery after a stretch of calls that began in `s`. */
  lemma RecoverAfter(script: seq<Answer>, s: State, middle: State, desired: Desired, now: Time, reason: string)
    requires s.log <= middle.log && middle.previous == s.previous && InstallsGuarded(middle.log, |s.log|)
    ensures var r := Recover(script, middle, desired, now, reason);
            && s.log <= r.state.log
            && InstallsGuarded(r.state.log, |s.log|)
            && EndsClosed(s, r.state, r.outcome, desired, now)
  {
    RecoverFailsClosed(script, middle, desired, now, reason);
    var r := Recover(script, middle, desired, now, reason);
    assert r.state.log[..|middle.log|] == middle.log;
    GuardedConcat(r.state.log, |s.log|, |middle.log|);
  }

  /** For every pattern of System failures: no call when validation rejects; otherwise each Install is
      directly preceded by a good Baseline, and the last call is a good Readback of the desired
      configuration, a good Readback of an unexpired predecessor, or a Shutdown. */
  lemma ApplyFailsClosed(script: seq<Answer>, s: State, desired: Desired, now: Time, accepted: bool)
    ensures var r := ApplyDesired(script, s, desired, now, accepted);
            && s.log <= r.state.log
            && InstallsGuarded(r.state.log, |s.log|)
            && (!accepted ==> r.state == s && r.outcome.status == "rejected")
            && (accepted ==> EndsClosed(s, r.state, r.outcome, desired, now))
  {
    var s1 := Ask(script, s, Baseline(InterfaceName(desired)));
    var s2 := Ask(script, s1, Install(desired));
    var s3 := Ask(script, s2, Readback(desired));
    if !accepted {
    } else if !LastGood(s1) {
      RecoverAfter(script, s, s1, desired, now, "firewall_baseline_failed");
    } else if !LastGood(s2) {
      RecoverAfter(script, s, s2, desired, now, "system_apply_failed");
    } else if !LastGood(s3) {
      RecoverAfter(script, s, s3, desired, now, "readback_failed");
    }
  }

  /** Answers of a System that takes the baseline, fails to install, and shuts down. */
  const FAILING_INSTALL: seq<Answer> := [Returned(""), Failed, Returned(""), Returned("")]

  /** "Rolled-back means reinstalled" fails: over an expired predecessor the same status is given and the last
      call is a Shutdown. `ApplyFailsClosed` says which of the two it is: it depends on that deadline alone. */
  lemma RolledBackMayShutDown(s: State, desired: Desired, now: Time)
    requires s.log == [] && s.previous.Some? && s.previous.value.validUntil <= now && !WouldRestoreAccess(s.previous.value, desired)
    ensures var r := ApplyDesired(FAILING_INSTALL, s, desired, now, true);
            && r.outcome.status == "rolled-back" && |r.state.log| == 4
            && r.state.log[3].call == Shutdown(InterfaceName(desired)) && Good(r.state.log[3])
  {
    var s1 := Ask(FAILING_INSTALL, s, Baseline(InterfaceName(desired)));
    var s2 := Ask(FAILING_INSTALL, s1, Install(desired));
    assert LastGood(s1) && !LastGood(s2);
  }

  /** A failed Apply that reinstalls its predecessor admits no packet that the rejected configuration
      would not admit, exactly when no inverted pair of shared rules is exposed. */
  lemma ReinstalledPredecessorNeverWidens(script: seq<Answer>, s: State, desired: Desired, now: Time, publicKey: string, egress: string)
    requires DesiredOk(desired, publicKey, now, egress)
    requires ApplyDesired(script, s, desired, now, true).outcome.status == "rolled-back" && s.previous.value.validUntil > now
    requires s.previous.value.wireGuard.Some? ==> s.previous.value.wireGuard.value.interfaceName == DEFAULT_INTERFACE
    ensures s.previous.Some?
    ensures (forall packet :: Admits(s.previous.value, packet) ==> Admits(desired, packet)) <==> !ExposesInversion(s.previous.value, desired)
  {
    ApplyFailsClosed(script, s, desired, now, true);
    if desired.wireGuard.Some? {
      AcceptedRulesAllowOrDeny(desired, publicKey, now, egress);
    }
    RollbackNeverWidens(s.previous.value, desired);
  }
}
