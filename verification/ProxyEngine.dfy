/** The proxy engine: a child process, an egress guard and a configuration file, started, checked,
    stopped and replaced as one unit. Every file, process and network answer is arbitrary. */
module ProxyEngine {
  import opened Options

  type Time = int

  datatype Binding = Binding(siteId: string, deviceId: string, resourceIds: seq<string>)
  datatype Protection = Protection(policyVersion: int, cidrs: seq<string>, hosts: seq<string>)
  datatype Configuration = Configuration(binding: Option<Binding>, protection: Option<Protection>, revision: int, engine: string,
                                         enabled: bool, contentHash: string, content: string, validUntil: Time)

  /** The digest, as the document it is computed from; a bare content hash when there is nothing else. */
  datatype Digest =
    | ContentOnly(contentHash: string)
    | Full(contentHash: string, enabled: bool, binding: Option<Binding>, protection: Option<Protection>)

  function DigestOf(c: Configuration): Digest {
    if c.protection.None? && c.binding.None? then ContentOnly(c.contentHash)
    else Full(c.contentHash, c.enabled, c.binding, c.protection)
  }

  /** What was answered for a configuration; `readback` is the digest only when it was applied. */
  datatype Applied = Applied(revision: int, status: string, readback: Option<Digest>, reason: string)

  /** `guard` is the egress guard's lease; `fileHash` stands for the content it was computed from. */
  datatype State = State(process: bool, guard: Option<Time>, fileHash: Option<string>, file: Option<string>,
                         protection: Option<Protection>, bootstrapAt: Option<Time>)

  const IDLE := State(false, None, None, None, None, None)

  datatype HealthEnv = HealthEnv(guardReady: bool, exited: bool, probed: bool, file: Option<string>,
                                 protectionRead: bool, responds: bool, cancelled: bool)

  datatype StartEnv = StartEnv(guardReady: bool, launched: bool, attempts: seq<HealthEnv>)

  datatype ApplyEnv = ApplyEnv(readable: bool, protectionOk: bool, rendered: bool, protected: bool, guarded: Option<string>,
                               readbackSupported: bool, validated: bool, written: bool, start: StartEnv,
                               actual: Option<string>, restored: bool, now: Time)

  datatype Checked = Checked(state: State, ok: bool)
  datatype Answered = Answered(state: State, applied: Applied)

  const START_ATTEMPTS := 20

  // ---- The operations as functions ----

  function Stopped(s: State): State { s.(process := false, guard := None) }

  function Health(controller: bool, s: State, env: HealthEnv): Checked {
    if s.guard.None? || !env.guardReady || !s.process then Checked(s, false)
    else if env.exited then Checked(s.(process := false), false)
    else Checked(s, env.probed && (s.fileHash.Some? ==> env.file == s.fileHash)
                    && (controller && s.protection.Some? ==> env.protectionRead) && env.responds)
  }

  /** The start-up health loop from attempt `n` on; when it gives up everything is stopped. */
  function Awaited(controller: bool, s: State, attempts: seq<HealthEnv>, n: nat): Checked
    requires n <= START_ATTEMPTS
    decreases START_ATTEMPTS - n
  {
    if n == START_ATTEMPTS || n >= |attempts| then Checked(Stopped(s), false)
    else
      var h := Health(controller, s, attempts[n]);
      if h.ok then h
      else if attempts[n].cancelled then Checked(Stopped(h.state), false)
      else Awaited(controller, h.state, attempts, n + 1)
  }

  function Started(controller: bool, s: State, env: StartEnv): Checked {
    if s.guard.None? || !env.guardReady || !env.launched then Checked(s, false)
    else Awaited(controller, s.(process := true), env.attempts, 0)
  }

  /** Put the old file back, or remove the new one; the predecessor is never started again. */
  function RolledBack(s: State, earlier: Option<string>, restored: bool, revision: int, reason: string): Answered {
    if !restored then Answered(Stopped(s), Applied(revision, "rejected", None, "rollback_failed"))
    else Answered(Stopped(s).(file := earlier), Applied(revision, "rolled-back", None, reason))
  }

  function Reject(s: State, revision: int, reason: string): Answered {
    Answered(Stopped(s), Applied(revision, "rejected", None, reason))
  }

  /** From the written file on: start, read back, commit. */
  function Launched(controller: bool, s: State, desired: Configuration, document: string, earlier: Option<string>, env: ApplyEnv): Answered {
    var started := Started(controller, s, env.start);
    if !started.ok then RolledBack(started.state, earlier, env.restored, desired.revision, "start_failed")
    else if env.actual != Some(document) then RolledBack(started.state, earlier, env.restored, desired.revision, "readback_failed")
    else Answered(started.state.(bootstrapAt := Some(env.now)), Applied(desired.revision, "applied", Some(DigestOf(desired)), ""))
  }

  function ApplyTo(controller: bool, s: State, desired: Configuration, env: ApplyEnv): Answered {
    var s0 := Stopped(s);
    if !desired.enabled then Answered(s0, Applied(desired.revision, "applied", Some(DigestOf(desired)), ""))
    else if !env.readable then Reject(s0, desired.revision, "read_failed")
    else if !env.protectionOk then Reject(s0, desired.revision, "protection_invalid")
    else if !env.rendered then Reject(s0, desired.revision, "render_failed")
    else if !env.protected then Reject(s0, desired.revision, "protection_compile_failed")
    else if env.guarded.None? then Reject(s0, desired.revision, "bootstrap_guard_failed")
    else if !env.readbackSupported then Reject(s0, desired.revision, "rule_readback_unsupported")
    else if !env.validated then Reject(s0, desired.revision, "validation_failed")
    else if !env.written then Reject(s0, desired.revision, "write_failed")
    else
      var document := env.guarded.value;
      Launched(controller, s0.(guard := Some(desired.validUntil), file := Some(document), fileHash := Some(document),
                               protection := desired.protection), desired, document, s.file, env)
  }

  // ---- The object ----

  class Engine {
    const controller: bool
    var process: bool
    var guard: Option<Time>
    var fileHash: Option<string>
    var file: Option<string>
    var protection: Option<Protection>
    var bootstrapAt: Option<Time>

    constructor (controller: bool, file: Option<string>)
      ensures this.controller == controller && Current() == IDLE.(file := file)
    {
      this.controller, this.file := controller, file;
      process, guard, fileHash, protection, bootstrapAt := false, None, None, None, None;
    }

    function Current(): State
      reads this
    {
      State(process, guard, fileHash, file, protection, bootstrapAt)
    }

    method Stop()
      modifies this`process, this`guard
      ensures Current() == Stopped(old(Current()))
    {
      guard := None;
      process := false;
    }

    method CheckHealth(env: HealthEnv) returns (ok: bool)
      modifies this`process
      ensures Checked(Current(), ok) == Health(controller, old(Current()), env)
    {
      if guard.None? || !env.guardReady || !process {
        return false;
      }
      if env.exited {
        process := false;
        return false;
      }
      if !env.probed || (fileHash.Some? && env.file != fileHash) {
        return false;
      }
      if controller && protection.Some? && !env.protectionRead {
        return false;
      }
      return env.responds;
    }

    method Start(env: StartEnv) returns (ok: bool)
      modifies this`process, this`guard
      ensures Checked(Current(), ok) == Started(controller, old(Current()), env)
    {
      if guard.None? || !env.guardReady || !env.launched {
        return false;
      }
      process := true;
      ghost var goal := Awaited(controller, Current(), env.attempts, 0);
      var attempt := 0;
      while attempt < START_ATTEMPTS && attempt < |env.attempts|
        invariant 0 <= attempt <= START_ATTEMPTS
        invariant goal == Awaited(controller, Current(), env.attempts, attempt)
      {
        var healthy := CheckHealth(env.attempts[attempt]);
        if healthy {
          return true;
        }
        if env.attempts[attempt].cancelled {
          break;
        }
        attempt := attempt + 1;
      }
      Stop();
      return false;
    }

    method Rollback(earlier: Option<string>, restored: bool, revision: int, reason: string) returns (applied: Applied)
      modifies this
      ensures Answered(Current(), applied) == RolledBack(old(Current()), earlier, restored, revision, reason)
    {
      Stop();
      if !restored {
        return Applied(revision, "rejected", None, "rollback_failed");
      }
      file := earlier;
      return Applied(revision, "rolled-back", None, reason);
    }

    /** From a guarded document on: validate, write, start, read back. Leaves early only through Stop. */
    method Commit(desired: Configuration, document: string, previous: Option<string>, env: ApplyEnv) returns (applied: Applied)
      modifies this
      ensures Answered(Current(), applied) ==
                if !env.validated then Reject(old(Current()), desired.revision, "validation_failed")
                else if !env.written then Reject(old(Current()), desired.revision, "write_failed")
                else Launched(controller, old(Current()).(file := Some(document), fileHash := Some(document), protection := desired.protection),
                              desired, document, previous, env)
    {
      if !env.validated || !env.written {
        Stop();
        return Applied(desired.revision, "rejected", None, if !env.validated then "validation_failed" else "write_failed");
      }
      file, fileHash, protection := Some(document), Some(document), desired.protection;
      var ok := Start(env.start);
      if !ok {
        applied := Rollback(previous, env.restored, desired.revision, "start_failed");
        return;
      }
      if env.actual != Some(document) {
        applied := Rollback(previous, env.restored, desired.revision, "readback_failed");
        return;
      }
      bootstrapAt := Some(env.now);
      return Applied(desired.revision, "applied", Some(DigestOf(desired)), "");
    }

    method Apply(desired: Configuration, env: ApplyEnv) returns (applied: Applied)
      modifies this
      ensures Answered(Current(), applied) == ApplyTo(controller, old(Current()), desired, env)
    {
      Stop();
      if !desired.enabled {
        return Applied(desired.revision, "applied", Some(DigestOf(desired)), "");
      }
      var previous := file;
      var reason := "";
      if !env.readable {
        reason := "read_failed";
      } else if !env.protectionOk {
        reason := "protection_invalid";
      } else if !env.rendered {
        reason := "render_failed";
      } else if !env.protected {
        reason := "protection_compile_failed";
      } else if env.guarded.None? {
        reason := "bootstrap_guard_failed";
      }
      if reason != "" {
        return Applied(desired.revision, "rejected", None, reason);
      }
      guard := Some(desired.validUntil);
      if !env.readbackSupported {
        Stop();
        return Applied(desired.revision, "rejected", None, "rule_readback_unsupported");
      }
      applied := Commit(desired, env.guarded.value, previous, env);
    }
  }

  // ---- Failing closed ----

  lemma {:induction false} AwaitedIsAllOrNothing(controller: bool, s: State, attempts: seq<HealthEnv>, n: nat)
    requires n <= START_ATTEMPTS
    ensures var c := Awaited(controller, s, attempts, n);
            && c.state.file == s.file && c.state.fileHash == s.fileHash
            && (if c.ok then c.state == s && s.process && s.guard.Some? else !c.state.process && c.state.guard.None?)
    decreases START_ATTEMPTS - n
  {
    if n < START_ATTEMPTS && n < |attempts| {
      var h := Health(controller, s, attempts[n]);
      if !h.ok && !attempts[n].cancelled {
        AwaitedIsAllOrNothing(controller, h.state, attempts, n + 1);
      }
    }
  }

  /** Nothing runs and nothing is guarded. */
  predicate Idle(s: State) { !s.process && s.guard.None? }

  /** Whatever fails: an attempt that is not "applied" leaves neither process nor guard, and the file as it
      was unless restoring it failed too; "applied" means the enabled configuration runs behind a guard
      leased until its deadline over the very document read back, or that nothing runs because it is disabled. */
  lemma {:induction false} ApplyFailsClosed(controller: bool, s: State, desired: Configuration, env: ApplyEnv)
    ensures var r := ApplyTo(controller, s, desired, env);
            && r.applied.revision == desired.revision
            && r.applied.status in ["applied", "rolled-back", "rejected"]
            && (r.applied.readback == if r.applied.status == "applied" then Some(DigestOf(desired)) else None)
            && (r.applied.status != "applied" ==> Idle(r.state) && desired.enabled)
            && (r.applied.status != "applied" && r.applied.reason != "rollback_failed" ==> r.state.file == s.file)
            && (r.applied.status == "rolled-back" ==> r.state.file == s.file)
            && (r.applied.status == "applied" && desired.enabled ==>
                  && r.state.process && r.state.guard == Some(desired.validUntil)
                  && r.state.file.Some? && r.state.file == r.state.fileHash == env.actual)
            && (r.applied.status == "applied" && !desired.enabled ==> r.state == Stopped(s))
  {
    if env.guarded.Some? {
      var document := env.guarded.value;
      var written := Stopped(s).(guard := Some(desired.validUntil), file := Some(document), fileHash := Some(document),
                                 protection := desired.protection);
      AwaitedIsAllOrNothing(controller, written.(process := true), env.start.attempts, 0);
    }
  }
}
