/** RADIUS command results: journal before sending, replay after a crash, never fetch over a pending result.

    A world is the journal in memory, the journal file and a log of effects. Every step takes arbitrary
    answers from disk, clock and network. A death in the middle of a step looks, to disk and log, like
    the next effect failing, and is followed by a restart that reads the file back. */
module RadiusJournal {
  import opened Options

  type Time = int

  /** A result message: the command ID its payload decodes to, its expiry and the rest. */
  datatype Message = Message(commandId: Option<string>, expiresAt: Time, valid: bool, content: string)

  type Pending = map<string, Message>

  datatype Effect =
    | Fetched(commandId: string)
    | Ran(commandId: string, at: Time, deadline: Time)
    | Journaled(commandId: string, message: Message)
    | Posted(message: Message, delivered: bool)
    | Removed(commandId: string, message: Message, at: Time)

  datatype World = World(memory: Pending, disk: Pending, log: seq<Effect>)
  datatype Progress = Progress(world: World, ok: bool)

  // ---- Journal operations ----

  function Stored(w: World, id: string, message: Message, persisted: bool): Progress {
    if !persisted then Progress(w, false)
    else
      var updated := w.memory[id := message];
      Progress(World(updated, updated, w.log + [Journaled(id, message)]), true)
  }

  function Erased(w: World, id: string, persisted: bool, now: Time): Progress {
    if id !in w.memory then Progress(w, true)
    else if !persisted then Progress(w, false)
    else
      var updated := w.memory - {id};
      Progress(World(updated, updated, w.log + [Removed(id, w.memory[id], now)]), true)
  }

  function Sent(w: World, message: Message, delivered: bool): Progress {
    Progress(w.(log := w.log + [Posted(message, delivered)]), delivered)
  }

  // ---- One step of the adapter ----

  datatype ReplayAnswer = ReplayAnswer(now: Time, delivered: bool, persisted: bool)

  /** A polled command that passed validateCommand, and what executing it produced. */
  datatype Executed = Executed(commandId: string, expiresAt: Time, startedAt: Time, timeout: int, valid: bool, content: string)

  datatype Env = Env(order: seq<string>, replay: seq<ReplayAnswer>, command: Option<Executed>,
                     journaled: bool, delivered: bool, removed: bool, now: Time)

  function AnswerAt(answers: seq<ReplayAnswer>, i: nat): ReplayAnswer {
    if i < |answers| then answers[i] else ReplayAnswer(0, false, false)
  }

  /** One message of the replay loop. */
  function ReplayOne(w: World, message: Message, answer: ReplayAnswer): Progress {
    if message.commandId.None? then Progress(w, false)
    else if message.expiresAt <= answer.now then Erased(w, message.commandId.value, answer.persisted, answer.now)
    else if !message.valid then Progress(w, false)
    else
      var posted := Sent(w, message, answer.delivered);
      if !posted.ok then posted else Erased(posted.world, message.commandId.value, answer.persisted, answer.now)
  }

  function ReplayFrom(w: World, messages: seq<Message>, answers: seq<ReplayAnswer>, i: nat): Progress
    requires i <= |messages|
    decreases |messages| - i
  {
    if i == |messages| then Progress(w, true)
    else
      var p := ReplayOne(w, messages[i], AnswerAt(answers, i));
      if !p.ok then p else ReplayFrom(p.world, messages, answers, i + 1)
  }

  /** The sorted key list: any enumeration of the pending keys will do. */
  predicate Enumerates(order: seq<string>, pending: Pending) {
    && |order| == |pending|
    && (forall i :: 0 <= i < |order| ==> order[i] in pending)
    && forall i, j :: 0 <= i < j < |order| ==> order[i] != order[j]
  }

  function MessagesIn(pending: Pending, order: seq<string>): seq<Message>
    requires forall i :: 0 <= i < |order| ==> order[i] in pending
  {
    seq(|order|, i requires 0 <= i < |order| => pending[order[i]])
  }

  function ResultOf(command: Executed): Message {
    Message(Some(command.commandId), command.expiresAt, command.valid, command.content)
  }

  function DeadlineOf(command: Executed): Time {
    if command.expiresAt < command.startedAt + command.timeout then command.expiresAt else command.startedAt + command.timeout
  }

  /** The command runs, under a deadline. */
  function Execute(w: World, command: Executed, deadline: Time): World {
    w.(log := w.log + [Ran(command.commandId, command.startedAt, deadline)])
  }

  function Deliver(w: World, command: Executed, env: Env): World {
    var message := ResultOf(command);
    var deadline := DeadlineOf(command);
    if deadline <= command.startedAt then w
    else if !message.valid then Execute(w, command, deadline)
    else
      var put := Stored(Execute(w, command, deadline), command.commandId, message, env.journaled);
      if !put.ok then put.world
      else
        var posted := Sent(put.world, message, env.delivered);
        if !posted.ok then posted.world else Erased(posted.world, command.commandId, env.removed, env.now).world
  }

  function Processed(w: World, env: Env): World
    requires Enumerates(env.order, w.memory)
  {
    if w.memory != map[] then ReplayFrom(w, MessagesIn(w.memory, env.order), env.replay, 0).world
    else if env.command.None? then w
    else Deliver(w.(log := w.log + [Fetched(env.command.value.commandId)]), env.command.value, env)
  }

  // ---- The objects ----

  class Journal {
    var pending: Pending
    var file: Pending
    var log: seq<Effect>

    constructor (file: Pending, log: seq<Effect>)
      ensures Current() == World(file, file, log)
    {
      pending, this.file, this.log := file, file, log;
    }

    function Current(): World reads this { World(pending, file, log) }

    /** Write the whole journal to a temporary file and rename it; on failure the file is untouched. */
    method Persist(updated: Pending, persisted: bool) returns (ok: bool)
      modifies this`file
      ensures ok == persisted && file == if persisted then updated else old(file)
    {
      if persisted {
        file := updated;
      }
      return persisted;
    }

    method Put(id: string, message: Message, persisted: bool) returns (ok: bool)
      modifies this
      ensures Progress(Current(), ok) == Stored(old(Current()), id, message, persisted)
    {
      var updated := pending[id := message];
      ok := Persist(updated, persisted);
      if ok {
        pending := updated;
        log := log + [Journaled(id, message)];
      }
    }

    method Delete(id: string, persisted: bool, now: Time) returns (ok: bool)
      modifies this
      ensures Progress(Current(), ok) == Erased(old(Current()), id, persisted, now)
    {
      if id !in pending {
        return true;
      }
      var updated := pending - {id};
      ok := Persist(updated, persisted);
      if ok {
        log := log + [Removed(id, pending[id], now)];
        pending := updated;
      }
    }

    method PostResult(message: Message, delivered: bool) returns (ok: bool)
      modifies this`log
      ensures Progress(Current(), ok) == Sent(old(Current()), message, delivered)
    {
      log := log + [Posted(message, delivered)];
      return delivered;
    }

    method ReplayPending(env: Env) returns (replayed: bool)
      requires Enumerates(env.order, pending)
      modifies this
      ensures replayed == (old(pending) != map[])
      ensures replayed ==> Current() == ReplayFrom(old(Current()), MessagesIn(old(pending), env.order), env.replay, 0).world
      ensures !replayed ==> Current() == old(Current())
    {
      if pending == map[] {
        return false;
      }
      var messages := MessagesIn(pending, env.order);
      ghost var goal := ReplayFrom(Current(), messages, env.replay, 0);
      for i := 0 to |messages|
        invariant goal == ReplayFrom(Current(), messages, env.replay, i)
      {
        var message, answer := messages[i], AnswerAt(env.replay, i);
        var ok := false;
        if message.commandId.Some? {
          if message.expiresAt <= answer.now {
            ok := Delete(message.commandId.value, answer.persisted, answer.now);
          } else if message.valid {
            ok := PostResult(message, answer.delivered);
            if ok {
              ok := Delete(message.commandId.value, answer.persisted, answer.now);
            }
          }
        }
        if !ok {
          return true;
        }
      }
      return true;
    }

    method ProcessOnce(env: Env)
      requires Enumerates(env.order, pending)
      modifies this
      ensures Current() == Processed(old(Current()), env)
    {
      var replayed := ReplayPending(env);
      if replayed || env.command.None? {
        return;
      }
      var command := env.command.value;
      log := log + [Fetched(command.commandId)];
      var deadline := command.startedAt + command.timeout;
      if command.expiresAt < deadline {
        deadline := command.expiresAt;
      }
      if deadline <= command.startedAt {
        return;
      }
      log := log + [Ran(command.commandId, command.startedAt, deadline)];
      if !command.valid {
        return;
      }
      var message := ResultOf(command);
      var ok := Put(command.commandId, message, env.journaled);
      if ok {
        ok := PostResult(message, env.delivered);
        if ok {
          ok := Delete(command.commandId, env.removed, env.now);
        }
      }
    }
  }

  // ---- The law of the log ----

  /** What the journal holds after the logged effects. */
  function Contents(log: seq<Effect>): Pending {
    if log == [] then map[]
    else
      var before := Contents(log[..|log| - 1]);
      match log[|log| - 1]
      case Journaled(id, message) => before[id := message]
      case Removed(id, _, _) => before - {id}
      case _ => before
  }

  /** At most one result is pending, stored under the command ID inside it. */
  predicate SingleKeyed(pending: Pending) {
    |pending| <= 1 && forall id :: id in pending ==> pending[id].commandId == Some(id)
  }

  /** When an effect may happen, given what came before it. */
  predicate Lawful(log: seq<Effect>, i: nat)
    requires i < |log|
  {
    var held := Contents(log[..i]);
    && SingleKeyed(held)
    && match log[i]
       case Fetched(_) => held == map[]
       case Ran(id, at, deadline) => held == map[] && at < deadline && i > 0 && log[i - 1] == Fetched(id)
       case Journaled(id, message) =>
         && held == map[] && message.commandId == Some(id)
         && i > 0 && log[i - 1].Ran? && log[i - 1].commandId == id && log[i - 1].deadline <= message.expiresAt
       case Posted(message, _) => message.commandId.Some? && message.commandId.value in held && held[message.commandId.value] == message
       case Removed(id, message, at) =>
         id in held && held[id] == message && (message.expiresAt <= at || (i > 0 && log[i - 1] == Posted(message, true)))
  }

  ghost predicate Sound(w: World) {
    && w.memory == w.disk == Contents(w.log)
    && SingleKeyed(w.memory)
    && forall i :: 0 <= i < |w.log| ==> Lawful(w.log, i)
  }

  lemma {:induction false} AppendLawful(log: seq<Effect>, effect: Effect)
    requires forall i :: 0 <= i < |log| ==> Lawful(log, i)
    requires SingleKeyed(Contents(log))
    requires Lawful(log + [effect], |log|)
    ensures forall i :: 0 <= i < |log + [effect]| ==> Lawful(log + [effect], i)
    ensures (log + [effect])[..|log|] == log
  {
    var longer := log + [effect];
    forall i | 0 <= i < |longer| ensures Lawful(longer, i) {
      if i < |log| {
        assert longer[..i] == log[..i];
        assert Lawful(log, i);
      }
    }
  }

  lemma {:induction false} StoredSound(w: World, id: string, message: Message, persisted: bool)
    requires Sound(w) && w.memory == map[] && message.commandId == Some(id)
    requires w.log != [] && w.log[|w.log| - 1].Ran? && w.log[|w.log| - 1].commandId == id && w.log[|w.log| - 1].deadline <= message.expiresAt
    ensures var p := Stored(w, id, message, persisted);
            Sound(p.world) && (p.ok ==> p.world.memory == map[id := message])
  {
    if persisted {
      assert (w.log + [Journaled(id, message)])[..|w.log|] == w.log;
      AppendLawful(w.log, Journaled(id, message));
    }
  }

  lemma {:induction false} SentSound(w: World, message: Message, delivered: bool)
    requires Sound(w) && message.commandId.Some? && message.commandId.value in w.memory && w.memory[message.commandId.value] == message
    ensures var p := Sent(w, message, delivered);
            Sound(p.world) && p.world.memory == w.memory && p.world.log[|p.world.log| - 1] == Posted(message, delivered)
  {
    assert (w.log + [Posted(message, delivered)])[..|w.log|] == w.log;
    AppendLawful(w.log, Posted(message, delivered));
  }

  lemma {:induction false} ErasedSound(w: World, id: string, persisted: bool, now: Time)
    requires Sound(w) && id in w.memory
    requires w.memory[id].expiresAt <= now || (w.log != [] && w.log[|w.log| - 1] == Posted(w.memory[id], true))
    ensures Sound(Erased(w, id, persisted, now).world)
  {
    if persisted {
      var effect := Removed(id, w.memory[id], now);
      assert (w.log + [effect])[..|w.log|] == w.log;
      AppendLawful(w.log, effect);
      assert (w.memory - {id}).Keys == w.memory.Keys - {id};
      assert |w.memory - {id}| <= |w.memory|;
    }
  }

  lemma {:induction false} ReplayOneSound(w: World, message: Message, answer: ReplayAnswer)
    requires Sound(w) && message.commandId.Some? && message.commandId.value in w.memory && w.memory[message.commandId.value] == message
    ensures Sound(ReplayOne(w, message, answer).world)
  {
    var id := message.commandId.value;
    if message.expiresAt <= answer.now {
      ErasedSound(w, id, answer.persisted, answer.now);
    } else if message.valid {
      SentSound(w, message, answer.delivered);
      if answer.delivered {
        ErasedSound(Sent(w, message, true).world, id, answer.persisted, answer.now);
      }
    }
  }

  lemma {:induction false} ProcessedSound(w: World, env: Env)
    requires Sound(w) && Enumerates(env.order, w.memory)
    ensures Sound(Processed(w, env))
  {
    if w.memory != map[] {
      var messages := MessagesIn(w.memory, env.order);
      assert |messages| == 1 by { NonemptyHasSize(w.memory); }
      assert env.order[0] in w.memory;
      ReplayOneSound(w, messages[0], AnswerAt(env.replay, 0));
      var p := ReplayOne(w, messages[0], AnswerAt(env.replay, 0));
      assert p.ok ==> ReplayFrom(p.world, messages, env.replay, 1) == Progress(p.world, true);
    } else if env.command.Some? {
      var command := env.command.value;
      var fetched := w.(log := w.log + [Fetched(command.commandId)]);
      assert fetched.log[..|w.log|] == w.log;
      AppendLawful(w.log, Fetched(command.commandId));
      DeliverSound(fetched, command, env);
    }
  }

  lemma NonemptyHasSize(pending: Pending)
    requires pending != map[]
    ensures |pending| >= 1
  {
    var id :| id in pending;
    assert id in pending.Keys;
  }

  lemma {:induction false} ExecuteSound(w: World, command: Executed, deadline: Time)
    requires Sound(w) && w.memory == map[] && command.startedAt < deadline
    requires w.log != [] && w.log[|w.log| - 1] == Fetched(command.commandId)
    ensures var after := Execute(w, command, deadline);
            Sound(after) && after.memory == map[] && after.log[|after.log| - 1] == Ran(command.commandId, command.startedAt, deadline)
  {
    var effect := Ran(command.commandId, command.startedAt, deadline);
    assert (w.log + [effect])[..|w.log|] == w.log;
    AppendLawful(w.log, effect);
  }

  lemma {:induction false} DeliverSound(w: World, command: Executed, env: Env)
    requires Sound(w) && w.memory == map[] && w.log != [] && w.log[|w.log| - 1] == Fetched(command.commandId)
    ensures Sound(Deliver(w, command, env))
  {
    var message := ResultOf(command);
    var deadline := DeadlineOf(command);
    if command.startedAt < deadline {
      ExecuteSound(w, command, deadline);
      if message.valid {
        var ran := Execute(w, command, deadline);
        StoredSound(ran, command.commandId, message, env.journaled);
        if env.journaled {
          var put := Stored(ran, command.commandId, message, true).world;
          SentSound(put, message, env.delivered);
          if env.delivered {
            ErasedSound(Sent(put, message, true).world, command.commandId, env.removed, env.now);
          }
        }
      }
    }
  }

  // ---- What one step does ----

  /** A fetched command: nothing runs once its deadline, the earlier of its expiry and the timeout, has passed; otherwise it
      runs under that deadline, and a valid result that could be journaled is posted at once, and leaves the journal
      only when the post was delivered and the removal stored. */
  lemma FetchedCommandIsCarriedOut(w: World, env: Env)
    requires Enumerates(env.order, w.memory) && w.memory == map[] && env.command.Some?
    ensures var c, after := env.command.value, Processed(w, env);
            var begun := w.log + [Fetched(c.commandId)];
            var late := c.expiresAt <= c.startedAt || c.timeout <= 0;
            && DeadlineOf(c) <= c.expiresAt && DeadlineOf(c) <= c.startedAt + c.timeout
            && (DeadlineOf(c) == c.expiresAt || DeadlineOf(c) == c.startedAt + c.timeout)
            && (late ==> after == w.(log := begun))
            && (!late ==>
                  var ran := begun + [Ran(c.commandId, c.startedAt, DeadlineOf(c))];
                  var sent := ran + [Journaled(c.commandId, ResultOf(c)), Posted(ResultOf(c), env.delivered)];
                  && (!c.valid || !env.journaled ==> after == w.(log := ran))
                  && (c.valid && env.journaled && env.delivered && env.removed ==>
                        after.memory == map[] && after.log == sent + [Removed(c.commandId, ResultOf(c), env.now)])
                  && (c.valid && env.journaled && !(env.delivered && env.removed) ==>
                        after.memory == map[c.commandId := ResultOf(c)] && after.log == sent))
  {
    var c := env.command.value;
    var begun := w.(log := w.log + [Fetched(c.commandId)]);
    if c.startedAt < DeadlineOf(c) && c.valid && env.journaled {
      var ran := Execute(begun, c, DeadlineOf(c));
      var sent := ran.log + [Journaled(c.commandId, ResultOf(c))] + [Posted(ResultOf(c), env.delivered)];
      assert sent == ran.log + [Journaled(c.commandId, ResultOf(c)), Posted(ResultOf(c), env.delivered)];
      assert map[c.commandId := ResultOf(c)] - {c.commandId} == map[];
    }
  }

  /** A pending result: once expired it is removed; while valid and unexpired it is posted again, and removed when that was
      delivered; nothing else happens in such a step. */
  lemma {:induction false} PendingResultIsReplayed(w: World, env: Env, id: string)
    requires Enumerates(env.order, w.memory) && SingleKeyed(w.memory) && id in w.memory
    ensures var message, answer, after := w.memory[id], AnswerAt(env.replay, 0), Processed(w, env);
            && (message.expiresAt <= answer.now && answer.persisted ==> after.memory == map[] && after.log == w.log + [Removed(id, message, answer.now)])
            && (message.expiresAt <= answer.now && !answer.persisted ==> after == w)
            && (message.expiresAt > answer.now && !message.valid ==> after == w)
            && (message.expiresAt > answer.now && message.valid && answer.delivered && answer.persisted ==>
                  after.memory == map[] && after.log == w.log + [Posted(message, true), Removed(id, message, answer.now)])
            && (message.expiresAt > answer.now && message.valid && !(answer.delivered && answer.persisted) ==>
                  after.memory == w.memory && after.log == w.log + [Posted(message, answer.delivered)])
  {
    NonemptyHasSize(w.memory);
    var messages := MessagesIn(w.memory, env.order);
    assert |messages| == 1 && env.order[0] in w.memory;
    OnlyKey(w.memory, env.order[0], id);
    var p := ReplayOne(w, messages[0], AnswerAt(env.replay, 0));
    assert p.ok ==> ReplayFrom(p.world, messages, env.replay, 1) == Progress(p.world, true);
    assert w.memory - {id} == map[];
    var posted := Posted(w.memory[id], true);
    var removed := Removed(id, w.memory[id], AnswerAt(env.replay, 0).now);
    assert w.log + [posted] + [removed] == w.log + [posted, removed];
  }

  lemma OnlyKey(pending: Pending, a: string, b: string)
    requires |pending| <= 1 && a in pending && b in pending
    ensures a == b && pending.Keys == {a}
  {
    assert {a} <= pending.Keys && {b} <= pending.Keys;
    if pending.Keys != {a} {
      var k :| k in pending.Keys && k != a;
      assert {a, k} <= pending.Keys;
      SmallerSet({a, k}, pending.Keys);
    }
  }

  lemma SmallerSet(s: set<string>, t: set<string>)
    requires s <= t
    ensures |s| <= |t|
  {
    assert t == s + (t - s);
  }

  // ---- Runs ----

  datatype Event = Works(env: Env) | Restarts

  /** A restart reads the journal file back. */
  function Happen(w: World, event: Event): World {
    match event
    case Works(env) => if Enumerates(env.order, w.memory) then Processed(w, env) else w
    case Restarts => w.(memory := w.disk)
  }

  function RunOf(events: seq<Event>): World {
    if events == [] then World(map[], map[], [])
    else Happen(RunOf(events[..|events| - 1]), events[|events| - 1])
  }

  /** In any run from an empty journal: memory and file agree and hold exactly what the log says; at most one
      result is pending, under its own command ID; a result is posted only while journaled, leaves only
      after a delivered post or its expiry, and no command is fetched while a result is pending. */
  lemma {:induction false} RunIsSound(events: seq<Event>)
    ensures Sound(RunOf(events))
  {
    if events != [] {
      var before := RunOf(events[..|events| - 1]);
      RunIsSound(events[..|events| - 1]);
      if events[|events| - 1].Works? && Enumerates(events[|events| - 1].env.order, before.memory) {
        ProcessedSound(before, events[|events| - 1].env);
      }
    }
  }

  /** Spelled out: every post comes after the journaling of that same message. */
  lemma {:induction false} PostedWasJournaled(events: seq<Event>, i: nat) returns (j: nat)
    requires i < |RunOf(events).log| && RunOf(events).log[i].Posted?
    ensures j < i && RunOf(events).log[j] == Journaled(RunOf(events).log[i].message.commandId.GetOr(""), RunOf(events).log[i].message)
  {
    RunIsSound(events);
    var log := RunOf(events).log;
    assert Lawful(log, i);
    j := HeldWasJournaled(log[..i], log[i].message.commandId.value);
  }

  lemma {:induction false} HeldWasJournaled(log: seq<Effect>, id: string) returns (j: nat)
    requires id in Contents(log)
    ensures j < |log| && log[j] == Journaled(id, Contents(log)[id])
  {
    var last := log[|log| - 1];
    if last.Journaled? && last.commandId == id {
      j := |log| - 1;
    } else {
      j := HeldWasJournaled(log[..|log| - 1], id);
    }
  }
}
