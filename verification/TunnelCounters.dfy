/** VPN tunnel telemetry: per-epoch differences of WireGuard byte counters, and their conservation law. */
module TunnelCounters {
  import opened Options
  import opened GatewayTypes
  import opened GatewayPeers

  const TEN_MINUTES: int := 600 * SECOND
  const MINUTE: int := 60 * SECOND

  /** session|publicKey|version; base64 keys and numbers hold no bar, so the text and the triple agree. */
  datatype CounterKey = CounterKey(sessionId: string, publicKey: KeyText, version: int)

  /** A remembered reading. Epochs are fresh UUIDs; a counter that never repeats stands for them. */
  datatype Sample = Sample(epoch: nat, at: Time, received: int, transmitted: int)

  /** What the kernel reports for one peer. */
  datatype Reading = Reading(received: int, transmitted: int, lastHandshake: Option<Time>)

  datatype Stats = Stats(sessionId: string, profileId: string, gatewayId: string, endpointRuntimeId: string, epoch: nat,
                         startedAt: Time, endedAt: Time, upload: int, download: int, lastHandshake: Option<Time>)

  datatype Health = Health(gatewayId: string, ready: bool, activePeers: nat, version: int, observedAt: Time)

  predicate ValidWindow(previous: Option<Sample>, now: Time, reading: Reading) {
    && previous.Some? && now > previous.value.at && now - previous.value.at <= TEN_MINUTES
    && reading.received >= previous.value.received && reading.transmitted >= previous.value.transmitted
  }

  // ---- One heartbeat ----

  /** What the loop over bindings builds: the next samples, the events, the public key whose counter each event
      measures, every sample taken, the epoch supply. */
  datatype Tally = Tally(next: map<CounterKey, Sample>, stats: seq<Stats>, keys: seq<KeyText>, taken: seq<Sample>, nextEpoch: nat)

  datatype Beat = Beat(now: Time, version: int, gatewayId: string, peers: seq<Peer>, actual: map<KeyText, Reading>)

  function KeyOf(binding: Peer, version: int): CounterKey { CounterKey(binding.sessionId, binding.publicKey, version) }

  function Lookup(samples: map<CounterKey, Sample>, key: CounterKey): Option<Sample> {
    if key in samples then Some(samples[key]) else None
  }

  predicate Counted(binding: Peer, actual: map<KeyText, Reading>) {
    && binding.sessionId != "" && binding.vpnProfileId != ""
    && binding.publicKey in actual
    && actual[binding.publicKey].received >= 0 && actual[binding.publicKey].transmitted >= 0
  }

  function StatsFor(binding: Peer, gatewayId: string, previous: Sample, current: Sample, reading: Reading): Stats {
    Stats(binding.sessionId, binding.vpnProfileId, gatewayId, binding.runtimeId, current.epoch, previous.at, current.at,
          current.received - previous.received, current.transmitted - previous.transmitted,
          if reading.lastHandshake.Some? && reading.lastHandshake.value <= current.at then reading.lastHandshake else None)
  }

  /** One turn of the loop. */
  function Visit(previous: map<CounterKey, Sample>, tally: Tally, binding: Peer, beat: Beat): Tally {
    if !Counted(binding, beat.actual) then tally
    else
      var reading := beat.actual[binding.publicKey];
      var key := KeyOf(binding, beat.version);
      var known := Lookup(previous, key);
      if !ValidWindow(known, beat.now, reading) then
        var current := Sample(tally.nextEpoch, beat.now, reading.received, reading.transmitted);
        Tally(tally.next[key := current], tally.stats, tally.keys, tally.taken + [current], tally.nextEpoch + 1)
      else
        var current := Sample(known.value.epoch, beat.now, reading.received, reading.transmitted);
        Tally(tally.next[key := current], tally.stats + [StatsFor(binding, beat.gatewayId, known.value, current, reading)],
              tally.keys + [binding.publicKey], tally.taken + [current], tally.nextEpoch)
  }

  function VisitAll(previous: map<CounterKey, Sample>, peers: seq<Peer>, beat: Beat, nextEpoch: nat): Tally {
    if peers == [] then Tally(map[], [], [], [], nextEpoch)
    else Visit(previous, VisitAll(previous, peers[..|peers| - 1], beat, nextEpoch), peers[|peers| - 1], beat)
  }

  class TelemetryClient {
    var previous: map<CounterKey, Sample>
    var nextEpoch: nat

    constructor ()
      ensures previous == map[] && nextEpoch == 0
    {
      previous, nextEpoch := map[], 0;
    }

    /** vpnEvents; `beat` is None when there is nothing to measure or the counters cannot be read. */
    method VpnEvents(beat: Option<Beat>, healthy: bool) returns (stats: seq<Stats>, health: Option<Health>)
      modifies this
      ensures beat.None? ==> previous == map[] && nextEpoch == old(nextEpoch) && stats == [] && health.None?
      ensures beat.Some? ==>
                var tally := VisitAll(old(previous), beat.value.peers, beat.value, old(nextEpoch));
                && previous == tally.next && nextEpoch == tally.nextEpoch && stats == tally.stats
                && health == Some(Health(beat.value.gatewayId, healthy, |tally.next|, beat.value.version, beat.value.now))
    {
      if beat.None? {
        previous := map[];
        return [], None;
      }
      var b := beat.value;
      var tally := Tally(map[], [], [], [], nextEpoch);
      for n := 0 to |b.peers|
        invariant tally == VisitAll(previous, b.peers[..n], b, nextEpoch)
      {
        assert b.peers[..n + 1][..n] == b.peers[..n];
        tally := Visit(previous, tally, b.peers[n], b);
      }
      assert b.peers[..|b.peers|] == b.peers;
      previous, nextEpoch, stats := tally.next, tally.nextEpoch, tally.stats;
      health := Some(Health(b.gatewayId, healthy, |tally.next|, b.version, b.now));
    }
  }

  // ---- What the ingest side demands ----

  predicate AcceptsStats(stats: Stats, occurredAt: Time) {
    && stats.endedAt > stats.startedAt && stats.endedAt <= occurredAt && stats.endedAt - stats.startedAt <= TEN_MINUTES
    && stats.upload >= 0 && stats.download >= 0
    && (stats.lastHandshake.Some? ==> stats.lastHandshake.value <= occurredAt)
  }

  predicate AcceptsHealth(health: Health, occurredAt: Time) {
    health.observedAt != 0 && health.observedAt <= occurredAt && occurredAt - health.observedAt <= MINUTE
  }

  /** Every generated event passes the ingest validators. */
  lemma {:induction false} GeneratedStatsAreAccepted(previous: map<CounterKey, Sample>, peers: seq<Peer>, beat: Beat, nextEpoch: nat)
    ensures forall i :: 0 <= i < |VisitAll(previous, peers, beat, nextEpoch).stats| ==>
              AcceptsStats(VisitAll(previous, peers, beat, nextEpoch).stats[i], beat.now)
    ensures forall healthy :: beat.now != 0 ==>
              AcceptsHealth(Health(beat.gatewayId, healthy, |VisitAll(previous, peers, beat, nextEpoch).next|, beat.version, beat.now), beat.now)
  {
    if peers != [] {
      GeneratedStatsAreAccepted(previous, peers[..|peers| - 1], beat, nextEpoch);
    }
  }

  // ---- The ledger of a run ----

  function SamplesOf(taken: seq<Sample>, epoch: nat): seq<Sample> {
    if taken == [] then []
    else
      var last := taken[|taken| - 1];
      SamplesOf(taken[..|taken| - 1], epoch) + if last.epoch == epoch then [last] else []
  }

  function StatsOf(stats: seq<Stats>, epoch: nat): seq<Stats> {
    if stats == [] then []
    else
      var last := stats[|stats| - 1];
      StatsOf(stats[..|stats| - 1], epoch) + if last.epoch == epoch then [last] else []
  }

  /** The event spans exactly two consecutive samples. */
  predicate Spans(event: Stats, from: Sample, to: Sample) {
    && event.startedAt == from.at && event.endedAt == to.at && from.at < to.at <= from.at + TEN_MINUTES
    && event.upload == to.received - from.received >= 0
    && event.download == to.transmitted - from.transmitted >= 0
  }

  /** The events of an epoch are exactly the gaps between its consecutive samples. */
  predicate Chained(samples: seq<Sample>, events: seq<Stats>) {
    && |events| == (if samples == [] then 0 else |samples| - 1)
    && forall i :: 0 <= i < |events| ==> Spans(events[i], samples[i], samples[i + 1])
  }

  ghost predicate EpochsChained(taken: seq<Sample>, stats: seq<Stats>) {
    forall epoch: nat :: Chained(SamplesOf(taken, epoch), StatsOf(stats, epoch))
  }

  /** `live` holds the newest sample of distinct, already issued epochs. */
  ghost predicate LiveOk(live: map<CounterKey, Sample>, taken: seq<Sample>, nextEpoch: nat) {
    && (forall k :: k in live ==>
          live[k].epoch < nextEpoch && SamplesOf(taken, live[k].epoch) != []
          && SamplesOf(taken, live[k].epoch)[|SamplesOf(taken, live[k].epoch)| - 1] == live[k])
    && (forall k, l :: k in live && l in live && k != l ==> live[k].epoch != live[l].epoch)
    && (forall epoch: nat :: epoch >= nextEpoch ==> SamplesOf(taken, epoch) == [])
  }

  lemma SamplesOfSnoc(taken: seq<Sample>, sample: Sample, epoch: nat)
    ensures SamplesOf(taken + [sample], epoch) == SamplesOf(taken, epoch) + if sample.epoch == epoch then [sample] else []
  {
    assert (taken + [sample])[..|taken|] == taken;
  }

  lemma StatsOfSnoc(stats: seq<Stats>, event: Stats, epoch: nat)
    ensures StatsOf(stats + [event], epoch) == StatsOf(stats, epoch) + if event.epoch == epoch then [event] else []
  {
    assert (stats + [event])[..|stats|] == stats;
  }

  /** A sample newer than the live one of its epoch, or in the next unused epoch, becomes the live one. */
  lemma {:induction false} LiveAdvances(live: map<CounterKey, Sample>, taken: seq<Sample>, nextEpoch: nat, key: CounterKey,
                                        current: Sample, nextEpoch': nat)
    requires LiveOk(live, taken, nextEpoch)
    requires if nextEpoch' == nextEpoch then key in live && current.epoch == live[key].epoch
             else current.epoch == nextEpoch && nextEpoch' == nextEpoch + 1
    ensures LiveOk(live[key := current], taken + [current], nextEpoch')
  {
    var live', taken' := live[key := current], taken + [current];
    forall k | k in live'
      ensures live'[k].epoch < nextEpoch' && SamplesOf(taken', live'[k].epoch) != []
      ensures SamplesOf(taken', live'[k].epoch)[|SamplesOf(taken', live'[k].epoch)| - 1] == live'[k]
    {
      SamplesOfSnoc(taken, current, live'[k].epoch);
    }
    forall epoch: nat | epoch >= nextEpoch' ensures SamplesOf(taken', epoch) == [] {
      SamplesOfSnoc(taken, current, epoch);
    }
  }

  /** A sample in a fresh epoch adds no event. */
  lemma {:induction false} FreshSampleChains(taken: seq<Sample>, stats: seq<Stats>, current: Sample)
    requires EpochsChained(taken, stats) && SamplesOf(taken, current.epoch) == []
    ensures EpochsChained(taken + [current], stats)
  {
    forall epoch: nat ensures Chained(SamplesOf(taken + [current], epoch), StatsOf(stats, epoch)) {
      SamplesOfSnoc(taken, current, epoch);
      assert Chained(SamplesOf(taken, epoch), StatsOf(stats, epoch));
    }
  }

  lemma ChainGrows(samples: seq<Sample>, events: seq<Stats>, current: Sample, event: Stats)
    requires Chained(samples, events) && samples != [] && Spans(event, samples[|samples| - 1], current)
    ensures Chained(samples + [current], events + [event])
  {
  }

  /** A further sample in an epoch adds the one event that spans the gap. */
  lemma {:induction false} NextSampleChains(taken: seq<Sample>, stats: seq<Stats>, latest: Sample, current: Sample, event: Stats)
    requires EpochsChained(taken, stats) && current.epoch == event.epoch && Spans(event, latest, current)
    requires var samples := SamplesOf(taken, current.epoch); samples != [] && samples[|samples| - 1] == latest
    ensures EpochsChained(taken + [current], stats + [event])
  {
    forall epoch: nat ensures Chained(SamplesOf(taken + [current], epoch), StatsOf(stats + [event], epoch)) {
      SamplesOfSnoc(taken, current, epoch);
      StatsOfSnoc(stats, event, epoch);
      assert Chained(SamplesOf(taken, epoch), StatsOf(stats, epoch));
      if epoch == current.epoch {
        ChainGrows(SamplesOf(taken, epoch), StatsOf(stats, epoch), current, event);
      }
    }
  }

  /** A run's record: the client's memory, every sample taken and every event generated. */
  datatype Ledger = Ledger(previous: map<CounterKey, Sample>, nextEpoch: nat, taken: seq<Sample>, stats: seq<Stats>, keys: seq<KeyText>)

  function Heartbeat(ledger: Ledger, beat: Option<Beat>): Ledger {
    if beat.None? then ledger.(previous := map[])
    else
      var tally := VisitAll(ledger.previous, beat.value.peers, beat.value, ledger.nextEpoch);
      Ledger(tally.next, tally.nextEpoch, ledger.taken + tally.taken, ledger.stats + tally.stats, ledger.keys + tally.keys)
  }

  ghost predicate Balanced(ledger: Ledger) {
    LiveOk(ledger.previous, ledger.taken, ledger.nextEpoch) && EpochsChained(ledger.taken, ledger.stats)
  }

  /** Accepted peer lists have distinct keys, so no binding is visited twice. */
  predicate DistinctBindings(peers: seq<Peer>) {
    forall i, j :: 0 <= i < j < |peers| ==> peers[i].publicKey != peers[j].publicKey
  }

  lemma AcceptedPeersAreDistinctBindings(peers: seq<Peer>)
    requires PeersOk(peers)
    ensures DistinctBindings(peers)
  {
    forall i, j | 0 <= i < j < |peers| ensures peers[i].publicKey != peers[j].publicKey {
      assert peers[i].publicKey.key != peers[j].publicKey.key;
    }
  }

  lemma {:induction false} NextKeysAreVisited(previous: map<CounterKey, Sample>, peers: seq<Peer>, beat: Beat, nextEpoch: nat)
    ensures forall k :: k in VisitAll(previous, peers, beat, nextEpoch).next ==>
              exists i :: 0 <= i < |peers| && peers[i].publicKey == k.publicKey
  {
    if peers != [] {
      NextKeysAreVisited(previous, peers[..|peers| - 1], beat, nextEpoch);
      assert peers[|peers| - 1].publicKey == KeyOf(peers[|peers| - 1], beat.version).publicKey;
    }
  }

  /** The loop keeps the books: the old samples overridden by the new ones stay the live ones. */
  lemma {:induction false} VisitsBalance(ledger: Ledger, peers: seq<Peer>, beat: Beat)
    requires Balanced(ledger) && DistinctBindings(peers)
    ensures var tally := VisitAll(ledger.previous, peers, beat, ledger.nextEpoch);
            && LiveOk(ledger.previous + tally.next, ledger.taken + tally.taken, tally.nextEpoch)
            && EpochsChained(ledger.taken + tally.taken, ledger.stats + tally.stats)
  {
    if peers == [] {
      assert ledger.previous + map[] == ledger.previous;
      assert ledger.taken + [] == ledger.taken && ledger.stats + [] == ledger.stats;
    } else {
      var front, binding := peers[..|peers| - 1], peers[|peers| - 1];
      VisitsBalance(ledger, front, beat);
      NextKeysAreVisited(ledger.previous, front, beat, ledger.nextEpoch);
      var before := VisitAll(ledger.previous, front, beat, ledger.nextEpoch);
      if Counted(binding, beat.actual) {
        var key := KeyOf(binding, beat.version);
        MoveBalances(ledger, before, Visit(ledger.previous, before, binding, beat), key, Visit(ledger.previous, before, binding, beat).next[key]);
      }
    }
  }

  /** How one counted binding moves the tally: a fresh epoch without an event, or one event in a known epoch. */
  ghost predicate Moves(previous: map<CounterKey, Sample>, before: Tally, after: Tally, key: CounterKey, current: Sample) {
    && after.next == before.next[key := current] && after.taken == before.taken + [current]
    && if after.nextEpoch == before.nextEpoch then
         && key in previous && current.epoch == previous[key].epoch
         && after.stats != [] && after.stats == before.stats + [after.stats[|after.stats| - 1]]
         && after.stats[|after.stats| - 1].epoch == current.epoch
         && Spans(after.stats[|after.stats| - 1], previous[key], current)
       else
         after.nextEpoch == before.nextEpoch + 1 && current.epoch == before.nextEpoch && after.stats == before.stats
  }

  lemma {:induction false} MoveBalances(ledger: Ledger, before: Tally, after: Tally, key: CounterKey, current: Sample)
    requires LiveOk(ledger.previous + before.next, ledger.taken + before.taken, before.nextEpoch)
    requires EpochsChained(ledger.taken + before.taken, ledger.stats + before.stats)
    requires key !in before.next && Moves(ledger.previous, before, after, key, current)
    ensures LiveOk(ledger.previous + after.next, ledger.taken + after.taken, after.nextEpoch)
    ensures EpochsChained(ledger.taken + after.taken, ledger.stats + after.stats)
  {
    var live, taken, stats := ledger.previous + before.next, ledger.taken + before.taken, ledger.stats + before.stats;
    assert ledger.previous + after.next == live[key := current];
    assert ledger.taken + after.taken == taken + [current];
    LiveAdvances(live, taken, before.nextEpoch, key, current, after.nextEpoch);
    if after.nextEpoch != before.nextEpoch {
      FreshSampleChains(taken, stats, current);
    } else {
      var event := after.stats[|after.stats| - 1];
      assert ledger.stats + after.stats == stats + [event];
      NextSampleChains(taken, stats, live[key], current, event);
    }
  }

  lemma {:induction false} HeartbeatBalances(ledger: Ledger, beat: Option<Beat>)
    requires Balanced(ledger) && (beat.Some? ==> DistinctBindings(beat.value.peers))
    ensures Balanced(Heartbeat(ledger, beat))
  {
    if beat.Some? {
      VisitsBalance(ledger, beat.value.peers, beat.value);
      var tally := VisitAll(ledger.previous, beat.value.peers, beat.value, ledger.nextEpoch);
      assert forall k :: k in tally.next ==> (ledger.previous + tally.next)[k] == tally.next[k];
    }
  }

  /** The ledger after any run of heartbeats, measured or not. */
  function LedgerOf(beats: seq<Option<Beat>>): Ledger {
    if beats == [] then Ledger(map[], 0, [], [], [])
    else Heartbeat(LedgerOf(beats[..|beats| - 1]), beats[|beats| - 1])
  }

  function Uploads(events: seq<Stats>): int {
    if events == [] then 0 else Uploads(events[..|events| - 1]) + events[|events| - 1].upload
  }

  function Downloads(events: seq<Stats>): int {
    if events == [] then 0 else Downloads(events[..|events| - 1]) + events[|events| - 1].download
  }

  lemma {:induction false} ChainTelescopes(samples: seq<Sample>, events: seq<Stats>)
    requires Chained(samples, events) && samples != []
    ensures Uploads(events) == samples[|samples| - 1].received - samples[0].received
    ensures Downloads(events) == samples[|samples| - 1].transmitted - samples[0].transmitted
  {
    if events != [] {
      var n := |events| - 1;
      assert Spans(events[n], samples[n], samples[n + 1]);
      forall i | 0 <= i < n ensures Spans(events[..n][i], samples[..n + 1][i], samples[..n + 1][i + 1]) {
        assert Spans(events[i], samples[i], samples[i + 1]);
      }
      ChainTelescopes(samples[..n + 1], events[..n]);
    }
  }

  /** Conservation: over any run of heartbeats and for every epoch, the events are exactly the gaps between
      consecutive samples of that epoch, so their bytes sum to its last reading minus its first. */
  lemma {:induction false} CountersAreConserved(beats: seq<Option<Beat>>, epoch: nat)
    requires DistinctRun(beats)
    ensures var ledger := LedgerOf(beats);
            var samples, events := SamplesOf(ledger.taken, epoch), StatsOf(ledger.stats, epoch);
            && Chained(samples, events)
            && (samples == [] ==> events == [])
            && (samples != [] ==>
                  && Uploads(events) == samples[|samples| - 1].received - samples[0].received
                  && Downloads(events) == samples[|samples| - 1].transmitted - samples[0].transmitted)
  {
    RunBalances(beats);
    var ledger := LedgerOf(beats);
    var samples, events := SamplesOf(ledger.taken, epoch), StatsOf(ledger.stats, epoch);
    assert Chained(samples, events);
    if samples != [] {
      ChainTelescopes(samples, events);
    }
  }

  lemma {:induction false} RunBalances(beats: seq<Option<Beat>>)
    requires DistinctRun(beats)
    ensures Balanced(LedgerOf(beats))
  {
    if beats != [] {
      RunBalances(beats[..|beats| - 1]);
      HeartbeatBalances(LedgerOf(beats[..|beats| - 1]), beats[|beats| - 1]);
    }
  }

  // ---- Across epochs: one counter is never counted twice ----

  /** The events that measure one key's counter. */
  function KeyStats(stats: seq<Stats>, keys: seq<KeyText>, key: KeyText): seq<Stats> {
    if stats == [] || |keys| != |stats| then []
    else
      var n := |stats| - 1;
      KeyStats(stats[..n], keys[..n], key) + if keys[n] == key then [stats[n]] else []
  }

  /** The remembered samples are the last heartbeat's readings of their keys. */
  ghost predicate FromBeat(samples: map<CounterKey, Sample>, beat: Option<Beat>) {
    forall k :: k in samples ==>
      && beat.Some? && k.publicKey in beat.value.actual && samples[k].at == beat.value.now
      && samples[k].received == beat.value.actual[k.publicKey].received
      && samples[k].transmitted == beat.value.actual[k.publicKey].transmitted
  }

  /** The event spans the readings of `key` at two heartbeats. */
  predicate Measures(event: Stats, from: Option<Beat>, to: Beat, key: KeyText) {
    && from.Some? && key in from.value.actual && key in to.actual
    && event.startedAt == from.value.now < to.now == event.endedAt
    && event.upload == to.actual[key].received - from.value.actual[key].received >= 0
    && event.download == to.actual[key].transmitted - from.value.actual[key].transmitted >= 0
  }

  function LastBeat(beats: seq<Option<Beat>>): Option<Beat> { if beats == [] then None else beats[|beats| - 1] }

  lemma {:induction false} NextIsFromBeat(previous: map<CounterKey, Sample>, peers: seq<Peer>, beat: Beat, nextEpoch: nat)
    ensures FromBeat(VisitAll(previous, peers, beat, nextEpoch).next, Some(beat))
    ensures |VisitAll(previous, peers, beat, nextEpoch).keys| == |VisitAll(previous, peers, beat, nextEpoch).stats|
  {
    if peers != [] {
      NextIsFromBeat(previous, peers[..|peers| - 1], beat, nextEpoch);
    }
  }

  lemma {:induction false} MemoryIsLastBeat(beats: seq<Option<Beat>>)
    ensures FromBeat(LedgerOf(beats).previous, LastBeat(beats)) && |LedgerOf(beats).keys| == |LedgerOf(beats).stats|
  {
    if beats != [] {
      var before, beat := LedgerOf(beats[..|beats| - 1]), beats[|beats| - 1];
      MemoryIsLastBeat(beats[..|beats| - 1]);
      if beat.Some? {
        NextIsFromBeat(before.previous, beat.value.peers, beat.value, before.nextEpoch);
      }
    }
  }

  lemma KeyStatsSnoc(stats: seq<Stats>, keys: seq<KeyText>, event: Stats, owner: KeyText, key: KeyText)
    requires |keys| == |stats|
    ensures KeyStats(stats + [event], keys + [owner], key) == KeyStats(stats, keys, key) + if owner == key then [event] else []
  {
    assert (stats + [event])[..|stats|] == stats && (keys + [owner])[..|stats|] == keys;
  }

  lemma {:induction false} KeyStatsConcat(stats: seq<Stats>, keys: seq<KeyText>, more: seq<Stats>, owners: seq<KeyText>, key: KeyText)
    requires |keys| == |stats| && |owners| == |more|
    ensures KeyStats(stats + more, keys + owners, key) == KeyStats(stats, keys, key) + KeyStats(more, owners, key)
  {
    if more == [] {
      assert stats + more == stats && keys + owners == keys;
    } else {
      var n := |more| - 1;
      var whole, owned, m := stats + more, keys + owners, |stats| + n;
      assert whole[..m] == stats + more[..n] && owned[..m] == keys + owners[..n];
      KeyStatsConcat(stats, keys, more[..n], owners[..n], key);
      Reassociate(KeyStats(stats, keys, key), KeyStats(more[..n], owners[..n], key), if owners[n] == key then [more[n]] else []);
    }
  }

  lemma Reassociate(a: seq<Stats>, b: seq<Stats>, c: seq<Stats>)
    ensures (a + b) + c == a + (b + c)
  {
  }

  /** One heartbeat generates at most one event for a key, and it spans that key's last two readings. */
  lemma {:induction false} KeyIsMeasuredOnce(previous: map<CounterKey, Sample>, last: Option<Beat>, peers: seq<Peer>, beat: Beat,
                                             nextEpoch: nat, key: KeyText)
    requires FromBeat(previous, last) && DistinctBindings(peers)
    ensures var tally := VisitAll(previous, peers, beat, nextEpoch);
            var events := KeyStats(tally.stats, tally.keys, key);
            && |events| <= 1
            && (events != [] ==> Measures(events[0], last, beat, key) && exists i :: 0 <= i < |peers| && peers[i].publicKey == key)
  {
    if peers != [] {
      var front, binding := peers[..|peers| - 1], peers[|peers| - 1];
      KeyIsMeasuredOnce(previous, last, front, beat, nextEpoch, key);
      NextIsFromBeat(previous, front, beat, nextEpoch);
      var before, after := VisitAll(previous, front, beat, nextEpoch), VisitAll(previous, peers, beat, nextEpoch);
      if after.stats != before.stats {
        KeyStatsSnoc(before.stats, before.keys, after.stats[|before.stats|], binding.publicKey, key);
        assert KeyOf(binding, beat.version) in previous;
      }
    }
  }

  /** What heartbeat `n` of a run generates for a key. */
  function EventsAt(beats: seq<Option<Beat>>, n: nat, key: KeyText): seq<Stats>
    requires n < |beats|
  {
    if beats[n].None? then []
    else
      var before := LedgerOf(beats[..n]);
      var tally := VisitAll(before.previous, beats[n].value.peers, beats[n].value, before.nextEpoch);
      KeyStats(tally.stats, tally.keys, key)
  }

  predicate DistinctRun(beats: seq<Option<Beat>>) {
    forall i :: 0 <= i < |beats| && beats[i].Some? ==> DistinctBindings(beats[i].value.peers)
  }

  /** In any run, heartbeat n has at most one window per key, and it spans the readings of that key at
      heartbeats n - 1 and n, whatever its epoch. */
  lemma {:induction false} WindowsSpanConsecutiveHeartbeats(beats: seq<Option<Beat>>, n: nat, key: KeyText)
    requires DistinctRun(beats) && n < |beats|
    ensures |EventsAt(beats, n, key)| <= 1
    ensures EventsAt(beats, n, key) != [] ==>
              n > 0 && beats[n].Some? && Measures(EventsAt(beats, n, key)[0], beats[n - 1], beats[n].value, key)
  {
    MemoryIsLastBeat(beats[..n]);
    if beats[n].Some? {
      KeyIsMeasuredOnce(LedgerOf(beats[..n]).previous, LastBeat(beats[..n]), beats[n].value.peers, beats[n].value,
                        LedgerOf(beats[..n]).nextEpoch, key);
    }
  }

  function Rise(from: int, to: int): int { if to > from then to - from else 0 }

  /** How far a key's two counters rose between consecutive heartbeats, over a run. */
  function ReceivedRise(beats: seq<Option<Beat>>, key: KeyText): int {
    if |beats| < 2 then 0
    else ReceivedRise(beats[..|beats| - 1], key) + StepRise(beats[|beats| - 2], beats[|beats| - 1], key).0
  }

  function TransmittedRise(beats: seq<Option<Beat>>, key: KeyText): int {
    if |beats| < 2 then 0
    else TransmittedRise(beats[..|beats| - 1], key) + StepRise(beats[|beats| - 2], beats[|beats| - 1], key).1
  }

  function StepRise(from: Option<Beat>, to: Option<Beat>, key: KeyText): (int, int) {
    if from.Some? && to.Some? && key in from.value.actual && key in to.value.actual then
      (Rise(from.value.actual[key].received, to.value.actual[key].received),
       Rise(from.value.actual[key].transmitted, to.value.actual[key].transmitted))
    else (0, 0)
  }

  lemma {:induction false} SumsConcat(a: seq<Stats>, b: seq<Stats>)
    ensures Uploads(a + b) == Uploads(a) + Uploads(b) && Downloads(a + b) == Downloads(a) + Downloads(b)
  {
    if b == [] {
      assert a + b == a;
    } else {
      var n := |b| - 1;
      assert (a + b)[..|a + b| - 1] == a + b[..n];
      SumsConcat(a, b[..n]);
    }
  }

  lemma SingleSum(events: seq<Stats>)
    requires |events| <= 1
    ensures Uploads(events) == (if events == [] then 0 else events[0].upload)
    ensures Downloads(events) == (if events == [] then 0 else events[0].download)
  {
    if events != [] {
      assert events[..0] == [];
    }
  }

  lemma {:induction false} LastHeartbeatAdds(beats: seq<Option<Beat>>, key: KeyText)
    requires beats != []
    ensures var before := LedgerOf(beats[..|beats| - 1]);
            KeyStats(LedgerOf(beats).stats, LedgerOf(beats).keys, key) ==
              KeyStats(before.stats, before.keys, key) + EventsAt(beats, |beats| - 1, key)
  {
    var n := |beats| - 1;
    var before := LedgerOf(beats[..n]);
    MemoryIsLastBeat(beats[..n]);
    if beats[n].Some? {
      var tally := VisitAll(before.previous, beats[n].value.peers, beats[n].value, before.nextEpoch);
      NextIsFromBeat(before.previous, beats[n].value.peers, beats[n].value, before.nextEpoch);
      KeyStatsConcat(before.stats, before.keys, tally.stats, tally.keys, key);
    }
  }

  lemma LastWindowIsARise(beats: seq<Option<Beat>>, key: KeyText)
    requires DistinctRun(beats) && beats != []
    ensures Uploads(EventsAt(beats, |beats| - 1, key)) <= ReceivedRise(beats, key) - ReceivedRise(beats[..|beats| - 1], key)
    ensures Downloads(EventsAt(beats, |beats| - 1, key)) <= TransmittedRise(beats, key) - TransmittedRise(beats[..|beats| - 1], key)
  {
    WindowsSpanConsecutiveHeartbeats(beats, |beats| - 1, key);
    SingleSum(EventsAt(beats, |beats| - 1, key));
  }

  /** No byte is counted twice: over all epochs together, a key's events sum to at most what its counters rose
      between consecutive heartbeats. */
  lemma {:induction false} NoByteIsCountedTwice(beats: seq<Option<Beat>>, key: KeyText)
    requires DistinctRun(beats)
    ensures var events := KeyStats(LedgerOf(beats).stats, LedgerOf(beats).keys, key);
            Uploads(events) <= ReceivedRise(beats, key) && Downloads(events) <= TransmittedRise(beats, key)
  {
    if beats != [] {
      var front := beats[..|beats| - 1];
      NoByteIsCountedTwice(front, key);
      LastHeartbeatAdds(beats, key);
      LastWindowIsARise(beats, key);
      SumsConcat(KeyStats(LedgerOf(front).stats, LedgerOf(front).keys, key), EventsAt(beats, |beats| - 1, key));
    }
  }

  // ---- When a window is emitted ----

  /** The heartbeat read a counter for this session, key and configuration version. */
  ghost predicate ReadFor(beat: Beat, sessionId: string, key: KeyText, version: int) {
    && beat.version == version && key in beat.actual && beat.actual[key].received >= 0 && beat.actual[key].transmitted >= 0
    && exists i :: 0 <= i < |beat.peers| && beat.peers[i].sessionId == sessionId && beat.peers[i].publicKey == key
                && sessionId != "" && beat.peers[i].vpnProfileId != ""
  }

  /** Between two readings: time has passed, at most ten minutes of it, and neither counter has fallen. */
  predicate Continues(from: Beat, to: Beat, key: KeyText)
    requires key in from.actual && key in to.actual
  {
    && from.now < to.now <= from.now + 600 * SECOND
    && from.actual[key].received <= to.actual[key].received && from.actual[key].transmitted <= to.actual[key].transmitted
  }

  /** The event is about this peer, and gives its last handshake unless that lies in the future. */
  predicate Describes(event: Stats, peer: Peer, beat: Beat)
    requires peer.publicKey in beat.actual
  {
    && event.sessionId == peer.sessionId && event.profileId == peer.vpnProfileId && event.gatewayId == beat.gatewayId
    && event.endpointRuntimeId == peer.runtimeId && event.endedAt == beat.now
    && (var seen := beat.actual[peer.publicKey].lastHandshake;
        event.lastHandshake == if seen.Some? && seen.value <= beat.now then seen else None)
  }

  /** The remembered samples are those of exactly the bindings that the heartbeat read. */
  lemma {:induction false} RememberedBindings(previous: map<CounterKey, Sample>, peers: seq<Peer>, beat: Beat, nextEpoch: nat, key: CounterKey)
    ensures key in VisitAll(previous, peers, beat, nextEpoch).next <==>
              exists i :: 0 <= i < |peers| && Counted(peers[i], beat.actual) && KeyOf(peers[i], beat.version) == key
  {
    if peers != [] {
      var front := peers[..|peers| - 1];
      RememberedBindings(previous, front, beat, nextEpoch, key);
      assert forall i :: 0 <= i < |front| ==> front[i] == peers[i];
    }
  }

  lemma RememberedMeansRead(previous: map<CounterKey, Sample>, beat: Beat, nextEpoch: nat, sessionId: string, key: KeyText, version: int)
    ensures CounterKey(sessionId, key, version) in VisitAll(previous, beat.peers, beat, nextEpoch).next <==> ReadFor(beat, sessionId, key, version)
  {
    RememberedBindings(previous, beat.peers, beat, nextEpoch, CounterKey(sessionId, key, version));
  }

  /** The binding is read now and was read at the last heartbeat, and the readings continue each other. */
  ghost predicate Emits(previous: map<CounterKey, Sample>, last: Option<Beat>, binding: Peer, beat: Beat)
    requires FromBeat(previous, last)
  {
    Counted(binding, beat.actual) && KeyOf(binding, beat.version) in previous && Continues(last.value, beat, binding.publicKey)
  }

  /** What one heartbeat emits for the key of one of its bindings. */
  lemma {:induction false} BindingEmits(previous: map<CounterKey, Sample>, last: Option<Beat>, peers: seq<Peer>, beat: Beat, nextEpoch: nat, i: nat)
    requires FromBeat(previous, last) && DistinctBindings(peers) && i < |peers|
    ensures var tally := VisitAll(previous, peers, beat, nextEpoch);
            var events := KeyStats(tally.stats, tally.keys, peers[i].publicKey);
            (events != [] <==> Emits(previous, last, peers[i], beat)) && (events != [] ==> Describes(events[0], peers[i], beat))
  {
    var n := |peers| - 1;
    var front, binding, key := peers[..n], peers[n], peers[i].publicKey;
    NextIsFromBeat(previous, front, beat, nextEpoch);
    var before, after := VisitAll(previous, front, beat, nextEpoch), VisitAll(previous, peers, beat, nextEpoch);
    if Emits(previous, last, binding, beat) {
      KeyStatsSnoc(before.stats, before.keys, after.stats[|before.stats|], binding.publicKey, key);
    }
    if i < n {
      assert front[i] == peers[i];
      BindingEmits(previous, last, front, beat, nextEpoch, i);
    } else {
      AbsentKeyHasNoStats(previous, last, front, beat, nextEpoch, key);
    }
  }

  lemma {:induction false} AbsentKeyHasNoStats(previous: map<CounterKey, Sample>, last: Option<Beat>, peers: seq<Peer>, beat: Beat,
                                               nextEpoch: nat, key: KeyText)
    requires FromBeat(previous, last) && DistinctBindings(peers) && forall i :: 0 <= i < |peers| ==> peers[i].publicKey != key
    ensures var tally := VisitAll(previous, peers, beat, nextEpoch); KeyStats(tally.stats, tally.keys, key) == []
  {
    KeyIsMeasuredOnce(previous, last, peers, beat, nextEpoch, key);
  }

  /** In any run: a heartbeat emits a window for a peer exactly when it reads that peer's counter, the heartbeat before read
      the same session, key and version, and the two readings continue each other; the window is then about that peer. */
  lemma {:induction false} WindowEmittedExactlyWhen(beats: seq<Option<Beat>>, n: nat, i: nat)
    requires DistinctRun(beats) && n < |beats| && beats[n].Some? && i < |beats[n].value.peers|
    ensures var peer, beat := beats[n].value.peers[i], beats[n].value;
            var events := EventsAt(beats, n, peer.publicKey);
            && (events != [] <==>
                  && peer.vpnProfileId != "" && ReadFor(beat, peer.sessionId, peer.publicKey, beat.version)
                  && n > 0 && beats[n - 1].Some? && ReadFor(beats[n - 1].value, peer.sessionId, peer.publicKey, beat.version)
                  && Continues(beats[n - 1].value, beat, peer.publicKey))
            && (events != [] ==> peer.publicKey in beat.actual && Describes(events[0], peer, beat))
  {
    var peer, beat := beats[n].value.peers[i], beats[n].value;
    var before := LedgerOf(beats[..n]);
    MemoryIsLastBeat(beats[..n]);
    BindingEmits(before.previous, LastBeat(beats[..n]), beat.peers, beat, before.nextEpoch, i);
    PreviousIsRead(beats, n, peer.sessionId, peer.publicKey, beat.version);
    assert Counted(peer, beat.actual) <==> peer.vpnProfileId != "" && ReadFor(beat, peer.sessionId, peer.publicKey, beat.version);
  }

  lemma {:induction false} PreviousIsRead(beats: seq<Option<Beat>>, n: nat, sessionId: string, key: KeyText, version: int)
    requires n < |beats|
    ensures CounterKey(sessionId, key, version) in LedgerOf(beats[..n]).previous <==>
              n > 0 && beats[n - 1].Some? && ReadFor(beats[n - 1].value, sessionId, key, version)
  {
    if n > 0 && beats[n - 1].Some? {
      var earlier := LedgerOf(beats[..n - 1]);
      assert beats[..n][..n - 1] == beats[..n - 1] && beats[..n][n - 1] == beats[n - 1];
      RememberedMeansRead(earlier.previous, beats[n - 1].value, earlier.nextEpoch, sessionId, key, version);
    }
  }
}
