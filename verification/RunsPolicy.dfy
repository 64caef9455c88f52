/**
 What the agent keeps to over whole runs: capabilities are left out only when they
 were sent before, requests of the server are remembered, policies never go back,
 and a revoked device stays silent.
 */
module RunsPolicy {
  import opened Prelude
  import opened Protocol
  import opened Delta
  import opened Compact
  import opened AgentModel
  import opened Runs
  import opened RunsReplay
  import Buffer
  import Identity
  import D = RunsDelivery

  // ---------- Capability elision ----------

  /** Among the first `n` heartbeats one carries capabilities with this digest. */
  ghost predicate Carried(sent: seq<Heartbeat>, n: nat, hash: string, d: Digests) {
    exists i :: 0 <= i < n <= |sent| && sent[i].capabilities != map[] && d.capabilities(sent[i].capabilities) == hash
  }

  /** Every remembered digest was carried, and so was every digest that stands in for
      capabilities, by an earlier heartbeat. */
  ghost predicate Backed(w: World, d: Digests) {
    && (w.agent.capabilitiesHash == "" || Carried(w.sent, |w.sent|, w.agent.capabilitiesHash, d))
    && (LoadedHash(w.agent.syncFile) == "" || Carried(w.sent, |w.sent|, LoadedHash(w.agent.syncFile), d))
    && (forall i :: 0 <= i < |w.sent| && w.sent[i].capabilities == map[] ==>
        Carried(w.sent, i, w.sent[i].capabilitiesHash, d))
  }

  lemma CarriedGrows(sent: seq<Heartbeat>, n: nat, hash: string, d: Digests, hb: Heartbeat)
    requires Carried(sent, n, hash, d)
    ensures Carried(sent + [hb], n, hash, d) && Carried(sent + [hb], |sent| + 1, hash, d)
  {
    var i :| 0 <= i < n <= |sent| && sent[i].capabilities != map[] && d.capabilities(sent[i].capabilities) == hash;
    assert (sent + [hb])[i] == sent[i];
  }

  /** The heartbeat queued by a Collect carries its capabilities, or the digest that
      was remembered; only then is a new digest remembered, and it is that of the
      heartbeat. */
  ghost predicate Remembers(s: AgentState, c: Collected, d: Digests) {
    var hash, disk := c.state.capabilitiesHash, LoadedHash(c.state.syncFile);
    match c.queued
    case None => hash == s.capabilitiesHash && disk == LoadedHash(s.syncFile)
    case Some(entry) =>
      var hb := entry.file.body;
      && (hb.capabilities == map[] ==> hb.capabilitiesHash == s.capabilitiesHash != "")
      && (hash == s.capabilitiesHash || (hb.capabilities != map[] && hash == d.capabilities(hb.capabilities)))
      && (disk == LoadedHash(s.syncFile) || disk == s.capabilitiesHash
          || (hb.capabilities != map[] && disk == d.capabilities(hb.capabilities)))
  }

  lemma FinishRemembers(s: AgentState, raw: Heartbeat, env: CollectEnv, binary: Binary)
    requires SoundDigests(binary.digests) && env.compact.Some? && raw.capabilities != map[]
    ensures Remembers(s, Finish(s, raw, env, binary), binary.digests)
  {
    var k, r, entry, added := FinishCases(s, raw, env, binary);
    if k.ok {
      BuildRemembers(s, raw, env.compact.value, binary);
    }
  }

  /** What a build makes of the capabilities and their remembered digest. */
  lemma BuildRemembers(s: AgentState, raw: Heartbeat, compact: bool, binary: Binary)
    requires SoundDigests(binary.digests) && raw.capabilities != map[] && BuildOf(s, raw, compact, binary).ok
    ensures var k := BuildOf(s, raw, compact, binary);
            && (k.heartbeat.capabilities == map[] ==>
                  k.heartbeat.capabilitiesHash == k.capabilitiesHash == s.capabilitiesHash != "")
            && (compact && k.heartbeat.capabilities != map[] ==>
                  k.capabilitiesHash == binary.digests.capabilities(k.heartbeat.capabilities))
  {
    assert IsSha256Hex(binary.digests.capabilities(raw.capabilities));
  }

  lemma CollectRemembers(s: AgentState, env: CollectEnv, binary: Binary)
    requires SoundDigests(binary.digests)
    ensures Remembers(s, CollectStep(s, env, binary), binary.digests)
  {
    var raw, s1 := CollectShape(s, env, binary);
    if raw.Some? {
      FinishRemembers(s1, raw.value, env, binary);
    }
  }

  lemma CollectBacked(w: World, env: CollectEnv, binary: Binary)
    requires SoundDigests(binary.digests) && Backed(w, binary.digests)
    ensures Backed(AfterCollect(w, env, binary), binary.digests)
  {
    CollectRemembers(w.agent, env, binary);
    var c := CollectStep(w.agent, env, binary);
    if c.queued.Some? {
      QueuedBacked(w.sent, c.queued.value.file.body, w.agent, c, binary.digests);
    }
  }

  lemma QueuedBacked(sent: seq<Heartbeat>, hb: Heartbeat, s: AgentState, c: Collected, d: Digests)
    requires c.queued.Some? && c.queued.value.file.body == hb && Remembers(s, c, d)
    requires s.capabilitiesHash == "" || Carried(sent, |sent|, s.capabilitiesHash, d)
    requires LoadedHash(s.syncFile) == "" || Carried(sent, |sent|, LoadedHash(s.syncFile), d)
    requires forall i :: 0 <= i < |sent| && sent[i].capabilities == map[] ==>
             Carried(sent, i, sent[i].capabilitiesHash, d)
    ensures var more := sent + [hb];
            && (c.state.capabilitiesHash == "" || Carried(more, |more|, c.state.capabilitiesHash, d))
            && (LoadedHash(c.state.syncFile) == "" || Carried(more, |more|, LoadedHash(c.state.syncFile), d))
            && (forall i :: 0 <= i < |more| && more[i].capabilities == map[] ==>
                Carried(more, i, more[i].capabilitiesHash, d))
  {
    var more := sent + [hb];
    forall hash, n: nat | Carried(sent, n, hash, d)
      ensures Carried(more, n, hash, d) && Carried(more, |more|, hash, d) {
      CarriedGrows(sent, n, hash, d, hb);
    }
    assert more[|sent|] == hb;
    forall i | 0 <= i < |more| && more[i].capabilities == map[] ensures Carried(more, i, more[i].capabilitiesHash, d) {
      if i < |sent| {
        assert Carried(sent, i, sent[i].capabilitiesHash, d);
      }
    }
  }

  /** A Flush forgets digests or writes down the one it remembers. */
  lemma {:induction false} FlushHashes(s: AgentState, entries: seq<Buffer.Entry>, i: nat, exchanges: nat -> Exchange)
    requires i <= |entries|
    ensures var t := FlushFrom(s, entries, i, exchanges).state;
            && t.capabilitiesHash in {s.capabilitiesHash, ""}
            && LoadedHash(t.syncFile) in {LoadedHash(s.syncFile), s.capabilitiesHash, ""}
    decreases |entries| - i
  {
    if i < |entries| {
      var s1, families := TurnCases(s, entries[i], exchanges(i));
      FlushHashes(TurnStep(s, entries[i], exchanges(i)).state, entries, i + 1, exchanges);
    }
  }

  lemma TickBacked(w: World, env: TickEnv, binary: Binary)
    requires SoundDigests(binary.digests) && Backed(w, binary.digests)
    ensures Backed(AfterTick(w, env, binary), binary.digests)
  {
    CollectBacked(w, env.collect, binary);
    var mid := AfterCollect(w, env.collect, binary);
    FlushHashes(mid.agent, mid.agent.queue.entries, 0, env.exchanges);
  }

  lemma StepBacked(w: World, e: Event, binary: Binary)
    requires SoundDigests(binary.digests) && Backed(w, binary.digests)
    ensures Backed(Step(w, e, binary), binary.digests)
  {
    match e
    case TickEvent(env) => TickBacked(w, env, binary);
    case _ =>
  }

  /** In every run, whatever fails and whenever the process restarts, a heartbeat leaves
      its capabilities out only if an earlier queued heartbeat carried capabilities with
      that same digest; and what is remembered was always carried. */
  lemma {:induction false} ElisionBacked(events: seq<Event>, binary: Binary)
    requires SoundDigests(binary.digests)
    ensures Backed(After(events, binary), binary.digests)
  {
    if events != [] {
      ElisionBacked(events[..|events| - 1], binary);
      StepBacked(After(events[..|events| - 1], binary), events[|events| - 1], binary);
    }
  }

  // ---------- Reconcile requests ----------

  /** The next build of `f` sends it in full, now or after a restart. */
  ghost predicate Owed(s: AgentState, f: Family) {
    MemoryOf(s, f).lastFullAt.None? && DiskOf(s, f).lastFullAt.None?
  }

  /** The reply asks for `f` in full. */
  predicate Asks(reply: Reply, sequence: nat, f: Family) {
    var verdict := Judge(reply, sequence);
    verdict.Accepted? && verdict.telemetry.Some? && f in verdict.telemetry.value.reconcile
  }

  lemma TurnOwes(s: AgentState, entry: Buffer.Entry, x: Exchange, f: Family)
    requires Owed(s, f) || (Asks(x.reply, entry.sequence, f) && TurnStep(s, entry, x).removed)
    ensures Owed(TurnStep(s, entry, x).state, f)
  {
    var s1, families := TurnCases(s, entry, x);
    ReconciledFamily(s.table, families, f);
  }

  /** A request that came with a confirmation is owed after the Flush, whatever the
      other answers were. */
  lemma {:induction false} FlushOwes(s: AgentState, entries: seq<Buffer.Entry>, i: nat, exchanges: nat -> Exchange,
                                     j: nat, f: Family)
    requires i <= |entries|
    requires Owed(s, f)
             || (i <= j < FlushFrom(s, entries, i, exchanges).removed <= |entries|
                 && Asks(exchanges(j).reply, entries[j].sequence, f))
    ensures Owed(FlushFrom(s, entries, i, exchanges).state, f)
    decreases |entries| - i
  {
    FlushRemoves(s, entries, i, exchanges);
    if i < |entries| {
      if Owed(s, f) || i == j {
        TurnOwes(s, entries[i], exchanges(i), f);
      }
      FlushOwes(TurnStep(s, entries[i], exchanges(i)).state, entries, i + 1, exchanges, j, f);
    }
  }

  /** A build of `f` in full, with every keyed value. */
  ghost predicate FullBuild(s: AgentState, env: CollectEnv, binary: Binary, f: Family) {
    var entries := EntriesOf(f, InventoryOf(env));
    var delta := DeltaOf(SyncOf(s.table, f), entries, CollectedAt(env), binary.digests.record);
    var c := CollectStep(s, env, binary);
    && delta.ok && delta.family.Some? && delta.family.value.full && delta.family.value.changed == Values(entries)
    && (c.queued.Some? && c.queued.value.file.body.state.Some? ==>
          f in c.queued.value.file.body.state.value && c.queued.value.file.body.state.value[f] == delta.family.value)
  }

  /** What a Collect does to a family: nothing, or the step of its delta; the sync
      file keeps up or stays behind; a queued compact heartbeat carries the delta. */
  lemma CollectMoves(s: AgentState, env: CollectEnv, binary: Binary, f: Family)
    requires f in FamilyOrder
    ensures var c := CollectStep(s, env, binary);
            var delta := DeltaOf(SyncOf(s.table, f), EntriesOf(f, InventoryOf(env)), CollectedAt(env),
                                 binary.digests.record);
            && (MemoryOf(c.state, f) == MemoryOf(s, f) || (delta.ok && MemoryOf(c.state, f) == delta.next))
            && (DiskOf(c.state, f) == DiskOf(s, f) || DiskOf(c.state, f) == MemoryOf(c.state, f))
            && (c.built ==> delta.ok && MemoryOf(c.state, f) == delta.next)
            && (c.queued.Some? && c.queued.value.file.body.state.Some? ==>
                  var state := c.queued.value.file.body.state.value;
                  && delta.ok && MemoryOf(c.state, f) == delta.next
                  && (f in state <==> delta.family.Some?) && (f in state ==> state[f] == delta.family.value))
  {
    var raw, s1 := CollectShape(s, env, binary);
    if raw.Some? {
      FinishShape(s1, raw.value, env, binary);
      CompactMoves(raw.value, s1.table, s1.capabilitiesHash, binary.digests, f);
    }
  }

  /** A Collect that completes a build of an owed family builds it in full; any other
      Collect leaves it owed. */
  lemma CollectOwes(s: AgentState, env: CollectEnv, binary: Binary, f: Family)
    requires SoundDigests(binary.digests) && f in FamilyOrder && Owed(s, f)
    ensures var c := CollectStep(s, env, binary);
            (Owed(c.state, f) && !c.built) || FullBuild(s, env, binary, f)
  {
    CollectMoves(s, env, binary, f);
    var entries := EntriesOf(f, InventoryOf(env));
    if DeltaOf(SyncOf(s.table, f), entries, CollectedAt(env), binary.digests.record).ok {
      DueIsFull(SyncOf(s.table, f), entries, CollectedAt(env), binary.digests.record);
    }
  }

  /** The event is a tick that builds `f` in full. */
  ghost predicate Honours(w: World, e: Event, binary: Binary, f: Family) {
    e.TickEvent? && w.mode == Running && FullBuild(w.agent, e.tick.collect, binary, f)
  }

  lemma StepOwes(w: World, e: Event, binary: Binary, f: Family)
    requires SoundDigests(binary.digests) && f in FamilyOrder && Owed(w.agent, f)
    ensures Owed(Step(w, e, binary).agent, f) || Honours(w, e, binary, f)
  {
    match e
    case TickEvent(env) =>
      if w.mode == Running {
        CollectOwes(w.agent, env.collect, binary, f);
        var s := CollectStep(w.agent, env.collect, binary).state;
        if Owed(s, f) {
          FlushOwes(s, s.queue.entries, 0, env.exchanges, 0, f);
        }
      }
    case _ =>
  }

  /** Event `k` of the run honours the request. */
  ghost predicate HonouredAt(w: World, events: seq<Event>, k: nat, binary: Binary, f: Family) {
    k < |events| && Honours(From(w, events[..k], binary), events[k], binary, f)
  }

  lemma HonouredLonger(w: World, events: seq<Event>, e: Event, k: nat, binary: Binary, f: Family)
    requires HonouredAt(w, events, k, binary, f)
    ensures HonouredAt(w, events + [e], k, binary, f)
  {
    assert (events + [e])[..k] == events[..k];
  }

  lemma OwedStep(w: World, events: seq<Event>, e: Event, binary: Binary, f: Family)
    requires SoundDigests(binary.digests) && f in FamilyOrder && Owed(From(w, events, binary).agent, f)
    ensures Owed(From(w, events + [e], binary).agent, f) || HonouredAt(w, events + [e], |events|, binary, f)
  {
    assert (events + [e])[..|events|] == events;
    StepOwes(From(w, events, binary), e, binary, f);
  }

  /** A family owed to the server is remembered through every failure and restart
      until some build sends it in full. */
  lemma {:induction false} ReconcileRemembered(w: World, events: seq<Event>, binary: Binary, f: Family)
    requires SoundDigests(binary.digests) && f in FamilyOrder && Owed(w.agent, f)
    ensures Owed(From(w, events, binary).agent, f) || exists k :: HonouredAt(w, events, k, binary, f)
  {
    if events != [] {
      var init, e := events[..|events| - 1], events[|events| - 1];
      assert events == init + [e];
      ReconcileRemembered(w, init, binary, f);
      if Owed(From(w, init, binary).agent, f) {
        OwedStep(w, init, e, binary, f);
      } else {
        var k :| HonouredAt(w, init, k, binary, f);
        HonouredLonger(w, init, e, k, binary, f);
      }
    }
  }

  // ---------- Capability requests ----------

  /** The next compact heartbeat carries its capabilities, now or after a restart. */
  predicate CapabilitiesOwed(s: AgentState) {
    s.capabilitiesHash == "" && LoadedHash(s.syncFile) == ""
  }

  predicate AsksCapabilities(reply: Reply, sequence: nat) {
    var verdict := Judge(reply, sequence);
    verdict.Accepted? && verdict.telemetry.Some? && verdict.telemetry.value.requestCapabilities
  }

  lemma TurnOwesCapabilities(s: AgentState, entry: Buffer.Entry, x: Exchange)
    requires CapabilitiesOwed(s) || (AsksCapabilities(x.reply, entry.sequence) && TurnStep(s, entry, x).removed)
    ensures CapabilitiesOwed(TurnStep(s, entry, x).state)
  {
    var s1, families := TurnCases(s, entry, x);
  }

  lemma {:induction false} FlushOwesCapabilities(s: AgentState, entries: seq<Buffer.Entry>, i: nat,
                                                 exchanges: nat -> Exchange, j: nat)
    requires i <= |entries|
    requires CapabilitiesOwed(s)
             || (i <= j < FlushFrom(s, entries, i, exchanges).removed <= |entries|
                 && AsksCapabilities(exchanges(j).reply, entries[j].sequence))
    ensures CapabilitiesOwed(FlushFrom(s, entries, i, exchanges).state)
    decreases |entries| - i
  {
    FlushRemoves(s, entries, i, exchanges);
    if i < |entries| {
      if CapabilitiesOwed(s) || i == j {
        TurnOwesCapabilities(s, entries[i], exchanges(i));
      }
      FlushOwesCapabilities(TurnStep(s, entries[i], exchanges(i)).state, entries, i + 1, exchanges, j);
    }
  }

  /** While capabilities are owed, a step keeps them owed or queues a heartbeat that
      carries them. */
  lemma CapabilitiesRemembered(w: World, e: Event, binary: Binary)
    requires SoundDigests(binary.digests) && CapabilitiesOwed(w.agent)
    ensures var w' := Step(w, e, binary);
            || (CapabilitiesOwed(w'.agent) && w'.sent == w.sent)
            || (|w'.sent| == |w.sent| + 1 && w'.sent[|w.sent|].capabilities != map[])
  {
    match e
    case TickEvent(env) =>
      if w.mode == Running {
        CollectRemembers(w.agent, env.collect, binary);
        var c := CollectStep(w.agent, env.collect, binary);
        if c.queued.None? {
          FlushOwesCapabilities(c.state, c.state.queue.entries, 0, env.exchanges, 0);
        }
      }
    case _ =>
  }

  // ---------- What a turn notes of requests ----------

  /** The requests of a confirming answer are noted once its policy, if newer, was written. */
  function NotedRequest(s: AgentState, entry: Buffer.Entry, x: Exchange): Option<Acknowledgement> {
    if Confirms(x.reply, entry.sequence) && x.reply.Answer?
       && (x.reply.monitoring.Some? && x.reply.monitoring.value.revision > s.monitoring.revision ==> x.monitoringWrite)
    then x.reply.telemetry else None
  }

  /** Exactly the families that a noted request names are forgotten as sent in full, exactly
      a noted request for capabilities clears their digest, and the sync file takes the
      result over as far as it can be written. */
  ghost predicate Took(s: AgentState, t: AgentState, request: Option<Acknowledgement>, sync: WriteOutcome, f: Family) {
    match request
    case None => MemoryOf(t, f) == MemoryOf(s, f) && t.capabilitiesHash == s.capabilitiesHash
    && t.syncFile == s.syncFile
    case Some(ack) =>
      && MemoryOf(t, f) == (if f in ack.reconcile then MemoryOf(s, f).(lastFullAt := None) else MemoryOf(s, f))
      && t.capabilitiesHash == (if ack.requestCapabilities then "" else s.capabilitiesHash)
      && t.syncFile == (if (ack.requestCapabilities || ack.reconcile != []) && sync != FailedBeforeRename
                        then Stored(t.capabilitiesHash, t.table) else s.syncFile)
  }

  /** A turn takes exactly the noted request. */
  lemma RequestsExact(s: AgentState, entry: Buffer.Entry, x: Exchange, f: Family)
    ensures Took(s, TurnStep(s, entry, x).state, NotedRequest(s, entry, x), x.sync, f)
  {
    var accepts, policy, request := TurnParts(s, entry, x);
    var s0 := s.(attempts := s.attempts + 1);
    if accepts {
      AcceptedRequests(s0, entry, policy, request, x, f);
      TookFrom(s, s0, AcceptStep(s0, entry, policy, request, x).state, NotedRequest(s, entry, x), x.sync, f);
    }
  }

  /** The start of the attempt does not matter. */
  lemma TookFrom(s: AgentState, s0: AgentState, t: AgentState, request: Option<Acknowledgement>, sync: WriteOutcome,
                 f: Family)
    requires s0 == s.(attempts := s0.attempts) && Took(s0, t, request, sync, f)
    ensures Took(s, t, request, sync, f)
  {
  }

  /** A turn is the common tail with the parts of its answer, or changes none of this. */
  lemma TurnParts(s: AgentState, entry: Buffer.Entry, x: Exchange)
    returns (accepts: bool, policy: Option<Monitoring>, request: Option<Acknowledgement>)
    ensures accepts ==> TurnStep(s, entry, x) == AcceptStep(s.(attempts := s.attempts + 1), entry, policy, request, x)
    ensures accepts ==> policy.Some? ==> ValidMonitoring(policy.value)
    ensures accepts ==>
              var noted := policy.Some? && policy.value.revision > s.monitoring.revision ==> x.monitoringWrite;
              NotedRequest(s, entry, x) == if noted then request else None
    ensures !accepts ==> forall f :: Took(s, TurnStep(s, entry, x).state, NotedRequest(s, entry, x), x.sync, f)
  {
    accepts, policy, request := false, None, None;
    match Judge(x.reply, entry.sequence)
    case Accepted(p, r) => accepts, policy, request := true, p, r;
    case Replayed => accepts := true;
    case _ =>
  }

  lemma AcceptedRequests(s: AgentState, entry: Buffer.Entry, policy: Option<Monitoring>,
                         request: Option<Acknowledgement>, x: Exchange, f: Family)
    requires policy.Some? ==> ValidMonitoring(policy.value)
    ensures var noted := policy.Some? && policy.value.revision > s.monitoring.revision ==> x.monitoringWrite;
            Took(s, AcceptStep(s, entry, policy, request, x).state, if noted then request else None, x.sync, f)
  {
    if !(NewPolicy(s, policy) && !x.monitoringWrite) {
      var s1 := if NewPolicy(s, policy) then s.(monitoring := policy.value) else s;
      RequestTakes(s1, entry, request, x, f);
      assert AcceptStep(s, entry, policy, request, x) == RequestStep(s1, entry, request, x);
    }
  }

  lemma RequestTakes(s: AgentState, entry: Buffer.Entry, request: Option<Acknowledgement>, x: Exchange, f: Family)
    ensures Took(s, RequestStep(s, entry, request, x).state, request, x.sync, f)
  {
    if request.Some? {
      ReconciledFamily(s.table, request.value.reconcile, f);
    }
  }

  // ---------- Policies ----------

  lemma {:induction false} FlushPolicy(s: AgentState, entries: seq<Buffer.Entry>, i: nat, exchanges: nat -> Exchange)
    requires i <= |entries|
    ensures FlushFrom(s, entries, i, exchanges).state.monitoring.revision >= s.monitoring.revision
    decreases |entries| - i
  {
    if i < |entries| {
      var s1, families := TurnCases(s, entries[i], exchanges(i));
      FlushPolicy(TurnStep(s, entries[i], exchanges(i)).state, entries, i + 1, exchanges);
    }
  }

  /** The answer brings a policy of at least this revision. */
  predicate Brings(reply: Reply, sequence: nat, revision: nat) {
    var verdict := Judge(reply, sequence);
    verdict.Accepted? && verdict.monitoring.Some? && verdict.monitoring.value.revision >= revision
  }

  lemma TurnApplies(s: AgentState, entry: Buffer.Entry, x: Exchange, revision: nat)
    requires Brings(x.reply, entry.sequence, revision) && TurnStep(s, entry, x).removed
    ensures TurnStep(s, entry, x).state.monitoring.revision >= revision
  {
    var s1, families := TurnCases(s, entry, x);
  }

  /** A policy that came with a confirmation anywhere in a Flush is in force after it, or
      a newer one is. */
  lemma {:induction false} FlushApplies(s: AgentState, entries: seq<Buffer.Entry>, i: nat, exchanges: nat -> Exchange,
                                        j: nat, revision: nat)
    requires i <= |entries| && i <= j < FlushFrom(s, entries, i, exchanges).removed <= |entries|
    requires Brings(exchanges(j).reply, entries[j].sequence, revision)
    ensures FlushFrom(s, entries, i, exchanges).state.monitoring.revision >= revision
    decreases |entries| - i
  {
    var t := TurnStep(s, entries[i], exchanges(i));
    if i == j {
      TurnApplies(s, entries[i], exchanges(i), revision);
      FlushPolicy(t.state, entries, i + 1, exchanges);
    } else {
      FlushApplies(t.state, entries, i + 1, exchanges, j, revision);
    }
  }

  lemma StepPolicy(w: World, e: Event, binary: Binary)
    ensures Step(w, e, binary).agent.monitoring.revision >= w.agent.monitoring.revision
  {
    match e
    case TickEvent(env) =>
      CollectKeeps(w.agent, env.collect, binary);
      var s := CollectStep(w.agent, env.collect, binary).state;
      FlushPolicy(s, s.queue.entries, 0, env.exchanges);
    case _ =>
  }

  /** Over any run the revision of the monitoring policy in force never goes back. */
  lemma {:induction false} PolicyMonotone(w: World, events: seq<Event>, binary: Binary)
    ensures From(w, events, binary).agent.monitoring.revision >= w.agent.monitoring.revision
  {
    if events != [] {
      PolicyMonotone(w, events[..|events| - 1], binary);
      StepPolicy(From(w, events[..|events| - 1], binary), events[|events| - 1], binary);
    }
  }

  // ---------- Dormancy ----------

  /** A device with a recorded revocation on which no run loop is at work. */
  predicate Silent(w: World) {
    w.agent.dormant && w.mode != Running
  }

  /** The one way out of dormancy: the file cannot be examined, which the agent takes for
      its absence, in a process that gets its contract or submits a snapshot. */
  predicate Misses(w: World, e: Event) {
    match e
    case ContractEvent(env) => w.mode == Starting && env.statFails && ContractStep(w.agent, env).ok
    case SnapshotEvent(env) =>
      w.mode != Off && env.statFails && env.valid && Identity.Reserve(w.agent.device, env.reserve).sequence.Some?
    case _ => false
  }

  /** From a silent device a step leads to a silent one that attempted no delivery, if and
      only if it does not miss the file. */
  lemma StepSilent(w: World, e: Event, binary: Binary)
    requires Silent(w)
    ensures var w' := Step(w, e, binary);
            && (Silent(w') && w'.agent.attempts == w.agent.attempts <==> !Misses(w, e))
            && w'.sent == w.sent && w'.agent.dormant
  {
  }

  /** No step of the run puts the run loop to work or attempts a delivery. */
  ghost predicate StaysSilent(w: World, events: seq<Event>, binary: Binary) {
    if events == [] then Silent(w)
    else
      var init := events[..|events| - 1];
      && StaysSilent(w, init, binary) && Silent(From(w, events, binary))
      && From(w, events, binary).agent.attempts == From(w, init, binary).agent.attempts
  }

  ghost predicate NeverMisses(w: World, events: seq<Event>, binary: Binary) {
    events == []
    || (NeverMisses(w, events[..|events| - 1], binary)
        && !Misses(From(w, events[..|events| - 1], binary), events[|events| - 1]))
  }

  /** Over any run, of this process and of later ones, a device with a recorded revocation
      stays silent if and only if no event misses the file; and then it attempts and
      queues nothing at all. */
  lemma {:induction false} DormancyExact(w: World, events: seq<Event>, binary: Binary)
    requires Silent(w)
    ensures StaysSilent(w, events, binary) <==> NeverMisses(w, events, binary)
    ensures NeverMisses(w, events, binary) ==>
              && Silent(From(w, events, binary)) && From(w, events, binary).agent.attempts == w.agent.attempts
              && From(w, events, binary).sent == w.sent
  {
    if events != [] {
      var n := |events| - 1;
      DormancyExact(w, events[..n], binary);
      if NeverMisses(w, events[..n], binary) {
        StepSilent(From(w, events[..n], binary), events[n], binary);
      }
    }
  }

  /** The file can be examined whenever the event looks at it. */
  predicate StatWorks(e: Event) {
    match e
    case ContractEvent(env) => !env.statFails
    case SnapshotEvent(env) => !env.statFails
    case _ => true
  }

  /** While the file can be examined, a silent device also removes nothing from its queue. */
  lemma {:induction false} DormancyAbsorbing(w: World, events: seq<Event>, binary: Binary)
    requires Silent(w) && forall e :: e in events ==> StatWorks(e)
    ensures var w' := From(w, events, binary);
            && Silent(w') && w'.agent.attempts == w.agent.attempts
            && w'.sent == w.sent && w'.agent.queue.entries == w.agent.queue.entries
  {
    if events != [] {
      var init, e := events[..|events| - 1], events[|events| - 1];
      assert e in events && forall x :: x in init ==> x in events;
      DormancyAbsorbing(w, init, binary);
      StepSilent(From(w, init, binary), e, binary);
    }
  }

  /** The entry that met the revocation is the head of the queue that remains. */
  lemma {:induction false} RevokedAt(s: AgentState, entries: seq<Buffer.Entry>, i: nat, exchanges: nat -> Exchange)
    requires i <= |entries| && s.queue.entries == entries[i..]
    requires FlushFrom(s, entries, i, exchanges).outcome == StoppedRevoked
    ensures var f := FlushFrom(s, entries, i, exchanges);
            && i <= f.removed < |entries| && exchanges(f.removed).reply == Status(410, RegistrationRevoked)
            && f.state.queue.entries == entries[f.removed..]
    decreases |entries| - i
  {
    if i < |entries| {
      var t := TurnStep(s, entries[i], exchanges(i));
      D.TurnQueue(s, entries[i], exchanges(i));
      assert entries[i..][1..] == entries[i + 1..];
      if t.outcome == Continue {
        RevokedAt(t.state, entries, i + 1, exchanges);
      } else {
        RevokedExact(s, entries[i], exchanges(i));
      }
    }
  }

  /** A Flush whose first answers confirm and then meets the revocation, with every file
      operation working, makes the device dormant and keeps the entry that met it. */
  lemma FlushMeetsRevocation(s: AgentState, exchanges: nat -> Exchange, j: nat)
    requires j < |s.queue.entries|
    requires forall k :: 0 <= k < j ==> D.Succeeds(exchanges(k), s.queue.entries[k].sequence)
    requires exchanges(j).reply == Status(410, RegistrationRevoked) && exchanges(j).dormantWrite
    ensures var f := FlushStep(s, exchanges);
            f.outcome == StoppedRevoked && f.removed == j && f.state.dormant
            && f.state.queue.entries == s.queue.entries[j..]
  {
    var entries := s.queue.entries;
    assert entries[0..] == entries;
    var t := D.FlushReaches(s, entries, 0, exchanges, j);
    RevokedExact(t, entries[j], exchanges(j));
    FlushKeeps(t, entries, j, exchanges);
    assert FlushFrom(t, entries, j, exchanges).outcome == StoppedRevoked;
    RevokedAt(t, entries, j, exchanges);
    D.TurnQueue(t, entries[j], exchanges(j));
  }

  /** In any run, after the tick whose Flush recorded a revocation, the heartbeat that
      met it stays at the head of the queue for good, and nothing is sent again, as long
      as the dormancy file can be examined. */
  lemma RevokedHeartbeatKept(w: World, env: TickEnv, events: seq<Event>, binary: Binary)
    requires w.mode == Running && TickStep(w.agent, env, binary).revoked
    requires forall e :: e in events ==> StatWorks(e)
    ensures var mid := CollectStep(w.agent, env.collect, binary).state;
            var met := FlushStep(mid, env.exchanges).removed;
            var w1 := Step(w, TickEvent(env), binary);
            var w2 := From(w1, events, binary);
            && met < |mid.queue.entries| && env.exchanges(met).reply == Status(410, RegistrationRevoked)
            && Silent(w2) && w2.agent.attempts == w1.agent.attempts
            && w2.agent.queue.entries != [] && w2.agent.queue.entries[0] == mid.queue.entries[met]
  {
    var mid := CollectStep(w.agent, env.collect, binary).state;
    assert mid.queue.entries[0..] == mid.queue.entries;
    RevokedAt(mid, mid.queue.entries, 0, env.exchanges);
    FlushKeeps(mid, mid.queue.entries, 0, env.exchanges);
    DormancyAbsorbing(Step(w, TickEvent(env), binary), events, binary);
  }
}
