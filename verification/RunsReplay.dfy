/**
 The delta stream over whole runs: whatever fails, is dropped, lost, delayed,
 repeated or restarted, a receiver that checks revisions holds exactly what the
 agent recorded at the receiver's revision.
 */
module RunsReplay {
  import opened Prelude
  import opened Protocol
  import opened Delta
  import opened Compact
  import opened AgentModel
  import opened Runs
  import Identity
  import Keys
  import Buffer
  import R = Replay

  // ---------- One family of a world ----------

  /** The families of kind `f` in the heartbeats ever queued. */
  ghost function SentOf(sent: seq<Heartbeat>, f: Family): set<StateFamily> {
    set i | 0 <= i < |sent| && sent[i].state.Some? && f in sent[i].state.value :: sent[i].state.value[f]
  }

  ghost function TrackOf(w: World, f: Family): R.Track {
    R.Track(SyncOf(w.agent.table, f), SyncOf(LoadedTable(w.agent.syncFile), f), LogOf(w, f), SentOf(w.sent, f),
            ReceiverOf(w, f))
  }

  /** All seven families are sound, and no revision exceeds the number of events. */
  ghost predicate Sound(w: World, d: Digests, events: nat) {
    forall f :: f in FamilyOrder ==>
      R.Sound(TrackOf(w, f), d.record, KeyFn(f)) && SyncOf(w.agent.table, f).revision <= events
  }

  // ---------- Which events are admitted ----------

  /** The collected values of `f` hide no change behind a duplicate key. */
  ghost predicate CleanInput(w: World, f: Family, env: CollectEnv, d: Digests) {
    env.observation.Some? ==>
      DueFull(SyncOf(w.agent.table, f), CollectedAt(env))
      || Unmasked(SyncOf(w.agent.table, f).hashes, EntriesOf(f, InventoryOf(env)), d.record)
  }

  ghost function CollectedAt(env: CollectEnv): int {
    if env.observation.Some?
      && env.observation.value.collectedAt.Some? then env.observation.value.collectedAt.value else env.clock
  }

  /** Inputs are clean, and a process only starts when the sync file covers every
      queued family. */
  ghost predicate Admitted(w: World, e: Event, d: Digests) {
    match e
    case TickEvent(env) => forall f :: f in FamilyOrder ==> CleanInput(w, f, env.collect, d)
    case BootEvent(_) => forall f :: f in FamilyOrder ==> R.NoRollback(TrackOf(w, f))
    case _ => true
  }

  ghost predicate AdmittedRun(events: seq<Event>, binary: Binary) {
    events == []
    || (AdmittedRun(events[..|events| - 1], binary)
        && Admitted(After(events[..|events| - 1], binary), events[|events| - 1], binary.digests))
  }

  /** An input is clean when no two of its items have the same identity; sensors and
      system always are. */
  lemma DistinctClean(w: World, f: Family, env: CollectEnv, d: Digests)
    requires Keys.PlainParts(f, InventoryOf(env)) && Keys.DistinctItems(f, InventoryOf(env))
    ensures CleanInput(w, f, env, d)
  {
    Keys.DistinctExact(f, InventoryOf(env));
    DistinctUnmasked(SyncOf(w.agent.table, f).hashes, EntriesOf(f, InventoryOf(env)), d.record);
  }

  // ---------- Collect ----------

  /** The track of `f` after a build moved it on or left it. */
  ghost function Advanced(t: R.Track, after: FamilySync, entries: seq<Keyed>): R.Track {
    t.(memory := after, log := Logged(t.log, t.memory, after, entries))
  }

  lemma BuiltSound(t: R.Track, entries: seq<Keyed>, now: int, d: Digests, keyOf: RecordKey)
    requires SoundDigests(d) && R.Sound(t, d.record, keyOf) && R.GoodInput(t, entries, now, d.record, keyOf)
    requires t.memory.revision < MaxUint64 && DeltaOf(t.memory, entries, now, d.record).ok
    ensures var delta := DeltaOf(t.memory, entries, now, d.record);
            && R.Sound(Advanced(t, delta.next, entries), d.record, keyOf)
            && delta.next.revision <= t.memory.revision + 1
            && (delta.family.Some? ==>
                  && R.Faithful(Advanced(t, delta.next, entries).log, delta.family.value, keyOf)
                  && delta.family.value.revision <= delta.next.revision)
  {
    R.BuildSound(t, entries, now, d.record, keyOf);
    DeltaRecords(t.memory, entries, now, d.record);
    assert Advanced(t, DeltaOf(t.memory, entries, now, d.record).next, entries) == R.Build(t, entries, now, d.record);
  }

  /** What a build of the whole heartbeat means for one family: the track stays
      sound, and the family the heartbeat carries, if any, may be queued. */
  lemma CompactSound(t: R.Track, raw: Heartbeat, table: FamilyTable, capabilitiesHash: string, d: Digests, f: Family)
    requires SoundDigests(d) && f in FamilyOrder && t.memory == SyncOf(table, f) && t.memory.revision < MaxUint64
    requires R.Sound(t, d.record, KeyFn(f))
    requires DueFull(t.memory, raw.collectedAt) || Unmasked(t.memory.hashes, EntriesOf(f, raw.inventory), d.record)
    ensures var c := CompactOf(raw, table, capabilitiesHash, d);
            var after := SyncOf(c.table, f);
            var t' := Advanced(t, after, EntriesOf(f, raw.inventory));
            && R.Sound(t', d.record, KeyFn(f)) && after.revision <= t.memory.revision + 1
            && (c.ok && f in c.heartbeat.state.value ==>
                  && R.Faithful(t'.log, c.heartbeat.state.value[f], KeyFn(f))
                  && c.heartbeat.state.value[f].revision <= after.revision)
  {
    var entries := EntriesOf(f, raw.inventory);
    EntriesKeyed(f, raw.inventory);
    CompactMoves(raw, table, capabilitiesHash, d, f);
    var delta := DeltaOf(t.memory, entries, raw.collectedAt, d.record);
    if delta.ok {
      BuiltSound(t, entries, raw.collectedAt, d, KeyFn(f));
    }
    assert Advanced(t, t.memory, entries) == t;
  }

  /** Queueing a heartbeat adds at most its own family to what was sent. */
  lemma SentAppend(sent: seq<Heartbeat>, hb: Heartbeat, f: Family)
    ensures SentOf(sent + [hb], f)
            == SentOf(sent, f) + (if hb.state.Some? && f in hb.state.value then {hb.state.value[f]} else {})
  {
    var more := sent + [hb];
    forall m | m in SentOf(sent, f) ensures m in SentOf(more, f) {
      var i :| 0 <= i < |sent| && sent[i].state.Some? && f in sent[i].state.value && sent[i].state.value[f] == m;
      assert more[i] == sent[i];
    }
    if hb.state.Some? && f in hb.state.value {
      assert more[|sent|] == hb;
    }
  }

  /** How far the rest of a Collect got: the family table is the build's, the sync
      file is untouched or holds that table, and what was queued is the result. */
  lemma FinishShape(s: AgentState, raw: Heartbeat, env: CollectEnv, binary: Binary)
    requires env.compact.Some?
    ensures var c := Finish(s, raw, env, binary);
            var k := BuildOf(s, raw, env.compact.value, binary);
            && c.state.table == k.table
            && (LoadedTable(c.state.syncFile) == LoadedTable(s.syncFile) || LoadedTable(c.state.syncFile) == k.table)
            && (c.built ==> k.ok && env.compact.value)
            && (c.queued.Some? ==> k.ok && c.queued.value.file.body == k.heartbeat)
  {
    var k, r, entry, added := FinishCases(s, raw, env, binary);
  }

  /** A Collect stops before its raw heartbeat, or finishes it. */
  lemma CollectShape(s: AgentState, env: CollectEnv, binary: Binary) returns (raw: Option<Heartbeat>, s1: AgentState)
    ensures s1 == s.(device := s1.device)
    ensures var c := CollectStep(s, env, binary);
            if raw.None? then c == Abandoned(s1)
            else env.compact.Some? && env.observation.Some? && c == Finish(s1, raw.value, env, binary)
                 && raw.value.state == None && raw.value.capabilities != map[]
                 && raw.value.collectedAt == CollectedAt(env) && raw.value.inventory == InventoryOf(env)
  {
    raw, s1 := None, s;
    if env.observation.Some? {
      var reserved := Identity.Reserve(s.device, env.reserve);
      s1 := s.(device := reserved.device);
      if reserved.sequence.Some? && env.droppedReadable && env.monitoring.Some? && env.compact.Some? {
        raw := Some(RawHeartbeat(s, env, binary, reserved.sequence.value));
      }
    }
  }

  ghost function SentWith(t: R.Track, hb: Option<Heartbeat>, f: Family): R.Track {
    if hb.Some? && hb.value.state.Some? && f in hb.value.state.value then R.Emit(t, hb.value.state.value[f]) else t
  }

  /** What a Collect makes of the track of one family. */
  lemma CollectTrack(w: World, env: CollectEnv, binary: Binary, f: Family)
    requires f in FamilyOrder
    ensures var c := CollectStep(w.agent, env, binary);
            var t, t' := TrackOf(w, f), TrackOf(AfterCollect(w, env, binary), f);
            var body := if c.queued.Some? then Some(c.queued.value.file.body) else None;
            t' == SentWith(Advanced(t, SyncOf(c.state.table, f), EntriesOf(f, InventoryOf(env))), body, f)
                  .(disk := SyncOf(LoadedTable(c.state.syncFile), f))
  {
    var c := CollectStep(w.agent, env, binary);
    if c.queued.Some? {
      SentAppend(w.sent, c.queued.value.file.body, f);
    }
  }

  lemma CollectSound(w: World, env: CollectEnv, binary: Binary, f: Family)
    requires SoundDigests(binary.digests) && f in FamilyOrder
    requires R.Sound(TrackOf(w, f), binary.digests.record, KeyFn(f)) && SyncOf(w.agent.table, f).revision < MaxUint64
    requires CleanInput(w, f, env, binary.digests)
    ensures R.Sound(TrackOf(AfterCollect(w, env, binary), f), binary.digests.record, KeyFn(f))
    ensures SyncOf(AfterCollect(w, env, binary).agent.table, f).revision <= SyncOf(w.agent.table, f).revision + 1
  {
    CollectTrack(w, env, binary, f);
    CollectedSound(TrackOf(w, f), w.agent, env, binary, f);
  }

  lemma CollectedSound(t: R.Track, s: AgentState, env: CollectEnv, binary: Binary, f: Family)
    requires SoundDigests(binary.digests) && f in FamilyOrder
    requires t.memory == SyncOf(s.table, f) && t.disk == SyncOf(LoadedTable(s.syncFile), f)
    requires R.Sound(t, binary.digests.record, KeyFn(f)) && t.memory.revision < MaxUint64
    requires env.observation.Some? ==>
               DueFull(t.memory, CollectedAt(env))
               || Unmasked(t.memory.hashes, EntriesOf(f, InventoryOf(env)), binary.digests.record)
    ensures var c := CollectStep(s, env, binary);
            var body := if c.queued.Some? then Some(c.queued.value.file.body) else None;
            && R.Sound(SentWith(Advanced(t, SyncOf(c.state.table, f), EntriesOf(f, InventoryOf(env))), body, f)
                       .(disk := SyncOf(LoadedTable(c.state.syncFile), f)), binary.digests.record, KeyFn(f))
            && SyncOf(c.state.table, f).revision <= t.memory.revision + 1
  {
    var raw, s1 := CollectShape(s, env, binary);
    var c := CollectStep(s, env, binary);
    if raw.None? {
      assert SentWith(Advanced(t, t.memory, EntriesOf(f, InventoryOf(env))), None, f).(disk := t.disk) == t;
    } else {
      FinishShape(s1, raw.value, env, binary);
      FinishedSound(t, s1, raw.value, env, c, binary, f);
    }
  }

  lemma FinishedSound(t: R.Track, s: AgentState, raw: Heartbeat, env: CollectEnv, c: Collected, binary: Binary,
                      f: Family)
    requires SoundDigests(binary.digests) && f in FamilyOrder && env.compact.Some? && raw.state == None
    requires t.memory == SyncOf(s.table, f) && t.disk == SyncOf(LoadedTable(s.syncFile), f)
    requires R.Sound(t, binary.digests.record, KeyFn(f)) && t.memory.revision < MaxUint64
    requires DueFull(t.memory, raw.collectedAt)
             || Unmasked(t.memory.hashes, EntriesOf(f, raw.inventory), binary.digests.record)
    requires var k := BuildOf(s, raw, env.compact.value, binary);
             && c.state.table == k.table && (c.queued.Some? ==> k.ok && c.queued.value.file.body == k.heartbeat)
             && (LoadedTable(c.state.syncFile) == LoadedTable(s.syncFile) || LoadedTable(c.state.syncFile) == k.table)
    ensures var body := if c.queued.Some? then Some(c.queued.value.file.body) else None;
            && R.Sound(SentWith(Advanced(t, SyncOf(c.state.table, f), EntriesOf(f, raw.inventory)), body, f)
                       .(disk := SyncOf(LoadedTable(c.state.syncFile), f)), binary.digests.record, KeyFn(f))
            && SyncOf(c.state.table, f).revision <= t.memory.revision + 1
  {
    var body := if c.queued.Some? then Some(c.queued.value.file.body) else None;
    var result := SentWith(Advanced(t, SyncOf(c.state.table, f), EntriesOf(f, raw.inventory)), body, f);
    BuildThenEmit(t, raw, s.table, s.capabilitiesHash, env.compact.value, body, binary.digests, f);
    R.RewriteSound(result, result.memory, SyncOf(LoadedTable(c.state.syncFile), f), binary.digests.record, KeyFn(f));
  }

  /** A build followed by queueing what it produced, for one family. */
  lemma BuildThenEmit(t: R.Track, raw: Heartbeat, table: FamilyTable, capabilitiesHash: string, compact: bool,
                      body: Option<Heartbeat>, d: Digests, f: Family)
    requires SoundDigests(d) && f in FamilyOrder && t.memory == SyncOf(table, f) && t.memory.revision < MaxUint64
    requires R.Sound(t, d.record, KeyFn(f)) && raw.state == None
    requires DueFull(t.memory, raw.collectedAt) || Unmasked(t.memory.hashes, EntriesOf(f, raw.inventory), d.record)
    requires var k := if compact then CompactOf(raw, table, capabilitiesHash, d)
             else Compacted(true, raw, table, capabilitiesHash);
             body.Some? ==> k.ok && body.value == k.heartbeat
    ensures var k := if compact then CompactOf(raw, table, capabilitiesHash, d)
            else Compacted(true, raw, table, capabilitiesHash);
            && SyncOf(k.table, f).revision <= t.memory.revision + 1
            && R.Sound(SentWith(Advanced(t, SyncOf(k.table, f), EntriesOf(f, raw.inventory)), body, f), d.record,
                       KeyFn(f))
  {
    var entries := EntriesOf(f, raw.inventory);
    if compact {
      CompactSound(t, raw, table, capabilitiesHash, d, f);
      var built := Advanced(t, SyncOf(CompactOf(raw, table, capabilitiesHash, d).table, f), entries);
      if body.Some? && f in body.value.state.value {
        R.EmitSound(built, body.value.state.value[f], d.record, KeyFn(f));
      }
    } else {
      assert Advanced(t, t.memory, entries) == t;
    }
  }

  // ---------- Flush ----------

  /** A track whose memory and disk changed by reconcile requests and writes only. */
  lemma {:induction false} ReconciledFamily(table: FamilyTable, families: seq<Family>, f: Family)
    ensures SyncOf(Reconciled(table, families), f)
            == if f in families then SyncOf(table, f).(lastFullAt := None) else SyncOf(table, f)
  {
    if families != [] {
      var init := families[..|families| - 1];
      ReconciledFamily(table, init, f);
      assert families == init + [families[|families| - 1]];
    }
  }

  /** The track of `f` seen from an agent state; the rest of the world is fixed. */
  ghost function TrackAt(t: R.Track, s: AgentState, f: Family): R.Track {
    t.(memory := MemoryOf(s, f), disk := DiskOf(s, f))
  }

  ghost function MemoryOf(s: AgentState, f: Family): FamilySync {
    SyncOf(s.table, f)
  }

  ghost function DiskOf(s: AgentState, f: Family): FamilySync {
    SyncOf(LoadedTable(s.syncFile), f)
  }

  /** A family changed by at most a reconcile request and a write of the sync file. */
  ghost predicate Rewritten(memory: FamilySync, disk: FamilySync, memory': FamilySync, disk': FamilySync) {
    && (memory' == memory || memory' == memory.(lastFullAt := None))
    && (disk' == disk || disk' == memory')
  }

  lemma TurnShape(s: AgentState, entry: Buffer.Entry, x: Exchange, f: Family)
    ensures var s' := TurnStep(s, entry, x).state;
            Rewritten(MemoryOf(s, f), DiskOf(s, f), MemoryOf(s', f), DiskOf(s', f))
  {
    var s1, families := TurnCases(s, entry, x);
    ReconciledFamily(s.table, families, f);
  }

  lemma TurnSound(t: R.Track, s: AgentState, entry: Buffer.Entry, x: Exchange, d: Digests, f: Family)
    requires R.Sound(TrackAt(t, s, f), d.record, KeyFn(f))
    ensures var s' := TurnStep(s, entry, x).state;
            && R.Sound(TrackAt(t, s', f), d.record, KeyFn(f))
            && SyncOf(s'.table, f).revision == SyncOf(s.table, f).revision
  {
    TurnShape(s, entry, x, f);
    RewrittenSound(t, s, TurnStep(s, entry, x).state, d, f);
  }

  lemma RewrittenSound(t: R.Track, s: AgentState, s': AgentState, d: Digests, f: Family)
    requires R.Sound(TrackAt(t, s, f), d.record, KeyFn(f))
    requires Rewritten(MemoryOf(s, f), DiskOf(s, f), MemoryOf(s', f), DiskOf(s', f))
    ensures R.Sound(TrackAt(t, s', f), d.record, KeyFn(f))
    ensures SyncOf(s'.table, f).revision == SyncOf(s.table, f).revision
  {
    R.RewriteSound(TrackAt(t, s, f), MemoryOf(s', f), DiskOf(s', f), d.record, KeyFn(f));
  }

  lemma {:induction false} FlushSound(t: R.Track, s: AgentState, entries: seq<Buffer.Entry>, i: nat,
                                      exchanges: nat -> Exchange,
                                      d: Digests, f: Family)
    requires i <= |entries| && R.Sound(TrackAt(t, s, f), d.record, KeyFn(f))
    ensures var s' := FlushFrom(s, entries, i, exchanges).state;
            && R.Sound(TrackAt(t, s', f), d.record, KeyFn(f))
            && SyncOf(s'.table, f).revision == SyncOf(s.table, f).revision
    decreases |entries| - i
  {
    if i < |entries| {
      TurnSound(t, s, entries[i], exchanges(i), d, f);
      FlushSound(t, TurnStep(s, entries[i], exchanges(i)).state, entries, i + 1, exchanges, d, f);
    }
  }

  // ---------- Every event ----------

  lemma TickSound(w: World, env: TickEnv, binary: Binary, f: Family)
    requires SoundDigests(binary.digests) && f in FamilyOrder
    requires R.Sound(TrackOf(w, f), binary.digests.record, KeyFn(f)) && SyncOf(w.agent.table, f).revision < MaxUint64
    requires CleanInput(w, f, env.collect, binary.digests)
    ensures R.Sound(TrackOf(AfterTick(w, env, binary), f), binary.digests.record, KeyFn(f))
    ensures SyncOf(AfterTick(w, env, binary).agent.table, f).revision <= SyncOf(w.agent.table, f).revision + 1
  {
    CollectSound(w, env.collect, binary, f);
    var mid := AfterCollect(w, env.collect, binary);
    var t := TrackOf(mid, f);
    assert TrackAt(t, mid.agent, f) == t;
    FlushSound(t, mid.agent, mid.agent.queue.entries, 0, env.exchanges, binary.digests, f);
    assert CollectStep(w.agent, env.collect, binary).ok ==>
        TrackOf(AfterTick(w, env, binary), f) == TrackAt(t, FlushStep(mid.agent, env.exchanges).state, f);
  }

  lemma DeliverTrack(w: World, i: nat, g: Family, binary: Binary, f: Family)
    requires f in FamilyOrder
    ensures var t, t' := TrackOf(w, f), TrackOf(Step(w, DeliverEvent(i, g), binary), f);
            t' == t || exists m :: m in t.sent && t' == R.Deliver(t, m, KeyFn(f))
  {
    var t, t' := TrackOf(w, f), TrackOf(Step(w, DeliverEvent(i, g), binary), f);
    if t' != t {
      var m := w.sent[i].state.value[f];
      assert m in t.sent && t' == R.Deliver(t, m, KeyFn(f));
    }
  }

  lemma OtherWorlds(w: World, e: Event, binary: Binary)
    requires !e.TickEvent? && !e.DeliverEvent?
    ensures var w' := Step(w, e, binary);
            && w'.sent == w.sent && w'.log == w.log && w'.receivers == w.receivers
            && w'.agent.table == (if e.BootEvent? then LoadedTable(w.agent.syncFile) else w.agent.table)
            && w'.agent.syncFile == (if e.GarbleEvent? then Garbled else w.agent.syncFile)
            && w'.agent.capabilitiesHash
               == (if e.BootEvent? then LoadedHash(w.agent.syncFile) else w.agent.capabilitiesHash)
            && w'.agent.monitoring == w.agent.monitoring && w'.agent.dormant == w.agent.dormant
  {
    match e
    case ContractEvent(env) => ContractKeeps(w.agent, env);
    case _ =>
  }

  lemma ContractKeeps(s: AgentState, env: ContractEnv)
    ensures ContractStep(s, env).state == s.(queue := ContractStep(s, env).state.queue)
  {
  }

  lemma OtherTracks(w: World, e: Event, binary: Binary, f: Family)
    requires f in FamilyOrder && !e.TickEvent? && !e.DeliverEvent?
    ensures var t, t' := TrackOf(w, f), TrackOf(Step(w, e, binary), f);
            t' == if e.BootEvent? then R.Restart(t) else if e.GarbleEvent? then R.Garble(t) else t
  {
    OtherWorlds(w, e, binary);
  }

  lemma StepSound(w: World, e: Event, binary: Binary, f: Family)
    requires SoundDigests(binary.digests) && f in FamilyOrder
    requires R.Sound(TrackOf(w, f), binary.digests.record, KeyFn(f)) && SyncOf(w.agent.table, f).revision < MaxUint64
    requires Admitted(w, e, binary.digests)
    ensures R.Sound(TrackOf(Step(w, e, binary), f), binary.digests.record, KeyFn(f))
    ensures TrackOf(Step(w, e, binary), f).memory.revision <= TrackOf(w, f).memory.revision + 1
  {
    var hash, keyOf := binary.digests.record, KeyFn(f);
    var t := TrackOf(w, f);
    match e
    case TickEvent(env) => if w.mode == Running { TickSound(w, env, binary, f); }
    case DeliverEvent(i, g) =>
      DeliverTrack(w, i, g, binary, f);
      forall m | m in t.sent ensures R.Sound(R.Deliver(t, m, keyOf), hash, keyOf) { R.DeliverSound(t, m, hash, keyOf); }
    case _ =>
      OtherTracks(w, e, binary, f);
      R.RestartSound(t, hash, keyOf);
      R.PersistSound(t, hash, keyOf);
  }

  /** The invariant holds after every admitted run shorter than the revision range. */
  lemma {:induction false} RunSound(events: seq<Event>, binary: Binary)
    requires SoundDigests(binary.digests) && AdmittedRun(events, binary) && |events| <= MaxUint64
    ensures Sound(After(events, binary), binary.digests, |events|)
  {
    if events == [] {
      forall f | f in FamilyOrder ensures R.Sound(TrackOf(NewDevice, f), binary.digests.record, KeyFn(f)) {
        assert TrackOf(NewDevice, f) == R.Fresh;
        R.FreshSound(binary.digests.record, KeyFn(f));
      }
    } else {
      var init := events[..|events| - 1];
      RunSound(init, binary);
      forall f | f in FamilyOrder
        ensures R.Sound(TrackOf(After(events, binary), f), binary.digests.record, KeyFn(f))
        ensures SyncOf(After(events, binary).agent.table, f).revision <= |events|
      {
        StepSound(After(init, binary), events[|events| - 1], binary, f);
      }
    }
  }

  /** The main result. After any admitted run, for every family, the receiver holds
      exactly the keyed values the agent recorded at the receiver's revision; and when
      it is at the agent's current revision these are the current values, so an
      omitted family hides no change from it. */
  lemma {:induction false} DeltaReplay(events: seq<Event>, binary: Binary, f: Family)
    requires SoundDigests(binary.digests) && AdmittedRun(events, binary) && |events| <= MaxUint64 && f in FamilyOrder
    ensures var w := After(events, binary);
            var r := ReceiverOf(w, f);
            && r.revision in LogOf(w, f) && r.view == LogOf(w, f)[r.revision]
            && (r.revision == SyncOf(w.agent.table, f).revision ==>
                  HashableView(r.view, binary.digests.record)
                  && HashesOf(r.view, binary.digests.record) == SyncOf(w.agent.table, f).hashes)
  {
    RunSound(events, binary);
    R.ReceiverHonest(TrackOf(After(events, binary), f), binary.digests.record, KeyFn(f));
  }
}
