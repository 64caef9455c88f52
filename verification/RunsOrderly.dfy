/**
 When a run is admitted: an agent that dies never between queueing a heartbeat and
 recording it, and whose sync file stays readable, always restarts on a sync file
 that covers everything it queued.
 */
module RunsOrderly {
  import opened Prelude
  import opened Protocol
  import opened Delta
  import opened Compact
  import opened AgentModel
  import opened Runs
  import opened RunsReplay
  import Buffer
  import R = Replay
  import P = RunsPolicy

  /** A compact heartbeat that was queued is recorded in the sync file. */
  ghost predicate Recorded(c: Collected) {
    c.queued.Some? && c.queued.value.file.body.state.Some? ==>
      c.state.syncFile.Stored? && c.state.syncFile.table == c.state.table
  }

  /** Everything may fail except the step between queueing and recording; the sync file
      stays readable, and no input hides a change behind a duplicate key. */
  ghost predicate Orderly(w: World, e: Event, binary: Binary) {
    match e
    case TickEvent(env) =>
      && Recorded(CollectStep(w.agent, env.collect, binary))
      && forall f :: f in FamilyOrder ==> CleanInput(w, f, env.collect, binary.digests)
    case GarbleEvent => false
    case _ => true
  }

  ghost predicate OrderlyRun(events: seq<Event>, binary: Binary) {
    events == []
    || (OrderlyRun(events[..|events| - 1], binary)
        && Orderly(After(events[..|events| - 1], binary), events[|events| - 1], binary))
  }

  /** A Collect whose heartbeat was recorded leaves nothing ahead of the sync file. */
  lemma CollectRevisions(s: AgentState, env: CollectEnv, binary: Binary, f: Family)
    requires SoundDigests(binary.digests) && f in FamilyOrder && MemoryOf(s, f).revision < MaxUint64
    requires DiskOf(s, f).revision <= MemoryOf(s, f).revision
    requires Recorded(CollectStep(s, env, binary))
    ensures var c := CollectStep(s, env, binary);
            && DiskOf(s, f).revision <= DiskOf(c.state, f).revision
            && (c.queued.Some? && c.queued.value.file.body.state.Some? && f in c.queued.value.file.body.state.value ==>
                  c.queued.value.file.body.state.value[f].revision <= DiskOf(c.state, f).revision)
  {
    P.CollectMoves(s, env, binary, f);
    var entries := EntriesOf(f, InventoryOf(env));
    DeltaAdvances(MemoryOf(s, f), entries, CollectedAt(env), binary.digests.record);
    RecordedRevisions(s, CollectStep(s, env, binary), f,
                      DeltaOf(MemoryOf(s, f), entries, CollectedAt(env), binary.digests.record));
  }

  /** The same of any two states that a delta relates. */
  lemma RecordedRevisions(s: AgentState, c: Collected, f: Family, delta: DeltaResult)
    requires DiskOf(s, f).revision <= MemoryOf(s, f).revision && Recorded(c)
    requires MemoryOf(c.state, f) == MemoryOf(s, f) || (delta.ok && MemoryOf(c.state, f) == delta.next)
    requires DiskOf(c.state, f) == DiskOf(s, f) || DiskOf(c.state, f) == MemoryOf(c.state, f)
    requires delta.ok ==>
               && delta.next.revision >= MemoryOf(s, f).revision
               && (delta.family.Some? ==> delta.family.value.revision <= delta.next.revision)
    requires c.queued.Some? && c.queued.value.file.body.state.Some? ==>
               var state := c.queued.value.file.body.state.value;
               && delta.ok && MemoryOf(c.state, f) == delta.next
               && (f in state ==> delta.family == Some(state[f]))
    ensures DiskOf(s, f).revision <= DiskOf(c.state, f).revision
    ensures c.queued.Some? && c.queued.value.file.body.state.Some? && f in c.queued.value.file.body.state.value ==>
              c.queued.value.file.body.state.value[f].revision <= DiskOf(c.state, f).revision
  {
  }

  lemma DeltaAdvances(previous: FamilySync, entries: seq<Keyed>, now: int, hash: RecordHash)
    requires Collisionless(hash) && previous.revision < MaxUint64
    ensures var d := DeltaOf(previous, entries, now, hash);
            d.ok ==>
              && d.next.revision >= previous.revision
              && (d.family.Some? ==> d.family.value.revision <= d.next.revision)
  {
    if DeltaOf(previous, entries, now, hash).ok {
      DeltaRecords(previous, entries, now, hash);
    }
  }

  lemma CoveredTrack(t: R.Track, after: FamilySync, entries: seq<Keyed>, body: Option<Heartbeat>, disk: FamilySync,
                     f: Family)
    requires R.NoRollback(t) && t.disk.revision <= disk.revision
    requires body.Some? && body.value.state.Some? && f in body.value.state.value ==>
             body.value.state.value[f].revision <= disk.revision
    ensures R.NoRollback(SentWith(Advanced(t, after, entries), body, f).(disk := disk))
  {
  }

  lemma CollectCovered(w: World, env: CollectEnv, binary: Binary, f: Family)
    requires SoundDigests(binary.digests) && f in FamilyOrder && R.NoRollback(TrackOf(w, f))
    requires MemoryOf(w.agent, f).revision < MaxUint64
    requires DiskOf(w.agent, f).revision <= MemoryOf(w.agent, f).revision
    requires Recorded(CollectStep(w.agent, env, binary))
    ensures R.NoRollback(TrackOf(AfterCollect(w, env, binary), f))
  {
    CollectTrack(w, env, binary, f);
    CollectRevisions(w.agent, env, binary, f);
    var c := CollectStep(w.agent, env, binary);
    CoveredTrack(TrackOf(w, f), SyncOf(c.state.table, f), EntriesOf(f, InventoryOf(env)),
                 if c.queued.Some? then Some(c.queued.value.file.body) else None, DiskOf(c.state, f), f);
  }

  lemma {:induction false} FlushCovered(s: AgentState, entries: seq<Buffer.Entry>, i: nat, exchanges: nat -> Exchange,
                                        f: Family)
    requires i <= |entries| && DiskOf(s, f).revision <= MemoryOf(s, f).revision
    ensures DiskOf(FlushFrom(s, entries, i, exchanges).state, f).revision >= DiskOf(s, f).revision
    decreases |entries| - i
  {
    if i < |entries| {
      TurnShape(s, entries[i], exchanges(i), f);
      FlushCovered(TurnStep(s, entries[i], exchanges(i)).state, entries, i + 1, exchanges, f);
    }
  }

  lemma TickCovered(w: World, env: TickEnv, binary: Binary, f: Family)
    requires SoundDigests(binary.digests) && f in FamilyOrder && R.NoRollback(TrackOf(w, f))
    requires R.Sound(TrackOf(w, f), binary.digests.record, KeyFn(f)) && SyncOf(w.agent.table, f).revision < MaxUint64
    requires Recorded(CollectStep(w.agent, env.collect, binary)) && CleanInput(w, f, env.collect, binary.digests)
    ensures R.NoRollback(TrackOf(AfterTick(w, env, binary), f))
  {
    CollectCovered(w, env.collect, binary, f);
    CollectSound(w, env.collect, binary, f);
    var mid := AfterCollect(w, env.collect, binary);
    assert TrackOf(mid, f).disk == DiskOf(mid.agent, f);
    FlushCovered(mid.agent, mid.agent.queue.entries, 0, env.exchanges, f);
  }

  lemma StepCovered(w: World, e: Event, binary: Binary, f: Family)
    requires SoundDigests(binary.digests) && f in FamilyOrder && R.NoRollback(TrackOf(w, f)) && Orderly(w, e, binary)
    requires R.Sound(TrackOf(w, f), binary.digests.record, KeyFn(f)) && SyncOf(w.agent.table, f).revision < MaxUint64
    ensures R.NoRollback(TrackOf(Step(w, e, binary), f))
  {
    match e
    case TickEvent(env) =>
      if w.mode == Running { TickCovered(w, env, binary, f); }
    case DeliverEvent(i, g) => DeliverTrack(w, i, g, binary, f);
    case _ => OtherTracks(w, e, binary, f);
  }

  /** Every orderly run is admitted, so that the receiver is never misled in it. */
  lemma {:induction false} OrderlyAdmitted(events: seq<Event>, binary: Binary)
    requires SoundDigests(binary.digests) && OrderlyRun(events, binary) && |events| <= MaxUint64
    ensures AdmittedRun(events, binary)
    ensures forall f :: f in FamilyOrder ==> R.NoRollback(TrackOf(After(events, binary), f))
  {
    if events == [] {
      forall f | f in FamilyOrder ensures R.NoRollback(TrackOf(After(events, binary), f)) {
        assert TrackOf(NewDevice, f) == R.Fresh;
      }
    } else {
      var init, e := events[..|events| - 1], events[|events| - 1];
      OrderlyAdmitted(init, binary);
      RunSound(init, binary);
      forall f | f in FamilyOrder ensures R.NoRollback(TrackOf(After(events, binary), f)) {
        StepCovered(After(init, binary), e, binary, f);
      }
    }
  }

  // ---------- Success recovers ----------

  /** A successful compact Collect queued a compact heartbeat, and memory, sync file and
      heartbeat agree on the capability digest and the families. */
  lemma SuccessRecords(s: AgentState, env: CollectEnv, binary: Binary)
    requires env.compact == Some(true) && CollectStep(s, env, binary).ok
    ensures var c := CollectStep(s, env, binary);
            && c.built && c.queued.Some? && c.queued.value.file.body.state.Some?
            && c.state.syncFile == Stored(c.queued.value.file.body.capabilitiesHash, c.state.table)
            && c.state.capabilitiesHash == c.queued.value.file.body.capabilitiesHash
  {
    var raw, s1 := CollectShape(s, env, binary);
    FinishRecords(s1, raw.value, env, binary);
  }

  lemma FinishRecords(s: AgentState, raw: Heartbeat, env: CollectEnv, binary: Binary)
    requires env.compact == Some(true) && Finish(s, raw, env, binary).ok
    ensures var c := Finish(s, raw, env, binary);
            && c.built && c.queued.Some? && c.queued.value.file.body.state.Some?
            && c.state.syncFile == Stored(c.queued.value.file.body.capabilitiesHash, c.state.table)
            && c.state.capabilitiesHash == c.queued.value.file.body.capabilitiesHash
  {
    var k, r, entry, added := FinishCases(s, raw, env, binary);
    assert k.heartbeat.state.Some? && k.heartbeat.capabilitiesHash == k.capabilitiesHash;
  }

  /** Whatever was left unrecorded before, after a successful compact Collect the sync
      file covers every queued family again, so that a restart is safe. */
  lemma SuccessCovers(w: World, env: CollectEnv, binary: Binary, f: Family)
    requires SoundDigests(binary.digests) && f in FamilyOrder
    requires R.Sound(TrackOf(w, f), binary.digests.record, KeyFn(f)) && SyncOf(w.agent.table, f).revision < MaxUint64
    requires CleanInput(w, f, env, binary.digests)
    requires env.compact == Some(true) && CollectStep(w.agent, env, binary).ok
    ensures R.NoRollback(TrackOf(AfterCollect(w, env, binary), f))
    ensures R.Sound(R.Restart(TrackOf(AfterCollect(w, env, binary), f)), binary.digests.record, KeyFn(f))
  {
    SuccessRecords(w.agent, env, binary);
    CollectSound(w, env, binary, f);
    var t := TrackOf(AfterCollect(w, env, binary), f);
    assert t.disk == t.memory;
    R.RestartSound(t, binary.digests.record, KeyFn(f));
  }

  // ---------- What the receiver knows ----------

  /** What a receiver at the agent's revision knows: right after a build in an admitted
      run, it holds exactly the keyed values just collected, whether the heartbeat
      carried the family or left it out. */
  lemma CurrentTruth(events: seq<Event>, env: CollectEnv, binary: Binary, f: Family)
    requires SoundDigests(binary.digests) && AdmittedRun(events, binary) && |events| < MaxUint64 && f in FamilyOrder
    requires CleanInput(After(events, binary), f, env, binary.digests)
    requires CollectStep(After(events, binary).agent, env, binary).built
    ensures var w := AfterCollect(After(events, binary), env, binary);
            var r := ReceiverOf(w, f);
            && SyncOf(w.agent.table, f).revision in LogOf(w, f)
            && LogOf(w, f)[SyncOf(w.agent.table, f).revision] == View(EntriesOf(f, InventoryOf(env)))
            && (r.revision == SyncOf(w.agent.table, f).revision ==> r.view == View(EntriesOf(f, InventoryOf(env))))
  {
    var before := After(events, binary);
    var entries, d := EntriesOf(f, InventoryOf(env)), binary.digests;
    var t := TrackOf(before, f);
    RunSound(events, binary);
    P.CollectMoves(before.agent, env, binary, f);
    CollectSound(before, env, binary, f);
    CollectTrack(before, env, binary, f);
    DeltaRecords(t.memory, entries, CollectedAt(env), d.record);
    R.BuildCurrent(t, entries, CollectedAt(env), d.record, KeyFn(f));
    R.ReceiverHonest(TrackOf(AfterCollect(before, env, binary), f), d.record, KeyFn(f));
  }
}
