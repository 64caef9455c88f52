/**
 What becomes of one Collect, in terms of how each call inside it ends: when it
 builds, when it queues, and what that means for a family the server asked for.
 */
module RunsFate {
  import opened Prelude
  import opened Protocol
  import opened Delta
  import opened Compact
  import opened AgentModel
  import opened Runs
  import opened RunsReplay
  import opened RunsPolicy
  import Identity
  import Buffer
  import D = RunsDelivery

  /** The Collect gets as far as building a compact heartbeat. */
  predicate Builds(s: AgentState, env: CollectEnv) {
    && env.observation.Some? && Identity.Reserve(s.device, env.reserve).sequence.Some?
    && env.droppedReadable && env.monitoring.Some? && env.compact == Some(true)
  }

  /** Every record of the first `i` families can be encoded. */
  ghost predicate Encodable(env: CollectEnv, d: Digests, i: nat) {
    forall j :: 0 <= j < i && j < |FamilyOrder| ==> Hashable(EntriesOf(FamilyOrder[j], InventoryOf(env)), d.record)
  }

  ghost function DeltaFor(s: AgentState, env: CollectEnv, d: Digests, f: Family): DeltaResult {
    DeltaOf(MemoryOf(s, f), EntriesOf(f, InventoryOf(env)), CollectedAt(env), d.record)
  }

  /** No family to be sent breaks a limit of validation. */
  ghost predicate ListsFit(s: AgentState, env: CollectEnv, d: Digests) {
    forall f :: f in FamilyOrder && DeltaFor(s, env, d, f).family.Some? ==>
      var family := DeltaFor(s, env, d, f).family.value;
      family.revision != 0 && |family.changed| <= 512 && |family.removed| <= 512
  }

  /** The encoded heartbeat is within the contract, and the queue writes it. */
  predicate Accommodated(s: AgentState, env: CollectEnv) {
    && env.encoding.Some? && env.encoding.value.decompressed <= env.limits.decompressed
    && env.encoding.value.compressed <= env.limits.compressed
    && 0 < env.encoding.value.compressed <= s.queue.limits.bytes
    && !env.queue.stat && !env.queue.write
    && Identity.Reserve(s.device, env.reserve).sequence.Some?
    && !Buffer.HasSequence(s.queue.entries, Identity.Reserve(s.device, env.reserve).sequence.value)
  }

  /** A compact heartbeat is built, valid, within limits and written to the queue. */
  ghost predicate Queues(s: AgentState, env: CollectEnv, binary: Binary) {
    && Builds(s, env) && Encodable(env, binary.digests, |FamilyOrder|) && ListsFit(s, env, binary.digests)
    && env.otherClauses && Accommodated(s, env)
  }

  ghost function BuiltBy(s: AgentState, env: CollectEnv, binary: Binary): Compacted
    requires Builds(s, env)
  {
    CompactOf(RawHeartbeat(s, env, binary, Identity.Reserve(s.device, env.reserve).sequence.value),
              s.table, s.capabilitiesHash, binary.digests)
  }

  /** What a build of a Collect comes to. */
  lemma BuildFate(s: AgentState, env: CollectEnv, binary: Binary, i: nat)
    requires Builds(s, env) && i < |FamilyOrder|
    ensures var k, f := BuiltBy(s, env, binary), FamilyOrder[i];
            && (k.ok <==> Encodable(env, binary.digests, |FamilyOrder|))
            && SyncOf(k.table, f) == if Encodable(env, binary.digests, i + 1)
               then DeltaFor(s, env, binary.digests, f).next
                                     else MemoryOf(s, f)
  {
    var step := StepFor(InventoryOf(env), CollectedAt(env), binary.digests.record);
    BuildReaches(FamilyOrder, s.table, step, i);
    StepsEncode(s.table, env, binary.digests, i + 1);
    StepsEncode(s.table, env, binary.digests, |FamilyOrder|);
    assert step(FamilyOrder[i], MemoryOf(s, FamilyOrder[i])) == DeltaFor(s, env, binary.digests, FamilyOrder[i]);
  }

  lemma StepsEncode(table: FamilyTable, env: CollectEnv, d: Digests, i: nat)
    ensures StepsWork(FamilyOrder, table, StepFor(InventoryOf(env), CollectedAt(env), d.record), i)
            <==> Encodable(env, d, i)
  {
    var step := StepFor(InventoryOf(env), CollectedAt(env), d.record);
    forall j | 0 <= j < |FamilyOrder|
      ensures step(FamilyOrder[j], SyncOf(table, FamilyOrder[j])).ok
              <==> Hashable(EntriesOf(FamilyOrder[j], InventoryOf(env)), d.record)
    {
    }
  }

  /** The families of a complete build are its deltas, so that its lists fit when they do. */
  lemma StateFits(s: AgentState, env: CollectEnv, binary: Binary)
    requires Builds(s, env) && BuiltBy(s, env, binary).ok
    ensures StateClause(BuiltBy(s, env, binary).heartbeat) <==> ListsFit(s, env, binary.digests)
  {
    var raw := RawHeartbeat(s, env, binary, Identity.Reserve(s.device, env.reserve).sequence.value);
    var state := BuiltBy(s, env, binary).heartbeat.state.value;
    forall f | f in FamilyOrder
      ensures f in state <==> DeltaFor(s, env, binary.digests, f).family.Some?
      ensures f in state ==> state[f] == DeltaFor(s, env, binary.digests, f).family.value
    {
      CompactMoves(raw, s.table, s.capabilitiesHash, binary.digests, f);
    }
    forall f | f in state ensures f in FamilyOrder {
      OnlyOrdered(FamilyOrder, s.table, StepFor(InventoryOf(env), CollectedAt(env), binary.digests.record), f);
    }
  }

  lemma {:induction false} OnlyOrdered(order: seq<Family>, table: FamilyTable, step: FamilyStep, f: Family)
    requires f in BuildFamilies(order, table, step).state
    ensures f in order
  {
    if order != [] && f != order[|order| - 1] {
      OnlyOrdered(order[..|order| - 1], table, step, f);
    }
  }

  /** Capabilities and sequence never stand in the way of validation. */
  lemma BuiltValid(s: AgentState, env: CollectEnv, binary: Binary)
    requires SoundDigests(binary.digests) && Builds(s, env) && BuiltBy(s, env, binary).ok
    ensures ValidHeartbeat(BuiltBy(s, env, binary).heartbeat, env.otherClauses)
            <==> ListsFit(s, env, binary.digests) && env.otherClauses
  {
    StateFits(s, env, binary);
    var raw := RawHeartbeat(s, env, binary, Identity.Reserve(s.device, env.reserve).sequence.value);
    ElisionValid(raw, s.table, s.capabilitiesHash, binary.digests);
    assert BuiltBy(s, env, binary).heartbeat.sequence == raw.sequence;
  }

  /** A compact Collect queues its heartbeat exactly when none of these refuses it. */
  lemma QueuedExact(s: AgentState, env: CollectEnv, binary: Binary)
    requires SoundDigests(binary.digests) && env.compact == Some(true)
    ensures CollectStep(s, env, binary).queued.Some? <==> Queues(s, env, binary)
    ensures Queues(s, env, binary) ==>
              && CollectStep(s, env, binary).queued
              == Some(EntryFor(BuiltBy(s, env, binary).heartbeat, env.encoding.value))
              && BuiltBy(s, env, binary).ok
  {
    if Builds(s, env) {
      var reserved := Identity.Reserve(s.device, env.reserve);
      var raw := RawHeartbeat(s, env, binary, reserved.sequence.value);
      var k := BuiltBy(s, env, binary);
      BuildFate(s, env, binary, 0);
      var s1 := s.(device := reserved.device);
      var built, r, entry, added := FinishCases(s1, raw, env, binary);
      assert built == k && CollectStep(s, env, binary) == r;
      if k.ok {
        BuiltValid(s, env, binary);
        assert k.heartbeat.sequence == reserved.sequence.value;
      }
    } else {
      NotBuilt(s, env, binary);
    }
  }

  lemma NotBuilt(s: AgentState, env: CollectEnv, binary: Binary)
    requires env.compact == Some(true) && !Builds(s, env)
    ensures CollectStep(s, env, binary).queued.None?
  {
  }

  /** Where the contract does not support compact heartbeats, a Collect queues the raw one
      exactly when none of these refuses it. */
  lemma PlainQueuedExact(s: AgentState, env: CollectEnv, binary: Binary)
    requires env.compact == Some(false)
    ensures CollectStep(s, env, binary).queued.Some?
            <==> && env.observation.Some? && Identity.Reserve(s.device, env.reserve).sequence.Some?
                 && env.droppedReadable && env.monitoring.Some? && env.otherClauses && Accommodated(s, env)
  {
    var reserved := Identity.Reserve(s.device, env.reserve);
    if env.observation.Some? && reserved.sequence.Some? && env.droppedReadable && env.monitoring.Some? {
      var raw := RawHeartbeat(s, env, binary, reserved.sequence.value);
      var s1 := s.(device := reserved.device);
      var k, r, entry, added := FinishCases(s1, raw, env, binary);
      assert k.heartbeat == raw && CollectStep(s, env, binary) == r;
      assert ValidHeartbeat(raw, env.otherClauses) <==> env.otherClauses;
    }
  }

  /** A Collect succeeds exactly when its heartbeat was queued, the queue could enforce its
      limits, and a compact one was recorded; a sequence is reserved exactly after an
      observation. */
  lemma CollectEnds(s: AgentState, env: CollectEnv, binary: Binary)
    ensures var c := CollectStep(s, env, binary);
            && (c.ok <==> && c.queued.Some? && Buffer.AddTo(s.queue, c.queued.value, env.queue).ok
                          && (env.compact == Some(true) ==> env.sync == Written))
            && c.state.device
            == (if env.observation.None? then s.device else Identity.Reserve(s.device, env.reserve).device)
            && c.state.queue
            == (if c.queued.None? then s.queue else Buffer.AddTo(s.queue, c.queued.value, env.queue).state)
  {
    var reserved := Identity.Reserve(s.device, env.reserve);
    if env.observation.Some? && reserved.sequence.Some? && env.droppedReadable && env.monitoring.Some?
      && env.compact.Some? {
      var raw := RawHeartbeat(s, env, binary, reserved.sequence.value);
      var k, r, entry, added := FinishCases(s.(device := reserved.device), raw, env, binary);
      assert CollectStep(s, env, binary) == r;
    }
  }

  // ---------- What a queued heartbeat says ----------

  /** Every capability that was observed or that the binary adds is reported once; the
      binary has the last word, except on the policy capability, which is always there. */
  lemma MergedExact(observed: Capabilities, binary: Binary, name: string)
    ensures var merged := Merged(observed, binary);
            && (name in merged <==> name == PolicyCapability || name in binary.capabilities || name in observed)
            && (name == PolicyCapability ==> merged[name].state == Available)
            && (name != PolicyCapability && name in binary.capabilities ==> merged[name] == binary.capabilities[name])
            && (name != PolicyCapability && name !in binary.capabilities && name in observed ==>
                merged[name] == observed[name])
  {
  }

  /** What a queued heartbeat says: the reserved sequence, when it was collected, the
      counter that was read, the revision of the policy in force where the contract supports
      policies, and the merged capabilities or their digest; the items themselves where the
      contract does not support compact heartbeats, families otherwise. */
  lemma QueuedBody(s: AgentState, env: CollectEnv, binary: Binary)
    requires CollectStep(s, env, binary).queued.Some?
    ensures env.observation.Some? && env.monitoring.Some? && env.compact.Some? && env.encoding.Some?
    ensures var entry := CollectStep(s, env, binary).queued.value;
            var hb, merged := entry.file.body, Merged(env.observation.value.capabilities, binary);
            && Identity.Reserve(s.device, env.reserve).sequence == Some(entry.sequence) && hb.sequence == entry.sequence
            && hb.collectedAt == CollectedAt(env) && hb.droppedSamples == s.queue.dropped
            && hb.monitoringRevision == (if env.monitoring == Some(true) then s.monitoring.revision else 0)
            && entry.file.size == env.encoding.value.compressed
            && entry.file.decompressed == env.encoding.value.decompressed
            && if env.compact == Some(true) then
                 && hb.state.Some? && hb.inventory == NoInventory
                 && hb.capabilitiesHash == binary.digests.capabilities(merged)
                 && hb.capabilities == (if hb.capabilitiesHash == s.capabilitiesHash then map[] else merged)
               else
                 hb.state.None? && hb.inventory == InventoryOf(env) && hb.capabilitiesHash == ""
                 && hb.capabilities == merged
  {
    var reserved := Identity.Reserve(s.device, env.reserve);
    if env.observation.Some? && reserved.sequence.Some? && env.droppedReadable && env.monitoring.Some?
      && env.compact.Some? {
      var raw := RawHeartbeat(s, env, binary, reserved.sequence.value);
      var k, r, entry, added := FinishCases(s.(device := reserved.device), raw, env, binary);
      assert CollectStep(s, env, binary) == r;
    }
  }

  /** A tick attempts a delivery if and only if its Collect succeeded. */
  lemma TickAttempts(w: World, env: TickEnv, binary: Binary)
    requires D.Delivered(w) && w.mode == Running
    ensures Step(w, TickEvent(env), binary).agent.attempts > w.agent.attempts
            <==> CollectStep(w.agent, env.collect, binary).ok
  {
    var c := CollectStep(w.agent, env.collect, binary);
    CollectKeeps(w.agent, env.collect, binary);
    D.CollectDelivered(w, env.collect, binary);
    if c.ok {
      FlushAttempts(c.state, env.exchanges);
    }
  }

  lemma FlushAttempts(s: AgentState, exchanges: nat -> Exchange)
    requires s.queue.entries != []
    ensures FlushStep(s, exchanges).state.attempts > s.attempts
  {
    var entries := s.queue.entries;
    assert entries[0..] == entries && entries[0..][1..] == entries[1..];
    D.TurnQueue(s, entries[0], exchanges(0));
    var t := TurnStep(s, entries[0], exchanges(0));
    if t.outcome == Continue {
      D.FlushSuffix(t.state, entries, 1, exchanges);
    }
  }

  /** Memory of the `i`th family moves on exactly when the build gets past it. */
  lemma MemoryFate(s: AgentState, env: CollectEnv, binary: Binary, i: nat)
    requires i < |FamilyOrder|
    ensures MemoryOf(CollectStep(s, env, binary).state, FamilyOrder[i])
            == if Builds(s, env)
            && Encodable(env, binary.digests, i + 1) then DeltaFor(s, env, binary.digests, FamilyOrder[i]).next
               else MemoryOf(s, FamilyOrder[i])
  {
    if Builds(s, env) {
      BuildFate(s, env, binary, i);
      var s1 := s.(device := Identity.Reserve(s.device, env.reserve).device);
      FinishShape(s1, RawHeartbeat(s, env, binary, Identity.Reserve(s.device, env.reserve).sequence.value), env,
                  binary);
    } else {
      var raw, s1 := CollectShape(s, env, binary);
      if raw.Some? {
        FinishShape(s1, raw.value, env, binary);
      }
    }
  }

  /** The queued heartbeat carries the family in full, with every keyed value. */
  ghost predicate CarriesFull(c: Collected, env: CollectEnv, f: Family) {
    && c.queued.Some? && c.queued.value.file.body.state.Some? && f in c.queued.value.file.body.state.value
    && c.queued.value.file.body.state.value[f].full
    && c.queued.value.file.body.state.value[f].changed == Values(EntriesOf(f, InventoryOf(env)))
  }

  /** A request is kept or met if and only if the build does not get past its family or
      the heartbeat is queued. Otherwise the request is used up with nothing sent: the
      family is not due again for six hours. */
  lemma RequestFate(s: AgentState, env: CollectEnv, binary: Binary, i: nat, later: int)
    requires SoundDigests(binary.digests) && i < |FamilyOrder| && Owed(s, FamilyOrder[i])
    requires MemoryOf(s, FamilyOrder[i]).revision < MaxUint64
    ensures var c, f := CollectStep(s, env, binary), FamilyOrder[i];
            && (Owed(c.state, f) || CarriesFull(c, env, f)
                <==> !(Builds(s, env) && Encodable(env, binary.digests, i + 1)) || Queues(s, env, binary))
            && (!Owed(c.state, f) && later - CollectedAt(env) < FullReconciliationInterval ==>
                  !DueFull(MemoryOf(c.state, f), later))
  {
    var f := FamilyOrder[i];
    MemoryFate(s, env, binary, i);
    CollectMoves(s, env, binary, f);
    if env.compact == Some(true) {
      QueuedExact(s, env, binary);
    }
    if Builds(s, env) && Encodable(env, binary.digests, i + 1) {
      DueIsFull(MemoryOf(s, f), EntriesOf(f, InventoryOf(env)), CollectedAt(env), binary.digests.record);
    }
  }
}
