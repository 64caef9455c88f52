/**
 Two runs of a device that show why the conditions of the main results are needed:
 a restart that misleads a receiver, and a drop report too long to be read back.
 */
module RunsExamples {
  import opened Prelude
  import opened Strings
  import opened Protocol
  import opened Delta
  import opened Compact
  import opened AgentModel
  import opened Runs
  import opened RunsReplay
  import opened RunsFate
  import Sensors
  import Identity
  import Buffer
  import P = RunsPolicy
  import D = RunsDelivery

  const NoFaults := Buffer.Faults(false, false, false, None, false, false)

  /** Four mebibytes of text are the most a contract allows. */
  const ContractLimits := Encoding(1048576, 4194304)

  /** A Collect in which nothing fails but, perhaps, the writing of the sync file. */
  function Calm(inventory: Inventory, compact: bool, decompressed: nat, sync: WriteOutcome): CollectEnv {
    CollectEnv(Some(Observation(Some(0), map[], inventory)), 0, Written, true, Some(false), Some(compact), true,
               Some(Encoding(1, decompressed)), ContractLimits, NoFaults, sync)
  }

  function Silence(): nat -> Exchange {
    i => Exchange(Unreachable, false, false, Written, false, false)
  }

  /** A device that activates and gets its contract. */
  function Started(limits: Buffer.Limits): seq<Event> {
    [BootEvent(Written), ActivateEvent(1, Written), ContractEvent(ContractEnv(false, Some(limits), NoFaults))]
  }

  lemma FromNext(w: World, events: seq<Event>, e: Event, binary: Binary)
    ensures From(w, events + [e], binary) == Step(From(w, events, binary), e, binary)
  {
    assert (events + [e])[..|events|] == events;
  }

  // ---------- A restart that misleads ----------

  function DiskInventory(x: StorageInfo): Inventory {
    NoInventory.(storage := [x])
  }

  /** Only the storage family has an entry. */
  lemma OneDisk(x: StorageInfo, f: Family)
    requires f in FamilyOrder
    ensures EntriesOf(f, DiskInventory(x)) == if f == StorageHealth then [Keyed(x.deviceId, Storage(x))] else []
  {
    if f == Family.Sensors {
      NoSensors();
    }
  }

  lemma NoSensors()
    ensures Sensors.CompactedSensors([]) == []
  {
    assert Lists(SortedKeys({}), {}) && SortedKeys({}) == [];
  }

  /** A family is first sent in full. */
  lemma FirstDelta(entries: seq<Keyed>, now: int, hash: RecordHash)
    requires Hashable(entries, hash)
    ensures DeltaOf(NoFamily, entries, now, hash)
            == DeltaResult(true, Some(StateFamily(1, true, Values(entries), [])),
                           FamilySync(1, NextHashes(entries, hash), Some(now)))
  {
    assert NoFamily.hashes.Keys - NextHashes(entries, hash).Keys == {};
    assert Lists(SortedKeys({}), {}) && SortedKeys({}) == [];
  }

  predicate Activated(s: AgentState) {
    s.device.memory.Some? && s.device.memory.value.deviceId != 0 && s.device.memory.value.sequence < MaxUint64
  }

  /** The first Collect of a process without a sync file queues the disk in full. */
  lemma FirstCollect(s: AgentState, x: StorageInfo, sync: WriteOutcome, binary: Binary)
    requires SoundDigests(binary.digests) && binary.digests.record(Storage(x)).Some?
    requires s.table == map[] && Activated(s) && Buffer.ValidQueue(s.queue)
    requires forall i :: 0 <= i < |s.queue.entries| ==> s.queue.entries[i].sequence <= s.device.memory.value.sequence
    ensures var c := CollectStep(s, Calm(DiskInventory(x), true, 1, sync), binary);
            && MemoryOf(c.state, StorageHealth)
               == FamilySync(1, map[x.deviceId := binary.digests.record(Storage(x)).value], Some(0))
            && c.queued.Some? && c.queued.value.file.body.state.Some?
            && StorageHealth in c.queued.value.file.body.state.value
            && c.queued.value.file.body.state.value[StorageHealth] == StateFamily(1, true, [Storage(x)], [])
  {
    var env, d := Calm(DiskInventory(x), true, 1, sync), binary.digests;
    forall f | f in FamilyOrder
      ensures Hashable(EntriesOf(f, InventoryOf(env)), d.record)
      ensures DeltaFor(s, env, d, f).ok && DeltaFor(s, env, d, f).family
              == Some(StateFamily(1, true, Values(EntriesOf(f, DiskInventory(x))), []))
      ensures |EntriesOf(f, DiskInventory(x))| <= 1
    {
      OneDisk(x, f);
      FirstDelta(EntriesOf(f, DiskInventory(x)), 0, d.record);
    }
    assert Queues(s, env, binary);
    QueuedExact(s, env, binary);
    P.CollectMoves(s, env, binary, StorageHealth);
    MemoryFate(s, env, binary, 6);
    OneDisk(x, StorageHealth);
    FirstDelta([Keyed(x.deviceId, Storage(x))], 0, d.record);
    assert [Keyed(x.deviceId, Storage(x))][..0] == [];
    assert Values([Keyed(x.deviceId, Storage(x))]) == [Storage(x)];
  }

  /** Without faults of the queue, a queued heartbeat is recorded as far as the sync file
      can be written. */
  lemma CalmSync(s: AgentState, env: CollectEnv, binary: Binary)
    requires SoundDigests(binary.digests) && env.queue == NoFaults && Queues(s, env, binary)
    ensures var c := CollectStep(s, env, binary);
            && c.state.syncFile
            == (if Renamed(env.sync) then Stored(BuiltBy(s, env, binary).capabilitiesHash, c.state.table)
                                    else s.syncFile)
            && c.ok == (env.sync == Written) && c.state.device == Identity.Reserve(s.device, env.reserve).device
  {
    var reserved := Identity.Reserve(s.device, env.reserve);
    var raw := RawHeartbeat(s, env, binary, reserved.sequence.value);
    var k := BuiltBy(s, env, binary);
    var s1 := s.(device := reserved.device);
    QueuedExact(s, env, binary);
    var built, r, entry, added := FinishCases(s1, raw, env, binary);
    assert built == k && CollectStep(s, env, binary) == r;
    assert added.ok;
  }

  function DiskTick(x: StorageInfo, sync: WriteOutcome): Event {
    TickEvent(TickEnv(Calm(DiskInventory(x), true, 1, sync), Silence()))
  }

  lemma StartedWorld(limits: Buffer.Limits, binary: Binary)
    requires Buffer.ValidLimits(limits)
    ensures var w := After(Started(limits), binary);
            && w.mode == Running && w.agent.table == map[] && w.agent.syncFile == Absent && !w.agent.dormant
            && w.agent.queue == Buffer.QueueState([], limits, 0) && w.agent.attempts == 0
            && w.agent.device == Identity.Device(Some(Identity.Counter(1, 0)), Some(Identity.Counter(1, 0)))
            && w.sent == [] && w.ledger == NewDevice.ledger && w.receivers == NewDevice.receivers
            && w.log == NewDevice.log
  {
    var boot, activate, contract := BootEvent(Written), ActivateEvent(1, Written),
        ContractEvent(ContractEnv(false, Some(limits), NoFaults));
    FromNext(NewDevice, [], boot, binary);
    FromNext(NewDevice, [boot], activate, binary);
    FromNext(NewDevice, [boot, activate], contract, binary);
    assert [] + [boot] == [boot] && [boot] + [activate] == [boot, activate];
    assert [boot, activate] + [contract] == Started(limits);
    var w2 := After([boot, activate], binary);
    var c := ContractStep(w2.agent, contract.contract);
    assert w2.mode == Starting && w2.agent.queue.entries == [] && c.ok;
    D.LimitIdle(w2.ledger, c.state.queue);
    assert Limit(w2.ledger, w2.agent.queue, c.state.queue, None) == w2.ledger;
  }

  function DiskSync(x: StorageInfo, binary: Binary): FamilySync
    requires binary.digests.record(Storage(x)).Some?
  {
    FamilySync(1, map[x.deviceId := binary.digests.record(Storage(x)).value], Some(0))
  }

  function DiskView(x: StorageInfo): map<string, Record> {
    map[x.deviceId := Storage(x)]
  }

  /** The device is numbered, and what is in its queue is covered. */
  ghost predicate Ready(w: World) {
    && w.mode == Running && w.agent.table == map[] && Activated(w.agent) && D.Delivered(w)
    && w.agent.device.file == w.agent.device.memory
  }

  ghost predicate SentDisk(hb: Heartbeat, x: StorageInfo) {
    && hb.state.Some? && StorageHealth in hb.state.value
    && hb.state.value[StorageHealth] == StateFamily(1, true, [Storage(x)], [])
  }

  /** A first Collect that fails at the sync file. */
  lemma FailingCollect(s: AgentState, x: StorageInfo, sync: WriteOutcome, binary: Binary)
    requires SoundDigests(binary.digests) && binary.digests.record(Storage(x)).Some? && sync != Written
    requires s.table == map[] && Activated(s) && Buffer.ValidQueue(s.queue)
    requires forall i :: 0 <= i < |s.queue.entries| ==> s.queue.entries[i].sequence <= s.device.memory.value.sequence
    ensures var c := CollectStep(s, Calm(DiskInventory(x), true, 1, sync), binary);
            && !c.ok && c.queued.Some? && SentDisk(c.queued.value.file.body, x)
            && MemoryOf(c.state, StorageHealth) == DiskSync(x, binary)
            && LoadedTable(c.state.syncFile) == (if Renamed(sync) then c.state.table else LoadedTable(s.syncFile))
            && c.state.device == Identity.Reserve(s.device, Written).device && c.state.dormant == s.dormant
  {
    var env := Calm(DiskInventory(x), true, 1, sync);
    FirstCollect(s, x, sync, binary);
    QueuedExact(s, env, binary);
    CalmSync(s, env, binary);
    CollectKeeps(s, env, binary);
  }

  /** A tick with such a Collect. */
  lemma FailingTick(w: World, x: StorageInfo, sync: WriteOutcome, binary: Binary)
    requires SoundDigests(binary.digests) && binary.digests.record(Storage(x)).Some?
    requires Ready(w) && sync != Written
    ensures var w' := Step(w, DiskTick(x, sync), binary);
            && w'.mode == Running && w'.receivers == w.receivers
            && MemoryOf(w'.agent, StorageHealth) == DiskSync(x, binary)
            && LogOf(w', StorageHealth) == LogOf(w, StorageHealth)[1 := DiskView(x)]
            && |w'.sent| == |w.sent| + 1 && SentDisk(w'.sent[|w.sent|], x)
            && LoadedTable(w'.agent.syncFile)
               == (if Renamed(sync) then w'.agent.table else LoadedTable(w.agent.syncFile))
            && w'.agent.device == Identity.Reserve(w.agent.device, Written).device
            && w'.agent.dormant == w.agent.dormant
  {
    var env := Calm(DiskInventory(x), true, 1, sync);
    D.QueuedBelowMemory(w);
    FailingCollect(w.agent, x, sync, binary);
    var w' := AfterCollect(w, env, binary);
    assert Step(w, DiskTick(x, sync), binary) == w';
    OneDisk(x, StorageHealth);
    var entry := Keyed(x.deviceId, Storage(x));
    assert [entry][..0] == [] && View([entry]) == DiskView(x);
    assert StorageHealth in FamilyOrder && w'.log[StorageHealth] == LogOf(w, StorageHealth)[1 := DiskView(x)];
  }

  /** The next process on the same device, with the contract of the last. */
  lemma NextProcess(w: World, limits: Buffer.Limits, binary: Binary)
    requires w.agent.device.file.Some? && Buffer.ValidLimits(limits) && !w.agent.dormant
    ensures var contract := ContractEvent(ContractEnv(false, Some(limits), NoFaults));
            var w' := Step(Step(w, BootEvent(Written), binary), contract, binary);
            && w'.mode == Running && w'.agent.table == LoadedTable(w.agent.syncFile)
            && w'.agent.syncFile == w.agent.syncFile
            && w'.sent == w.sent && w'.log == w.log && w'.receivers == w.receivers && !w'.agent.dormant
            && w'.agent.device == Identity.Device(w.agent.device.file, w.agent.device.file)
  {
  }

  function Contracted(limits: Buffer.Limits): Event {
    ContractEvent(ContractEnv(false, Some(limits), NoFaults))
  }

  /** The process dies after its heartbeat was queued and delivered and before the sync
      file was written. */
  function FirstLife(x: StorageInfo): seq<Event> {
    Started(OpenLimits) + [DiskTick(x, FailedBeforeRename)] + [DeliverEvent(0, StorageHealth)]
  }

  /** The next process collects another disk, and the one after it starts. */
  function Misleading(x: StorageInfo, y: StorageInfo): seq<Event> {
    FirstLife(x) + [BootEvent(Written)] + [Contracted(OpenLimits)] + [DiskTick(y,
            FailedAfterRename)] + [BootEvent(Written)]
  }

  /** The receiver takes the first heartbeat. */
  lemma FirstDelivery(w: World, x: StorageInfo, binary: Binary)
    requires w.sent != [] && SentDisk(w.sent[0], x)
    ensures var w' := Step(w, DeliverEvent(0, StorageHealth), binary);
            ReceiverOf(w', StorageHealth) == Receiver(1, DiskView(x)) && w'.agent == w.agent
  {
    var keyOf := KeyFn(StorageHealth);
    assert [Storage(x)][..0] == [] && keyOf(Storage(x)) == x.deviceId;
    assert Overwrite(map[], [Storage(x)], keyOf) == map[][x.deviceId := Storage(x)];
  }

  lemma AfterFirstLife(x: StorageInfo, binary: Binary)
    requires SoundDigests(binary.digests) && binary.digests.record(Storage(x)).Some?
    ensures var w := After(FirstLife(x), binary);
            && ReceiverOf(w, StorageHealth) == Receiver(1, DiskView(x))
            && LoadedTable(w.agent.syncFile) == map[] && !w.agent.dormant
            && w.agent.device.file == Some(Identity.Counter(1, 1))
  {
    var started, tick := Started(OpenLimits), DiskTick(x, FailedBeforeRename);
    StartedWorld(OpenLimits, binary);
    D.NothingVanishes(started, binary);
    FailingTick(After(started, binary), x, FailedBeforeRename, binary);
    FromNext(NewDevice, started, tick, binary);
    FirstDelivery(After(started + [tick], binary), x, binary);
    FromNext(NewDevice, started + [tick], DeliverEvent(0, StorageHealth), binary);
  }

  /** A run, ending with a process start, after which the receiver is at the agent's own
      revision and holds values that the agent never recorded there: the run misses the
      condition of the replay theorem at one process start only, and its result fails. */
  lemma RestartMisleads(x: StorageInfo, y: StorageInfo, binary: Binary)
    requires SoundDigests(binary.digests) && x != y
    requires binary.digests.record(Storage(x)).Some? && binary.digests.record(Storage(y)).Some?
    ensures var w := After(Misleading(x, y), binary);
            var r := ReceiverOf(w, StorageHealth);
            && r.revision == SyncOf(w.agent.table, StorageHealth).revision == 1
            && 1 in LogOf(w, StorageHealth) && r.view != LogOf(w, StorageHealth)[1]
            && HashableView(r.view, binary.digests.record)
            && HashesOf(r.view, binary.digests.record) != SyncOf(w.agent.table, StorageHealth).hashes
  {
    var first, boot, contract, tick := FirstLife(x), BootEvent(Written), Contracted(OpenLimits),
      DiskTick(y, FailedAfterRename);
    AfterFirstLife(x, binary);
    NextProcess(After(first, binary), OpenLimits, binary);
    FromNext(NewDevice, first, boot, binary);
    FromNext(NewDevice, first + [boot], contract, binary);
    var w := After(first + [boot] + [contract], binary);
    D.NothingVanishes(first + [boot] + [contract], binary);
    FailingTick(w, y, FailedAfterRename, binary);
    FromNext(NewDevice, first + [boot] + [contract], tick, binary);
    FromNext(NewDevice, first + [boot] + [contract] + [tick], boot, binary);
    DifferentDisks(x, y, binary.digests.record);
  }

  lemma DifferentDisks(x: StorageInfo, y: StorageInfo, hash: RecordHash)
    requires Collisionless(hash) && x != y && hash(Storage(x)).Some? && hash(Storage(y)).Some?
    ensures DiskView(x) != DiskView(y) && HashableView(DiskView(x), hash)
    ensures HashesOf(DiskView(x), hash) != map[y.deviceId := hash(Storage(y)).value]
  {
    var other := map[y.deviceId := hash(Storage(y)).value];
    assert x.deviceId in DiskView(x) && x.deviceId in HashesOf(DiskView(x), hash);
    if x.deviceId == y.deviceId {
      assert DiskView(x)[x.deviceId] != DiskView(y)[x.deviceId];
      assert HashesOf(DiskView(x), hash)[x.deviceId] != other[x.deviceId];
    } else {
      assert x.deviceId !in DiskView(y) && x.deviceId !in other;
    }
  }

  // ---------- A drop report that is not read back ----------

  /** A tick with a plain heartbeat, whose sending fails. */
  function PlainTick(decompressed: nat): Event {
    TickEvent(TickEnv(Calm(NoInventory, false, decompressed, Written), Silence()))
  }

  /** A running device that may keep one heartbeat. */
  ghost predicate KeepsOne(w: World) {
    && w.mode == Running && Activated(w.agent) && w.agent.device.memory.value.sequence < 3
    && w.agent.queue.limits == Buffer.Limits(1, 10485760) && |w.agent.queue.entries| <= 1
    && (forall i :: 0 <= i < |w.agent.queue.entries| ==>
          && w.agent.queue.entries[i].sequence <= w.agent.device.memory.value.sequence
          && w.agent.queue.entries[i].file.size == 1)
  }

  lemma PlainCollect(s: AgentState, decompressed: nat, binary: Binary)
    requires Activated(s) && decompressed <= 4194304 && s.queue.limits == Buffer.Limits(1, 10485760)
             && |s.queue.entries| <= 1
    requires forall i :: 0 <= i < |s.queue.entries| ==>
               && s.queue.entries[i].sequence <= s.device.memory.value.sequence && s.queue.entries[i].file.size == 1
    ensures var c := CollectStep(s, Calm(NoInventory, false, decompressed, Written), binary);
            && c.ok && c.queued.Some? && c.state.device == Identity.Reserve(s.device, Written).device
            && c.state.queue == Buffer.QueueState([c.queued.value], s.queue.limits, s.queue.dropped + |s.queue.entries|)
            && c.queued.value.sequence == s.device.memory.value.sequence + 1
            && c.queued.value.file.body.droppedSamples == s.queue.dropped
            && c.queued.value.file.decompressed == decompressed && c.queued.value.file.size == 1
  {
    var env := Calm(NoInventory, false, decompressed, Written);
    var raw := RawHeartbeat(s, env, binary, s.device.memory.value.sequence + 1);
    var entry := EntryFor(raw, Encoding(1, decompressed));
    assert ValidHeartbeat(raw, true);
    KeepOne(s.queue, entry);
  }

  /** The new heartbeat stays, the one before it goes. */
  lemma KeepOne(q: Buffer.QueueState, e: Buffer.Entry)
    requires q.limits == Buffer.Limits(1, 10485760) && |q.entries| <= 1 && e.sequence != 0 && e.file.size == 1
    requires forall i :: 0 <= i < |q.entries| ==> q.entries[i].sequence < e.sequence && q.entries[i].file.size == 1
    ensures Buffer.Stores(q, e, NoFaults)
    ensures Buffer.AddTo(q, e, NoFaults)
            == Buffer.QueueResult(Buffer.QueueState([e], q.limits, q.dropped + |q.entries|), |q.entries|, true)
  {
    Buffer.InsertGreatest(q.entries, e);
    var one := [e];
    assert Buffer.TotalBytes(one[1..]) == 0 && Buffer.TotalBytes(one) == 1 && Buffer.Excess(one, q.limits) == 0;
    if q.entries != [] {
      var two := [q.entries[0], e];
      assert q.entries + [e] == two && two[1..] == one;
      assert Buffer.Excess(two, q.limits) == 1;
    } else {
      assert q.entries + [e] == one;
    }
  }

  /** One such tick: the queue changes hands, and the counter and the drops go up alike. */
  lemma PlainStep(w: World, decompressed: nat, binary: Binary)
    requires KeepsOne(w) && decompressed <= 4194304
    ensures var w' := Step(w, PlainTick(decompressed), binary);
            var n := w.agent.device.memory.value.sequence + 1;
            && (n < 3 ==> KeepsOne(w')) && Activated(w'.agent) && w'.agent.device.memory.value.sequence == n
            && |w'.agent.queue.entries| == 1 && w'.agent.queue.entries[0].sequence == n
            && w'.agent.queue.entries[0].file.body.droppedSamples == w.agent.queue.dropped
            && w'.agent.queue.entries[0].file.decompressed == decompressed
            && w'.agent.queue.dropped == w.agent.queue.dropped + |w.agent.queue.entries|
            && w'.ledger.drops == w.ledger.drops + |w.agent.queue.entries|
            && w'.ledger.readAt == w.ledger.readAt[n := w.ledger.drops] && w'.ledger.clean == w.ledger.clean + {n}
  {
    var env := Calm(NoInventory, false, decompressed, Written);
    PlainCollect(w.agent, decompressed, binary);
    var mid := AfterCollect(w, env, binary);
    UnreachableFlush(mid);
  }

  lemma UnreachableFlush(w: World)
    requires w.agent.queue.entries != []
    ensures AfterFlush(w, Silence()) == w.(agent := w.agent.(attempts := w.agent.attempts + 1))
  {
  }

  /** Every attempt is confirmed. */
  function Confirmations(sequence: nat): nat -> Exchange {
    i => Exchange(Answer(true, sequence, None, None), true, true, Written, true, true)
  }

  /** Three heartbeats with room for one; the last text is two mebibytes long. */
  function LongReport(): seq<Event> {
    Started(Buffer.Limits(1, 10485760)) + [PlainTick(1)] + [PlainTick(1)] + [PlainTick(2097152)]
  }

  /** A reachable device whose last heartbeat is within the contract and too long to be read
      back: it read the counter at one, one more heartbeat was dropped since, and after its
      delivery the counter is at two. */
  lemma LongReportKept(binary: Binary)
    ensures var w := After(LongReport(), binary);
            var entries := w.agent.queue.entries;
            && |entries| == 1 && !D.Heard(entries[0]) && entries[0].file.body.droppedSamples == 1
            && FlushStep(w.agent, Confirmations(entries[0].sequence)).outcome == Continue
            && entries[0].sequence in w.ledger.readAt && w.ledger.drops - w.ledger.readAt[entries[0].sequence] == 1
            && AfterFlush(w, Confirmations(entries[0].sequence)).agent.queue.dropped == 2
  {
    var started := Started(Buffer.Limits(1, 10485760));
    StartedWorld(Buffer.Limits(1, 10485760), binary);
    PlainStep(After(started, binary), 1, binary);
    FromNext(NewDevice, started, PlainTick(1), binary);
    PlainStep(After(started + [PlainTick(1)], binary), 1, binary);
    FromNext(NewDevice, started + [PlainTick(1)], PlainTick(1), binary);
    PlainStep(After(started + [PlainTick(1)] + [PlainTick(1)], binary), 2097152, binary);
    FromNext(NewDevice, started + [PlainTick(1)] + [PlainTick(1)], PlainTick(2097152), binary);
    ConfirmedFlush(After(LongReport(), binary));
  }

  lemma ConfirmedFlush(w: World)
    requires |w.agent.queue.entries| == 1 && !D.Heard(w.agent.queue.entries[0])
    ensures var x := Confirmations(w.agent.queue.entries[0].sequence);
            FlushStep(w.agent, x).outcome == Continue && AfterFlush(w, x).agent.queue.dropped == w.agent.queue.dropped
  {
    var e := w.agent.queue.entries[0];
    var x := Confirmations(e.sequence);
    assert TurnStep(w.agent, e, x(0)).outcome == Continue;
    assert w.agent.queue.entries[0..] == w.agent.queue.entries;
    D.FlushCounter(w.agent, w.agent.queue.entries, 0, x);
    assert w.agent.queue.entries[1..] == [];
  }
}
