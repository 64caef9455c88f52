/**
 The compact heartbeat: the capability map shrinks to its digest when unchanged,
 and each state family to a delta. The remembered families are one mutable table
 that the next sync state shares with the previous one, so a build leaves its
 traces in memory even when the heartbeat is later abandoned.
 */
module Compact {
  import opened Prelude
  import opened Strings
  import opened Protocol
  import opened Delta
  import Sensors

  type FamilyTable = map<Family, FamilySync>

  /** The digest functions: JSON encoding followed by SHA-256. */
  datatype Digests = Digests(record: RecordHash, capabilities: Capabilities -> string)

  ghost predicate SoundDigests(d: Digests) {
    && Collisionless(d.record)
    && (forall c :: IsSha256Hex(d.capabilities(c)))
  }

  // ---------- Keys and entries ----------

  /** Two parts of a key, separated by a NUL. */
  function Joined(a: string, b: string): string {
    a + "\0" + b
  }

  const DefaultManager := "systemd"

  /** A blank manager field means systemd. */
  function Normalized(service: ServiceInfo): ServiceInfo {
    if |TrimSpace(service.manager)| == 0 then service.(manager := DefaultManager) else service
  }

  function ServiceKey(service: ServiceInfo): string {
    Joined(TrimSpace(Normalized(service).manager), service.name)
  }

  /** What the trimmed manager of a normalized service is. */
  lemma BlankManager(service: ServiceInfo, manager: string)
    requires manager == if |TrimSpace(service.manager)| == 0 then DefaultManager else TrimSpace(service.manager)
    ensures ServiceKey(service) == Joined(manager, service.name)
  {
    TrimmedFixed(DefaultManager);
  }

  /** Normalizing a service does not change its key, and is done at most once. */
  lemma NormalizedKey(service: ServiceInfo)
    ensures ServiceKey(Normalized(service)) == ServiceKey(service)
  {
    TrimmedFixed(DefaultManager);
  }

  function MetricCandidates(family: Family): seq<FieldName> {
    match family
    case Filesystems => [MountPointField, MountField, SourceField]
    case GPUs => [IdField, PciAddressField, UuidField, NameField]
    case _ => [KeyField]
  }

  /** The key a receiver files a record under; it depends on the record alone. */
  function KeyOf(family: Family, r: Record): string {
    match r
    case Service(service) => ServiceKey(service)
    case Container(c) => Joined(c.runtime, c.runtimeId)
    case Storage(s) => s.deviceId
    case Metric(fields) => if family == System then "system" else Sensors.MapKey(fields, MetricCandidates(family))
  }

  function KeyFn(family: Family): RecordKey {
    r => KeyOf(family, r)
  }

  function ServiceEntry(service: ServiceInfo): Keyed {
    Keyed(ServiceKey(service), Service(Normalized(service)))
  }

  function ServiceEntryFn(): ServiceInfo -> Keyed {
    service => ServiceEntry(service)
  }

  function EntriesBy(services: seq<ServiceInfo>, entryOf: ServiceInfo -> Keyed): seq<Keyed> {
    seq(|services|, i requires 0 <= i < |services| => entryOf(services[i]))
  }

  function ContainerEntries(containers: seq<ContainerInfo>): seq<Keyed> {
    seq(|containers|, i requires 0 <= i < |containers| =>
      Keyed(Joined(containers[i].runtime, containers[i].runtimeId), Container(containers[i])))
  }

  function StorageEntries(storage: seq<StorageInfo>): seq<Keyed> {
    seq(|storage|, i requires 0 <= i < |storage| => Keyed(storage[i].deviceId, Storage(storage[i])))
  }

  ghost function EntriesOf(family: Family, inventory: Inventory): seq<Keyed> {
    match family
    case Services => EntriesBy(inventory.services, ServiceEntryFn())
    case Containers => ContainerEntries(inventory.containers)
    case Filesystems => Sensors.KeyedMetrics(inventory.filesystems, MetricCandidates(family))
    case GPUs => Sensors.KeyedMetrics(inventory.gpus, MetricCandidates(family))
    case Sensors => Sensors.KeyedMetrics(Sensors.CompactedSensors(inventory.sensors), MetricCandidates(family))
    case System => if inventory.system == map[] then [] else [Keyed("system", Metric(inventory.system))]
    case StorageHealth => StorageEntries(inventory.storage)
    case Unknown(_) => []
  }

  lemma {:induction false} MetricsKeyed(values: seq<Fields>, keyOf: Fields -> string, recordKey: RecordKey)
    requires forall fields :: recordKey(Metric(fields)) == keyOf(fields)
    ensures KeyedBy(Sensors.MetricsKeyedBy(values, keyOf), recordKey)
  {
    if values != [] {
      MetricsKeyed(values[..|values| - 1], keyOf, recordKey);
    }
  }

  /** The agent files every record under the key a receiver computes from it. */
  lemma EntriesKeyed(family: Family, inventory: Inventory)
    ensures KeyedBy(EntriesOf(family, inventory), KeyFn(family))
  {
    var metricKey := fields => Sensors.MapKey(fields, MetricCandidates(family));
    match family
    case Services =>
      forall service ensures ServiceEntryFn()(service).key == KeyFn(family)(ServiceEntryFn()(service).value) {
        NormalizedKey(service);
      }
    case Filesystems => MetricsKeyed(inventory.filesystems, metricKey, KeyFn(family));
    case GPUs => MetricsKeyed(inventory.gpus, metricKey, KeyFn(family));
    case Sensors => MetricsKeyed(Sensors.CompactedSensors(inventory.sensors), metricKey, KeyFn(family));
    case _ =>
  }

  // ---------- Specification ----------

  function SyncOf(table: FamilyTable, family: Family): FamilySync {
    if family in table then table[family] else NoFamily
  }

  /** The result of building families in order: the table as it was left, and the
      families to send; `ok` is false when a record could not be encoded. */
  datatype Built = Built(ok: bool, table: FamilyTable, state: map<Family, StateFamily>)

  /** How each family moves on, given what is remembered of it. */
  type FamilyStep = (Family, FamilySync) -> DeltaResult

  ghost function StepFor(inventory: Inventory, now: int, hash: RecordHash): FamilyStep {
    (f, previous) => DeltaOf(previous, EntriesOf(f, inventory), now, hash)
  }

  ghost function BuildFamilies(order: seq<Family>, table: FamilyTable, step: FamilyStep): Built {
    if order == [] then Built(true, table, map[])
    else
      var before := BuildFamilies(order[..|order| - 1], table, step);
      if !before.ok then before else Extend(before, order[|order| - 1], step)
  }

  ghost function Extend(before: Built, family: Family, step: FamilyStep): Built {
    var d := step(family, SyncOf(before.table, family));
    Built(d.ok, before.table[family := d.next], if d.family.Some? then before.state[family := d.family.value]
          else before.state)
  }

  datatype Compacted = Compacted(ok: bool, heartbeat: Heartbeat, table: FamilyTable, capabilitiesHash: string)

  ghost function CompactOf(input: Heartbeat, table: FamilyTable, capabilitiesHash: string, d: Digests): Compacted {
    var hash := d.capabilities(input.capabilities);
    var built := BuildFamilies(FamilyOrder, table, StepFor(input.inventory, input.collectedAt, d.record));
    if !built.ok then Compacted(false, input, built.table, capabilitiesHash)
    else
      Compacted(true,
                input.(capabilities := if hash == capabilitiesHash then map[] else input.capabilities,
                       capabilitiesHash := hash, inventory := NoInventory, state := Some(built.state)),
                built.table, hash)
  }

  predicate Distinct(order: seq<Family>) {
    forall i, j :: 0 <= i < j < |order| ==> order[i] != order[j]
  }

  /** The build moved `f` on by the delta `d`. */
  ghost predicate MovedBy(built: Built, f: Family, d: DeltaResult) {
    && d.ok && SyncOf(built.table, f) == d.next
    && (if d.family.Some? then f in built.state && built.state[f] == d.family.value else f !in built.state)
  }

  /** What a build does to each family: those it reached and could encode moved on
      by their own delta, all others are as before. A complete build reached all. */
  lemma {:induction false} BuildEach(order: seq<Family>, table: FamilyTable, step: FamilyStep, f: Family)
    requires Distinct(order)
    requires forall g, sync :: !step(g, sync).ok ==> step(g, sync).next == sync && step(g, sync).family.None?
    ensures var built := BuildFamilies(order, table, step);
            var moved := f in order && MovedBy(built, f, step(f, SyncOf(table, f)));
            moved || (!(built.ok && f in order) && SyncOf(built.table, f) == SyncOf(table, f) && f !in built.state)
  {
    if order != [] {
      var n := |order| - 1;
      BuildEach(order[..n], table, step, f);
      assert order == order[..n] + [order[n]];
      if f == order[n] {
        assert f !in order[..n];
      }
      if BuildFamilies(order[..n], table, step).ok {
        ExtendEach(BuildFamilies(order[..n], table, step), order[n], step, f);
      }
    }
  }

  /** Building one more family leaves the others alone. */
  lemma ExtendEach(before: Built, family: Family, step: FamilyStep, f: Family)
    requires before.ok
    requires !step(family, SyncOf(before.table, family)).ok ==>
               step(family, SyncOf(before.table, family)).next == SyncOf(before.table, family)
               && step(family, SyncOf(before.table, family)).family.None?
    ensures var built := Extend(before, family, step);
            if f != family then SyncOf(built.table, f) == SyncOf(before.table, f)
                                && (f in built.state <==> f in before.state)
                                && (f in built.state ==> built.state[f] == before.state[f])
            else if f in before.state then true
            else MovedBy(built, f, step(f, SyncOf(before.table, f)))
                 || (!built.ok && SyncOf(built.table, f) == SyncOf(before.table, f) && f !in built.state)
  {
  }

  /** The families up to the `i`th in the order can all be encoded. */
  ghost predicate StepsWork(order: seq<Family>, table: FamilyTable, step: FamilyStep, i: nat) {
    forall j :: 0 <= j < i && j < |order| ==> step(order[j], SyncOf(table, order[j])).ok
  }

  /** A build gets past a family exactly when that one and all before it can be encoded. */
  lemma {:induction false} BuildReaches(order: seq<Family>, table: FamilyTable, step: FamilyStep, i: nat)
    requires Distinct(order) && i < |order|
    requires forall g, sync :: !step(g, sync).ok ==> step(g, sync).next == sync && step(g, sync).family.None?
    ensures var built := BuildFamilies(order, table, step);
            && (built.ok <==> StepsWork(order, table, step, |order|))
            && SyncOf(built.table, order[i])
               == if StepsWork(order, table, step, i + 1) then step(order[i], SyncOf(table, order[i])).next
                  else SyncOf(table, order[i])
  {
    BuildOk(order, table, step);
    BuildEach(order, table, step, order[i]);
    if i < |order| - 1 {
      BuildReaches(order[..|order| - 1], table, step, i);
    } else {
      BuildOk(order[..i], table, step);
      BuildEach(order[..i], table, step, order[i]);
    }
  }

  lemma {:induction false} BuildOk(order: seq<Family>, table: FamilyTable, step: FamilyStep)
    requires Distinct(order)
    requires forall g, sync :: !step(g, sync).ok ==> step(g, sync).next == sync && step(g, sync).family.None?
    ensures BuildFamilies(order, table, step).ok <==> StepsWork(order, table, step, |order|)
  {
    if order != [] {
      var n := |order| - 1;
      BuildOk(order[..n], table, step);
      BuildEach(order[..n], table, step, order[n]);
      assert order[n] !in order[..n];
    }
  }

  // ---------- The source's statements ----------

  /** The Go map behind `Families`: every sync state that refers to it sees its updates. */
  class Families {
    var table: FamilyTable

    constructor (table: FamilyTable)
      ensures this.table == table
    {
      this.table := table;
    }
  }

  datatype SyncState = SyncState(capabilitiesHash: string, families: Families)

  method KeyService(service: ServiceInfo) returns (entry: Keyed)
    ensures entry == ServiceEntryFn()(service)
  {
    var value := service;
    var manager := TrimSpace(value.manager);
    if |manager| == 0 {
      manager := DefaultManager;
      value := value.(manager := manager);
    }
    BlankManager(service, manager);
    entry := Keyed(Joined(manager, value.name), Service(value));
  }

  lemma EntriesNext(services: seq<ServiceInfo>, entryOf: ServiceInfo -> Keyed, i: nat)
    requires i < |services|
    ensures EntriesBy(services, entryOf)[..i + 1] == EntriesBy(services, entryOf)[..i] + [entryOf(services[i])]
  {
  }

  method KeyServices(services: seq<ServiceInfo>) returns (entries: seq<Keyed>)
    ensures entries == EntriesBy(services, ServiceEntryFn())
  {
    entries := [];
    ghost var entryOf := ServiceEntryFn();
    for i := 0 to |services|
      invariant entries == EntriesBy(services, entryOf)[..i]
    {
      EntriesNext(services, entryOf, i);
      var entry := KeyService(services[i]);
      entries := entries + [entry];
    }
  }

  method KeyContainers(containers: seq<ContainerInfo>) returns (entries: seq<Keyed>)
    ensures entries == ContainerEntries(containers)
  {
    entries := [];
    for i := 0 to |containers|
      invariant entries == ContainerEntries(containers)[..i]
    {
      var value := containers[i];
      entries := entries + [Keyed(Joined(value.runtime, value.runtimeId), Container(value))];
    }
  }

  method KeyStorage(storage: seq<StorageInfo>) returns (entries: seq<Keyed>)
    ensures entries == StorageEntries(storage)
  {
    entries := [];
    for i := 0 to |storage|
      invariant entries == StorageEntries(storage)[..i]
    {
      entries := entries + [Keyed(storage[i].deviceId, Storage(storage[i]))];
    }
  }

  method EntriesFor(family: Family, inventory: Inventory) returns (entries: seq<Keyed>)
    ensures entries == EntriesOf(family, inventory)
  {
    match family
    case Services => entries := KeyServices(inventory.services);
    case Containers => entries := KeyContainers(inventory.containers);
    case StorageHealth => entries := KeyStorage(inventory.storage);
    case Filesystems => entries := Sensors.KeyedMaps(inventory.filesystems, MetricCandidates(family));
    case GPUs => entries := Sensors.KeyedMaps(inventory.gpus, MetricCandidates(family));
    case Sensors =>
      var sensors := Sensors.CompactSensors(inventory.sensors);
      entries := Sensors.KeyedMaps(sensors, MetricCandidates(family));
    case System =>
      entries := if |inventory.system| > 0 then [Keyed("system", Metric(inventory.system))] else [];
    case Unknown(_) => entries := [];
  }

  /** One family's `deltaFamily` call. */
  method NextDelta(family: Family, previous: FamilySync, inventory: Inventory, now: int, hash: RecordHash)
    returns (d: DeltaResult)
    ensures d == StepFor(inventory, now, hash)(family, previous)
  {
    var entries := EntriesFor(family, inventory);
    d := DeltaFamily(previous, entries, now, hash);
  }

  /** The families in order, each written to the shared table as it is built;
      a failure leaves the families before it advanced. */
  method BuildState(order: seq<Family>, families: Families, inventory: Inventory, now: int, hash: RecordHash)
    returns (ok: bool, state: map<Family, StateFamily>)
    modifies families
    ensures BuildFamilies(order, old(families.table), StepFor(inventory, now, hash)) == Built(ok, families.table, state)
  {
    state := map[];
    ghost var table, step := families.table, StepFor(inventory, now, hash);
    for i := 0 to |order|
      invariant BuildFamilies(order[..i], table, step) == Built(true, families.table, state)
    {
      assert order[..i + 1][..i] == order[..i];
      var delta := NextDelta(order[i], SyncOf(families.table, order[i]), inventory, now, hash);
      families.table := families.table[order[i] := delta.next];
      if delta.family.Some? {
        state := state[order[i] := delta.family.value];
      }
      if !delta.ok {
        BuildStops(order, i + 1, table, step);
        return false, state;
      }
    }
    assert order[..|order|] == order;
    ok := true;
  }

  /** Builds the compact heartbeat. The next state shares the table of the previous
      one; on failure the caller keeps `previous`, whose table may have moved on. */
  method BuildCompactHeartbeat(input: Heartbeat, previous: SyncState, d: Digests)
    returns (ok: bool, output: Heartbeat, next: SyncState)
    modifies previous.families
    ensures next.families == previous.families
    ensures CompactOf(input, old(previous.families.table), previous.capabilitiesHash, d)
            == Compacted(ok, output, previous.families.table, next.capabilitiesHash)
  {
    next := previous;
    output := input;
    var hash := d.capabilities(input.capabilities);
    output := output.(capabilitiesHash := hash);
    if previous.capabilitiesHash == hash {
      output := output.(capabilities := map[]);
    } else {
      next := next.(capabilitiesHash := hash);
    }
    var built, state := BuildState(FamilyOrder, next.families, input.inventory, input.collectedAt, d.record);
    if !built {
      return false, input, previous;
    }
    output := output.(state := Some(state), inventory := NoInventory);
    ok := true;
  }

  lemma {:induction false} BuildStops(order: seq<Family>, i: nat, table: FamilyTable, step: FamilyStep)
    requires i <= |order| && !BuildFamilies(order[..i], table, step).ok
    ensures BuildFamilies(order, table, step) == BuildFamilies(order[..i], table, step)
    decreases |order|
  {
    if i < |order| {
      assert order[..|order| - 1][..i] == order[..i];
      BuildStops(order[..|order| - 1], i, table, step);
    } else {
      assert order[..i] == order;
    }
  }

  // ---------- What a compact heartbeat guarantees ----------

  /** Capabilities are left out exactly when their digest is the remembered one, and
      leaving them out always satisfies the capability clause of validation. */
  lemma ElisionValid(input: Heartbeat, table: FamilyTable, capabilitiesHash: string, d: Digests)
    requires SoundDigests(d) && input.capabilities != map[] && CompactOf(input, table, capabilitiesHash, d).ok
    ensures var c := CompactOf(input, table, capabilitiesHash, d);
            && c.heartbeat.capabilitiesHash == c.capabilitiesHash == d.capabilities(input.capabilities)
            && (c.heartbeat.capabilities == map[] <==> d.capabilities(input.capabilities) == capabilitiesHash)
            && (c.heartbeat.capabilities != map[] ==> c.heartbeat.capabilities == input.capabilities)
            && CapabilityClause(c.heartbeat)
  {
  }

  /** What a build does to a family: nothing, or the step of its delta; a complete one
      does the latter, and its heartbeat carries the delta. */
  lemma {:induction false} CompactMoves(raw: Heartbeat, table: FamilyTable, capabilitiesHash: string, d: Digests,
                                        f: Family)
    requires f in FamilyOrder
    ensures var k := CompactOf(raw, table, capabilitiesHash, d);
            var delta := DeltaOf(SyncOf(table, f), EntriesOf(f, raw.inventory), raw.collectedAt, d.record);
            && (SyncOf(k.table, f) == SyncOf(table, f) || (delta.ok && SyncOf(k.table, f) == delta.next))
            && (k.ok ==>
                  && delta.ok && SyncOf(k.table, f) == delta.next
                  && (f in k.heartbeat.state.value <==> delta.family.Some?)
                  && (f in k.heartbeat.state.value ==> k.heartbeat.state.value[f] == delta.family.value))
  {
    var step := StepFor(raw.inventory, raw.collectedAt, d.record);
    BuildEach(FamilyOrder, table, step, f);
    assert step(f, SyncOf(table, f))
           == DeltaOf(SyncOf(table, f), EntriesOf(f, raw.inventory), raw.collectedAt, d.record);
  }

  /** After every compact build each family was last sent in full less than six
      hours ago, and a family that was due is sent in full with every value. */
  lemma BoundedStaleness(input: Heartbeat, table: FamilyTable, capabilitiesHash: string, d: Digests, f: Family)
    requires SoundDigests(d) && f in FamilyOrder && CompactOf(input, table, capabilitiesHash, d).ok
    ensures var c := CompactOf(input, table, capabilitiesHash, d);
            var last := SyncOf(c.table, f).lastFullAt;
            && last.Some? && input.collectedAt - last.value < FullReconciliationInterval
            && (DueFull(SyncOf(table, f), input.collectedAt) ==>
                  && f in c.heartbeat.state.value && c.heartbeat.state.value[f].full
                  && c.heartbeat.state.value[f].changed == Values(EntriesOf(f, input.inventory)))
  {
    CompactMoves(input, table, capabilitiesHash, d, f);
    DueIsFull(SyncOf(table, f), EntriesOf(f, input.inventory), input.collectedAt, d.record);
  }

  /** The input that needs the condition: two file systems reported under one mount point,
      of which the last is unchanged, make a receiver keep the other one. */
  lemma SharedMountMasks(path: string, recorded: Fields, other: Fields, inventory: Inventory, revision: nat, now: int,
                         d: Digests)
    requires SoundDigests(d) && path != [] && Trimmed(path) && 0 < revision < MaxUint64
    requires MountPointField in recorded && recorded[MountPointField] == Text(path)
    requires MountPointField in other && other[MountPointField] == Text(path)
    requires recorded != other && d.record(Metric(recorded)).Some? && d.record(Metric(other)).Some?
    requires inventory.filesystems == [other, recorded]
    ensures var previous := FamilySync(revision, map[path := d.record(Metric(recorded)).value], Some(now));
            var entries := EntriesOf(Filesystems, inventory);
            var delta := DeltaOf(previous, entries, now, d.record);
            && delta.ok && delta.family.Some? && View(entries) == map[path := Metric(recorded)]
            && Apply(map[path := Metric(recorded)], delta.family.value, KeyFn(Filesystems))
            == map[path := Metric(other)]
  {
    MountKey(recorded, path);
    MountKey(other, path);
    MountEntries(recorded, other, path, inventory);
    RepeatedKeyMasks(Metric(recorded), Metric(other), path, revision, now, d.record, KeyFn(Filesystems));
    var previous := FamilySync(revision, map[path := d.record(Metric(recorded)).value], Some(now));
    assert DeltaOf(previous, EntriesOf(Filesystems, inventory), now, d.record).ok;
  }

  lemma MountKey(fields: Fields, path: string)
    requires path != [] && Trimmed(path) && MountPointField in fields && fields[MountPointField] == Text(path)
    ensures KeyFn(Filesystems)(Metric(fields)) == path
    ensures Sensors.MapKey(fields, MetricCandidates(Filesystems)) == path
  {
    TrimmedFixed(path);
  }

  lemma MountEntries(recorded: Fields, other: Fields, path: string, inventory: Inventory)
    requires Sensors.MapKey(recorded, MetricCandidates(Filesystems)) == path != []
    requires Sensors.MapKey(other, MetricCandidates(Filesystems)) == path
    requires inventory.filesystems == [other, recorded]
    ensures EntriesOf(Filesystems, inventory) == [Keyed(path, Metric(other)), Keyed(path, Metric(recorded))]
  {
    TwoKeyed(recorded, other, path, fields => Sensors.MapKey(fields, MetricCandidates(Filesystems)));
  }

  lemma TwoKeyed(recorded: Fields, other: Fields, path: string, keyOf: Fields -> string)
    requires keyOf(recorded) == path == keyOf(other) && path != []
    ensures Sensors.MetricsKeyedBy([other, recorded], keyOf)
            == [Keyed(path, Metric(other)), Keyed(path, Metric(recorded))]
  {
    var both, first := [other, recorded], [other];
    assert both[..1] == first && first[..0] == [];
    assert Sensors.MetricsKeyedBy(first, keyOf) == [Keyed(path, Metric(other))];
  }
}
