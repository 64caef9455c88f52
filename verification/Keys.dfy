/**
 The keys of a state family: they keep different items apart, so that the input
 itself says when a family has pairwise distinct keys, and then every item that was
 reported is in the view.
 */
module Keys {
  import opened Prelude
  import opened Strings
  import opened Protocol
  import opened Delta
  import opened Compact
  import Sensors

  // ---------- Keys of two parts ----------

  predicate NulFree(s: string) {
    '\0' !in s
  }

  lemma NotLater(a: string, b: string, a': string, b': string)
    requires NulFree(a) && Joined(a, b) == Joined(a', b')
    ensures |a| <= |a'|
  {
    var s := Joined(a, b);
    forall i | 0 <= i < |a| ensures s[i] != '\0' {
      assert s[i] == a[i];
    }
    assert s[|a'|] == '\0';
  }

  /** With first parts free of NUL a key determines both parts. */
  lemma JoinedInjective(a: string, b: string, a': string, b': string)
    requires NulFree(a) && NulFree(a')
    ensures Joined(a, b) == Joined(a', b') <==> a == a' && b == b'
  {
    if Joined(a, b) == Joined(a', b') {
      NotLater(a, b, a', b');
      NotLater(a', b', a, b);
      var s := Joined(a, b);
      assert s[..|a|] == a && s[|a| + 1..] == b && s[..|a'|] == a' && s[|a'| + 1..] == b';
    }
  }

  /** Otherwise a NUL may move between the parts. */
  lemma NulCollides(a: string, b: string, c: string)
    ensures Joined(Joined(a, b), c) == Joined(a, Joined(b, c))
  {
    assert a + "\0" + b + "\0" + c == a + "\0" + (b + "\0" + c);
  }

  // ---------- What identifies an item ----------

  /** A blank manager is systemd; the rest is the text without surrounding space. */
  function ManagerOf(service: ServiceInfo): string {
    if TrimSpace(service.manager) == "" then DefaultManager else TrimSpace(service.manager)
  }

  function TextOf(fields: Fields, name: FieldName): Option<string> {
    if name in fields && fields[name].Text? && TrimSpace(fields[name].text) != ""
    then Some(TrimSpace(fields[name].text)) else None
  }

  /** The first of mount point, mount and source that is a text and not blank. */
  function FilesystemId(fields: Fields): Option<string> {
    if TextOf(fields, MountPointField).Some? then TextOf(fields, MountPointField)
    else if TextOf(fields, MountField).Some? then TextOf(fields, MountField)
    else TextOf(fields, SourceField)
  }

  /** The first of id, PCI address, UUID and name that is a text and not blank. */
  function GpuId(fields: Fields): Option<string> {
    if TextOf(fields, IdField).Some? then TextOf(fields, IdField)
    else if TextOf(fields, PciAddressField).Some? then TextOf(fields, PciAddressField)
    else if TextOf(fields, UuidField).Some? then TextOf(fields, UuidField)
    else TextOf(fields, NameField)
  }

  predicate DistinctIds(values: seq<Fields>, idOf: Fields -> Option<string>) {
    forall i, j :: 0 <= i < j < |values| && idOf(values[i]).Some? ==> idOf(values[i]) != idOf(values[j])
  }

  /** No two items of the family have the same identity. */
  predicate DistinctItems(f: Family, inventory: Inventory) {
    match f
    case Services =>
      forall i, j :: 0 <= i < j < |inventory.services| ==>
        ManagerOf(inventory.services[i]) != ManagerOf(inventory.services[j])
        || inventory.services[i].name != inventory.services[j].name
    case Containers =>
      forall i, j :: 0 <= i < j < |inventory.containers| ==>
        inventory.containers[i].runtime != inventory.containers[j].runtime
        || inventory.containers[i].runtimeId != inventory.containers[j].runtimeId
    case StorageHealth =>
      forall i, j :: 0 <= i < j < |inventory.storage| ==> inventory.storage[i].deviceId != inventory.storage[j].deviceId
    case Filesystems => DistinctIds(inventory.filesystems, IdFnOf(f))
    case GPUs => DistinctIds(inventory.gpus, IdFnOf(f))
    case _ => true
  }

  /** The managers and container runtimes are free of NUL. */
  predicate PlainParts(f: Family, inventory: Inventory) {
    match f
    case Services => forall i :: 0 <= i < |inventory.services| ==> NulFree(ManagerOf(inventory.services[i]))
    case Containers => forall i :: 0 <= i < |inventory.containers| ==> NulFree(inventory.containers[i].runtime)
    case _ => true
  }

  // ---------- Keys and identities ----------

  lemma ServiceKeyIs(service: ServiceInfo)
    ensures ServiceKey(service) == Joined(ManagerOf(service), service.name)
  {
    BlankManager(service, ManagerOf(service));
  }

  /** Two services are filed together exactly when manager and name are the same. */
  lemma ServiceKeysApart(a: ServiceInfo, b: ServiceInfo)
    requires NulFree(ManagerOf(a)) && NulFree(ManagerOf(b))
    ensures KeyOf(Services, Service(a)) == KeyOf(Services, Service(b))
            <==> ManagerOf(a) == ManagerOf(b) && a.name == b.name
  {
    ServiceKeyIs(a);
    ServiceKeyIs(b);
    JoinedInjective(ManagerOf(a), a.name, ManagerOf(b), b.name);
  }

  /** Two containers are filed together exactly when runtime and id are the same. */
  lemma ContainerKeysApart(a: ContainerInfo, b: ContainerInfo)
    requires NulFree(a.runtime) && NulFree(b.runtime)
    ensures KeyOf(Containers, Container(a)) == KeyOf(Containers, Container(b))
            <==> a.runtime == b.runtime && a.runtimeId == b.runtimeId
  {
    JoinedInjective(a.runtime, a.runtimeId, b.runtime, b.runtimeId);
  }

  /** The candidate fields of file systems and GPUs, in the order of precedence. */
  lemma MetricKeyIs(f: Family, fields: Fields)
    requires f == Filesystems || f == GPUs
    ensures Sensors.MapKey(fields, MetricCandidates(f))
            == var id := if f == Filesystems then FilesystemId(fields) else GpuId(fields); if id.Some? then id.value
              else ""
  {
    var c := MetricCandidates(f);
    CandidateNext(fields, c);
    CandidateNext(fields, c[1..]);
    CandidateNext(fields, c[2..]);
    if f == GPUs {
      CandidateNext(fields, c[3..]);
      assert c[3..][1..] == [];
    } else {
      assert c[2..][1..] == [];
    }
    assert c[1..][1..] == c[2..];
    assert f == GPUs ==> c[2..][1..] == c[3..];
  }

  lemma CandidateNext(fields: Fields, candidates: seq<FieldName>)
    requires candidates != []
    ensures Sensors.MapKey(fields, candidates)
            == if TextOf(fields, candidates[0]).Some? then TextOf(fields, candidates[0]).value
               else Sensors.MapKey(fields, candidates[1..])
  {
  }

  // ---------- Distinct keys ----------

  /** The metric at `i` has a key and is filed as `e`. */
  predicate FiledAt(values: seq<Fields>, keyOf: Fields -> string, i: nat, e: Keyed) {
    i < |values| && keyOf(values[i]) != "" && e == Keyed(keyOf(values[i]), Metric(values[i]))
  }

  /** The keyed metrics are those with a key, each under it. */
  lemma {:induction false} MetricsListed(values: seq<Fields>, keyOf: Fields -> string)
    ensures forall e :: e in Sensors.MetricsKeyedBy(values, keyOf) <==> exists i :: FiledAt(values, keyOf, i, e)
  {
    if values != [] {
      var n := |values| - 1;
      var init := values[..n];
      MetricsListed(init, keyOf);
      forall e ensures e in Sensors.MetricsKeyedBy(values, keyOf) <==> exists i :: FiledAt(values, keyOf, i, e) {
        if i: nat :| FiledAt(values, keyOf, i, e) {
          assert i < n ==> FiledAt(init, keyOf, i, e);
        }
        if i: nat :| FiledAt(init, keyOf, i, e) {
          assert FiledAt(values, keyOf, i, e);
        }
        if e in Sensors.MetricsKeyedBy(values, keyOf) && e !in Sensors.MetricsKeyedBy(init, keyOf) {
          assert FiledAt(values, keyOf, n, e);
        }
      }
    }
  }

  predicate ApartBy(values: seq<Fields>, keyOf: Fields -> string) {
    forall i, j :: 0 <= i < j < |values| && keyOf(values[i]) != "" ==> keyOf(values[i]) != keyOf(values[j])
  }

  lemma DistinctAppend(entries: seq<Keyed>, e: Keyed)
    ensures DistinctKeys(entries + [e]) <==> DistinctKeys(entries) && forall x :: x in entries ==> x.key != e.key
  {
    var all := entries + [e];
    if DistinctKeys(all) {
      assert forall i :: 0 <= i < |entries| ==> all[i] == entries[i];
      assert all[|entries|] == e;
    }
  }

  lemma {:induction false} MetricsApart(values: seq<Fields>, keyOf: Fields -> string)
    ensures DistinctKeys(Sensors.MetricsKeyedBy(values, keyOf)) <==> ApartBy(values, keyOf)
  {
    if values != [] {
      var n := |values| - 1;
      var init, last := values[..n], values[n];
      MetricsApart(init, keyOf);
      MetricsListed(init, keyOf);
      if keyOf(last) != "" {
        DistinctAppend(Sensors.MetricsKeyedBy(init, keyOf), Keyed(keyOf(last), Metric(last)));
        LastApart(values, init, keyOf);
      } else {
        assert Sensors.MetricsKeyedBy(values, keyOf) == Sensors.MetricsKeyedBy(init, keyOf);
        assert forall i :: 0 <= i < n ==> init[i] == values[i];
      }
    }
  }

  lemma LastApart(values: seq<Fields>, init: seq<Fields>, keyOf: Fields -> string)
    requires values != [] && init == values[..|values| - 1] && keyOf(values[|values| - 1]) != ""
    ensures ApartBy(values, keyOf)
            <==> ApartBy(init, keyOf)
                 && forall x :: x in Sensors.MetricsKeyedBy(init, keyOf) ==> x.key != keyOf(values[|values| - 1])
  {
    var n := |values| - 1;
    var filed, last := Sensors.MetricsKeyedBy(init, keyOf), keyOf(values[n]);
    MetricsListed(init, keyOf);
    assert forall i :: 0 <= i < n ==> init[i] == values[i];
    if forall x :: x in filed ==> x.key != last {
      forall i | 0 <= i < n && keyOf(values[i]) != "" ensures keyOf(values[i]) != last {
        assert FiledAt(init, keyOf, i, Keyed(keyOf(init[i]), Metric(init[i])));
      }
    }
    if ApartBy(values, keyOf) {
      forall x | x in filed ensures x.key != last {
        var i: nat :| FiledAt(init, keyOf, i, x);
        assert values[i] == init[i];
      }
    }
  }

  /** A family has pairwise distinct keys if and only if its items have pairwise distinct
      identities; sensors and system always have. */
  lemma DistinctExact(f: Family, inventory: Inventory)
    requires PlainParts(f, inventory)
    ensures DistinctKeys(EntriesOf(f, inventory)) <==> DistinctItems(f, inventory)
  {
    match f
    case Services => ServicesApart(inventory);
    case Containers => ContainersApart(inventory);
    case Filesystems => FieldsApart(f, inventory.filesystems);
    case GPUs => FieldsApart(f, inventory.gpus);
    case Sensors => Sensors.SensorKeysDistinct(inventory.sensors, MetricCandidates(f));
    case StorageHealth =>
      var entries := EntriesOf(f, inventory);
      assert forall i :: 0 <= i < |inventory.storage| ==> entries[i].key == inventory.storage[i].deviceId;
    case _ =>
  }

  /** `keyOf` is the identity, or blank without one. */
  predicate KeysAreIds(keyOf: Fields -> string, idOf: Fields -> Option<string>, fields: Fields) {
    keyOf(fields) == (if idOf(fields).Some? then idOf(fields).value else "") && idOf(fields) != Some("")
  }

  lemma ApartIds(values: seq<Fields>, keyOf: Fields -> string, idOf: Fields -> Option<string>)
    requires forall i :: 0 <= i < |values| ==> KeysAreIds(keyOf, idOf, values[i])
    ensures ApartBy(values, keyOf) <==> DistinctIds(values, idOf)
  {
  }

  /** The keys and identities of file systems or of GPUs, as functions. */
  function KeyFnOf(f: Family): Fields -> string {
    fields => Sensors.MapKey(fields, MetricCandidates(f))
  }

  function IdFnOf(f: Family): Fields -> Option<string> {
    fields => if f == Filesystems then FilesystemId(fields) else GpuId(fields)
  }

  lemma FieldKeyIsId(f: Family, fields: Fields)
    requires f == Filesystems || f == GPUs
    ensures KeysAreIds(KeyFnOf(f), IdFnOf(f), fields)
  {
    MetricKeyIs(f, fields);
  }

  lemma FieldsApart(f: Family, values: seq<Fields>)
    requires f == Filesystems || f == GPUs
    ensures DistinctKeys(Sensors.MetricsKeyedBy(values, KeyFnOf(f))) <==> DistinctIds(values, IdFnOf(f))
  {
    var keyOf, idOf := KeyFnOf(f), IdFnOf(f);
    forall i | 0 <= i < |values| ensures KeysAreIds(keyOf, idOf, values[i]) {
      FieldKeyIsId(f, values[i]);
    }
    MetricsApart(values, keyOf);
    ApartIds(values, keyOf, idOf);
  }

  lemma ServicesApart(inventory: Inventory)
    requires PlainParts(Services, inventory)
    ensures DistinctKeys(EntriesOf(Services, inventory)) <==> DistinctItems(Services, inventory)
  {
    var services, entries := inventory.services, EntriesOf(Services, inventory);
    forall i, j | 0 <= i < j < |services|
      ensures entries[i].key != entries[j].key
              <==> ManagerOf(services[i]) != ManagerOf(services[j]) || services[i].name != services[j].name
    {
      ServiceKeyIs(services[i]);
      ServiceKeyIs(services[j]);
      JoinedInjective(ManagerOf(services[i]), services[i].name, ManagerOf(services[j]), services[j].name);
    }
  }

  lemma ContainersApart(inventory: Inventory)
    requires PlainParts(Containers, inventory)
    ensures DistinctKeys(EntriesOf(Containers, inventory)) <==> DistinctItems(Containers, inventory)
  {
    var containers, entries := inventory.containers, EntriesOf(Containers, inventory);
    forall i, j | 0 <= i < j < |containers|
      ensures entries[i].key != entries[j].key
              <==> containers[i].runtime != containers[j].runtime || containers[i].runtimeId != containers[j].runtimeId
    {
      JoinedInjective(containers[i].runtime, containers[i].runtimeId, containers[j].runtime, containers[j].runtimeId);
    }
  }

  // ---------- Every item is shown ----------

  lemma {:induction false} ViewOfDistinct(entries: seq<Keyed>, e: Keyed)
    requires DistinctKeys(entries) && e in entries
    ensures e.key in View(entries) && View(entries)[e.key] == e.value
  {
    ViewEntries(entries);
    assert Keyed(e.key, View(entries)[e.key]) in entries;
  }

  ghost predicate Shows(f: Family, inventory: Inventory, key: string, value: Record) {
    var view := View(EntriesOf(f, inventory));
    key in view && view[key] == value
  }

  /** With distinct keys the recorded view has every reported service under its identity,
      with its own values; only a blank manager is filled in. */
  lemma ServiceShown(inventory: Inventory, i: nat)
    requires i < |inventory.services| && DistinctKeys(EntriesOf(Services, inventory))
    ensures var s := inventory.services[i];
            Shows(Services, inventory, Joined(ManagerOf(s), s.name),
                  Service(if TrimSpace(s.manager) == "" then s.(manager := DefaultManager) else s))
  {
    var entries, s := EntriesOf(Services, inventory), inventory.services[i];
    ServiceKeyIs(s);
    assert entries[i] == ServiceEntry(s) && entries[i] in entries;
    ViewOfDistinct(entries, entries[i]);
  }

  /** The same of containers and of storage. */
  lemma ContainerShown(inventory: Inventory, i: nat)
    requires i < |inventory.containers| && DistinctKeys(EntriesOf(Containers, inventory))
    ensures var c := inventory.containers[i]; Shows(Containers, inventory, Joined(c.runtime, c.runtimeId), Container(c))
  {
    var entries := EntriesOf(Containers, inventory);
    ViewOfDistinct(entries, entries[i]);
  }

  lemma StorageShown(inventory: Inventory, i: nat)
    requires i < |inventory.storage| && DistinctKeys(EntriesOf(StorageHealth, inventory))
    ensures Shows(StorageHealth, inventory, inventory.storage[i].deviceId, Storage(inventory.storage[i]))
  {
    var entries := EntriesOf(StorageHealth, inventory);
    ViewOfDistinct(entries, entries[i]);
  }

  lemma MetricShown(values: seq<Fields>, keyOf: Fields -> string, i: nat)
    requires i < |values| && keyOf(values[i]) != "" && DistinctKeys(Sensors.MetricsKeyedBy(values, keyOf))
    ensures var view := View(Sensors.MetricsKeyedBy(values, keyOf));
            keyOf(values[i]) in view && view[keyOf(values[i])] == Metric(values[i])
  {
    MetricsListed(values, keyOf);
    assert FiledAt(values, keyOf, i, Keyed(keyOf(values[i]), Metric(values[i])));
    ViewOfDistinct(Sensors.MetricsKeyedBy(values, keyOf), Keyed(keyOf(values[i]), Metric(values[i])));
  }

  lemma FieldShown(f: Family, values: seq<Fields>, i: nat, id: string)
    requires (f == Filesystems || f == GPUs) && i < |values| && IdFnOf(f)(values[i]) == Some(id)
    requires DistinctKeys(Sensors.MetricsKeyedBy(values, KeyFnOf(f)))
    ensures var view := View(Sensors.MetricsKeyedBy(values, KeyFnOf(f)));
            id in view && view[id] == Metric(values[i])
  {
    var keyOf, idOf := KeyFnOf(f), IdFnOf(f);
    FieldKeyIsId(f, values[i]);
    assert KeysAreIds(keyOf, idOf, values[i]);
    MetricShown(values, keyOf, i);
  }

  /** The same of file systems and of GPUs that have an identity. */
  lemma FilesystemShown(inventory: Inventory, i: nat)
    requires i < |inventory.filesystems| && FilesystemId(inventory.filesystems[i]).Some?
    requires DistinctKeys(EntriesOf(Filesystems, inventory))
    ensures Shows(Filesystems, inventory, FilesystemId(inventory.filesystems[i]).value,
                  Metric(inventory.filesystems[i]))
  {
    FieldShown(Filesystems, inventory.filesystems, i, FilesystemId(inventory.filesystems[i]).value);
  }

  lemma GpuShown(inventory: Inventory, i: nat)
    requires i < |inventory.gpus| && GpuId(inventory.gpus[i]).Some? && DistinctKeys(EntriesOf(GPUs, inventory))
    ensures Shows(GPUs, inventory, GpuId(inventory.gpus[i]).value, Metric(inventory.gpus[i]))
  {
    FieldShown(GPUs, inventory.gpus, i, GpuId(inventory.gpus[i]).value);
  }
}
