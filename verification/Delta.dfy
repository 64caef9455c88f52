/**
 One state family of the compact heartbeat: how the agent turns the current
 keyed values into a delta against the digests it remembers, and when that delta
 is exact for a receiver that reads it literally.
 */
module Delta {
  import opened Prelude
  import opened Strings
  import opened Protocol

  /** Six hours in nanoseconds. */
  const FullReconciliationInterval: int := 6 * 3600 * 1_000_000_000

  /** What the agent remembers of a family; `lastFullAt` is `None` for Go's zero time. */
  datatype FamilySync = FamilySync(revision: nat, hashes: map<string, string>, lastFullAt: Option<int>)

  /** The zero value a Go map yields for an absent family. */
  const NoFamily := FamilySync(0, map[], None)

  datatype Keyed = Keyed(key: string, value: Record)

  /** The three results of `deltaFamily`; `ok` is false for its error return. */
  datatype DeltaResult = DeltaResult(ok: bool, family: Option<StateFamily>, next: FamilySync)

  /** A digest function for records; `None` when a record cannot be encoded. */
  type RecordHash = Record -> Option<string>

  type RecordKey = Record -> string

  // ---------- Specification ----------

  /** Digests never collide and are never the empty string. */
  ghost predicate Collisionless(hash: RecordHash) {
    && (forall x, y :: hash(x).Some? && hash(x) == hash(y) ==> x == y)
    && (forall x :: hash(x).Some? ==> hash(x).value != "")
  }

  /** Reading an absent key of a Go string map gives the empty string. */
  function Digest(hashes: map<string, string>, key: string): string {
    if key in hashes then hashes[key] else ""
  }

  ghost predicate Hashable(entries: seq<Keyed>, hash: RecordHash) {
    forall e :: e in entries ==> hash(e.value).Some?
  }

  /** The digests recorded for `entries`: the last entry of a key wins. */
  function NextHashes(entries: seq<Keyed>, hash: RecordHash): map<string, string>
    requires Hashable(entries, hash)
  {
    if entries == [] then map[]
    else
      var last := entries[|entries| - 1];
      NextHashes(entries[..|entries| - 1], hash)[last.key := hash(last.value).value]
  }

  /** The values whose digest differs from the remembered one, in order. */
  function ChangedValues(hashes: map<string, string>, entries: seq<Keyed>, hash: RecordHash): seq<Record>
    requires Hashable(entries, hash)
  {
    if entries == [] then []
    else
      var last := entries[|entries| - 1];
      ChangedValues(hashes, entries[..|entries| - 1], hash)
      + (if Digest(hashes, last.key) != hash(last.value).value then [last.value] else [])
  }

  function Values(entries: seq<Keyed>): (values: seq<Record>)
    ensures |values| == |entries|
    ensures forall i :: 0 <= i < |entries| ==> values[i] == entries[i].value
  {
    seq(|entries|, i requires 0 <= i < |entries| => entries[i].value)
  }

  predicate DueFull(previous: FamilySync, now: int) {
    || previous.revision == 0
    || previous.lastFullAt.None?
    || now - previous.lastFullAt.value >= FullReconciliationInterval
  }

  /** `uint64` increment. */
  function NextRevision(revision: nat): nat {
    if revision == MaxUint64 then 0 else revision + 1
  }

  ghost function DeltaOf(previous: FamilySync, entries: seq<Keyed>, now: int, hash: RecordHash)
    : DeltaResult
  {
    if !Hashable(entries, hash) then DeltaResult(false, None, previous)
    else
      var hashes := NextHashes(entries, hash);
      var changed := ChangedValues(previous.hashes, entries, hash);
      var removed := SortedKeys(previous.hashes.Keys - hashes.Keys);
      if DueFull(previous, now) then
        var revision := NextRevision(previous.revision);
        DeltaResult(true, Some(StateFamily(revision, true, Values(entries), removed)),
                    FamilySync(revision, hashes, Some(now)))
      else if changed == [] && removed == [] then
        DeltaResult(true, None, FamilySync(previous.revision, hashes, previous.lastFullAt))
      else
        var revision := NextRevision(previous.revision);
        DeltaResult(true, Some(StateFamily(revision, false, changed, removed)),
                    FamilySync(revision, hashes, previous.lastFullAt))
  }

  lemma ScanStep(hashes: map<string, string>, entries: seq<Keyed>, i: nat, hash: RecordHash)
    requires i < |entries| && Hashable(entries[..i], hash) && hash(entries[i].value).Some?
    ensures Hashable(entries[..i + 1], hash)
    ensures var digest := hash(entries[i].value).value;
            && NextHashes(entries[..i + 1], hash) == NextHashes(entries[..i], hash)[entries[i].key := digest]
            && ChangedValues(hashes, entries[..i + 1], hash)
               == ChangedValues(hashes, entries[..i], hash)
                  + (if Digest(hashes, entries[i].key) != digest then [entries[i].value] else [])
  {
    assert entries[..i + 1][..i] == entries[..i];
  }

  // ---------- The source's loops ----------

  method DeltaFamily(previous: FamilySync, entries: seq<Keyed>, now: int, hash: RecordHash)
    returns (r: DeltaResult)
    ensures r == DeltaOf(previous, entries, now, hash)
  {
    var ok, nextHashes, changed := Scan(previous, entries, hash);
    if !ok {
      return DeltaResult(false, None, previous);
    }
    var removed := RemovedKeys(previous.hashes, nextHashes);
    var full := previous.revision == 0 || previous.lastFullAt.None?
                || now - previous.lastFullAt.value >= FullReconciliationInterval;
    var next := FamilySync(previous.revision, nextHashes, previous.lastFullAt);
    if !full && |changed| == 0 && |removed| == 0 {
      return DeltaResult(true, None, next);
    }
    next := next.(revision := NextRevision(next.revision));
    if full {
      next := next.(lastFullAt := Some(now));
      changed := [];
      for i := 0 to |entries|
        invariant changed == Values(entries)[..i]
      {
        changed := changed + [entries[i].value];
      }
      assert changed == Values(entries);
    }
    r := DeltaResult(true, Some(StateFamily(next.revision, full, changed, removed)), next);
  }

  /** The first loop: digests every entry, or stops at the first that has none. */
  method Scan(previous: FamilySync, entries: seq<Keyed>, hash: RecordHash)
    returns (ok: bool, nextHashes: map<string, string>, changed: seq<Record>)
    ensures ok <==> Hashable(entries, hash)
    ensures ok ==> nextHashes == NextHashes(entries, hash) && changed == ChangedValues(previous.hashes, entries, hash)
  {
    nextHashes, changed := map[], [];
    for i := 0 to |entries|
      invariant Hashable(entries[..i], hash)
      invariant nextHashes == NextHashes(entries[..i], hash)
      invariant changed == ChangedValues(previous.hashes, entries[..i], hash)
    {
      var entry := entries[i];
      var digest := hash(entry.value);
      if digest.None? {
        assert entry in entries;
        return false, map[], [];
      }
      ScanStep(previous.hashes, entries, i, hash);
      nextHashes := nextHashes[entry.key := digest.value];
      if Digest(previous.hashes, entry.key) != digest.value {
        changed := changed + [entry.value];
      }
    }
    assert entries[..|entries|] == entries;
    ok := true;
  }

  method RemovedKeys(previous: map<string, string>, next: map<string, string>) returns (removed: seq<string>)
    ensures removed == SortedKeys(previous.Keys - next.Keys)
  {
    removed := [];
    var todo := previous.Keys;
    while todo != {}
      invariant todo <= previous.Keys
      invariant forall k :: k in removed <==> k in previous.Keys - todo && k !in next
      decreases todo
    {
      var key :| key in todo;
      if key !in next {
        removed := removed + [key];
      }
      todo := todo - {key};
    }
    removed := SortStrings(removed);
    ListingUnique(removed, SortedKeys(previous.Keys - next.Keys), previous.Keys - next.Keys);
  }

  // ---------- The receiver ----------

  /** A receiver of one family: the revision it is at and the values it holds. */
  datatype Receiver = Receiver(revision: nat, view: map<string, Record>)

  /** `changed` overwrites by key, in order. */
  function Overwrite(view: map<string, Record>, changed: seq<Record>, keyOf: RecordKey): map<string, Record> {
    if changed == [] then view
    else
      var last := changed[|changed| - 1];
      Overwrite(view, changed[..|changed| - 1], keyOf)[keyOf(last) := last]
  }

  /** Reading a family literally: `full` replaces the view, otherwise `changed`
      overwrites by key and `removed` deletes. */
  function Apply(view: map<string, Record>, family: StateFamily, keyOf: RecordKey): map<string, Record> {
    if family.full then Overwrite(map[], family.changed, keyOf)
    else Overwrite(view, family.changed, keyOf) - (set k | k in family.removed)
  }

  /** A receiver that checks revisions: it applies a family only when it is full
      or its revision is the successor of its own. */
  function Receive(r: Receiver, family: StateFamily, keyOf: RecordKey): Receiver {
    if family.full || family.revision == r.revision + 1
    then Receiver(family.revision, Apply(r.view, family, keyOf))
    else r
  }

  // ---------- Exactness ----------

  /** The keyed values an input stands for: the last entry of a key wins. */
  function View(entries: seq<Keyed>): map<string, Record> {
    if entries == [] then map[]
    else
      var last := entries[|entries| - 1];
      View(entries[..|entries| - 1])[last.key := last.value]
  }

  lemma {:induction false} ViewEntries(entries: seq<Keyed>)
    ensures forall e :: e in entries ==> e.key in View(entries)
    ensures forall k :: k in View(entries) ==> Keyed(k, View(entries)[k]) in entries
  {
    if entries != [] {
      ViewEntries(entries[..|entries| - 1]);
      assert entries == entries[..|entries| - 1] + [entries[|entries| - 1]];
    }
  }

  ghost predicate HashableView(view: map<string, Record>, hash: RecordHash) {
    forall k :: k in view ==> hash(view[k]).Some?
  }

  /** The digests of a view; what the agent keeps instead of the values. */
  ghost function HashesOf(view: map<string, Record>, hash: RecordHash): map<string, string>
    requires HashableView(view, hash)
  {
    map k | k in view :: hash(view[k]).value
  }

  ghost predicate KeyedBy(entries: seq<Keyed>, keyOf: RecordKey) {
    forall e :: e in entries ==> e.key == keyOf(e.value)
  }

  ghost predicate DistinctKeys(entries: seq<Keyed>) {
    forall i, j :: 0 <= i < j < |entries| ==> entries[i].key != entries[j].key
  }

  /** No entry that differs from the last one of its key hides that the last one
      is back at the remembered digest. */
  ghost predicate Unmasked(hashes: map<string, string>, entries: seq<Keyed>, hash: RecordHash) {
    forall k :: k in View(entries) && hash(View(entries)[k]) == Some(Digest(hashes, k)) ==>
      Steady(hashes, entries, hash, k)
  }

  /** Every entry of key `k` has the remembered digest. */
  ghost predicate Steady(hashes: map<string, string>, entries: seq<Keyed>, hash: RecordHash, k: string) {
    forall e :: e in entries && e.key == k ==> hash(e.value) == Some(Digest(hashes, k))
  }

  lemma {:induction false} NextHashesOfView(entries: seq<Keyed>, hash: RecordHash)
    requires Hashable(entries, hash)
    ensures HashableView(View(entries), hash)
    ensures NextHashes(entries, hash) == HashesOf(View(entries), hash)
  {
    if entries != [] {
      NextHashesOfView(entries[..|entries| - 1], hash);
    }
  }

  lemma {:induction false} OverwriteAll(entries: seq<Keyed>, keyOf: RecordKey)
    requires KeyedBy(entries, keyOf)
    ensures Overwrite(map[], Values(entries), keyOf) == View(entries)
  {
    if entries != [] {
      var init := entries[..|entries| - 1];
      OverwriteAll(init, keyOf);
      assert Values(entries)[..|entries| - 1] == Values(init);
    }
  }

  /** The last entry of key `k` that `ChangedValues` keeps. */
  ghost function LastChanged(hashes: map<string, string>, entries: seq<Keyed>, hash: RecordHash, k: string)
    : Option<Record>
    requires Hashable(entries, hash)
  {
    if entries == [] then None
    else
      var last := entries[|entries| - 1];
      if last.key == k && Digest(hashes, k) != hash(last.value).value then Some(last.value)
      else LastChanged(hashes, entries[..|entries| - 1], hash, k)
  }

  lemma {:induction false} LastChangedIs(hashes: map<string, string>, entries: seq<Keyed>, hash: RecordHash, k: string)
    requires Hashable(entries, hash)
    ensures var last := LastChanged(hashes, entries, hash, k);
            && (last.Some? ==> hash(last.value) != Some(Digest(hashes, k)))
            && (last.None? <==> Steady(hashes, entries, hash, k))
            && (k in View(entries) && hash(View(entries)[k]) != Some(Digest(hashes, k)) ==>
                last == Some(View(entries)[k]))
            && (k !in View(entries) ==> last.None?)
  {
    if entries != [] {
      var last := entries[|entries| - 1];
      LastChangedIs(hashes, entries[..|entries| - 1], hash, k);
      assert entries == entries[..|entries| - 1] + [last];
      assert last in entries;
    }
  }

  function At(view: map<string, Record>, k: string): Option<Record> {
    if k in view then Some(view[k]) else None
  }

  lemma OverwriteAppend(view: map<string, Record>, changed: seq<Record>, value: Record, keyOf: RecordKey)
    ensures Overwrite(view, changed + [value], keyOf) == Overwrite(view, changed, keyOf)[keyOf(value) := value]
  {
    assert (changed + [value])[..|changed|] == changed;
  }

  lemma OverwriteChangedStep(view: map<string, Record>, hashes: map<string, string>, entries: seq<Keyed>,
                             hash: RecordHash, keyOf: RecordKey)
    requires Hashable(entries, hash) && KeyedBy(entries, keyOf) && entries != []
    ensures var last := entries[|entries| - 1];
            var before := Overwrite(view, ChangedValues(hashes, entries[..|entries| - 1], hash), keyOf);
            Overwrite(view, ChangedValues(hashes, entries, hash), keyOf)
            == if Digest(hashes, last.key) != hash(last.value).value then before[last.key := last.value] else before
  {
    var last := entries[|entries| - 1];
    var before := ChangedValues(hashes, entries[..|entries| - 1], hash);
    assert last in entries;
    OverwriteAppend(view, before, last.value, keyOf);
    assert before + [] == before;
  }

  lemma {:induction false} OverwriteChangedAt(view: map<string, Record>, hashes: map<string, string>,
                                              entries: seq<Keyed>,
                                              hash: RecordHash, keyOf: RecordKey, k: string)
    requires Hashable(entries, hash) && KeyedBy(entries, keyOf)
    ensures var last := LastChanged(hashes, entries, hash, k);
            At(Overwrite(view, ChangedValues(hashes, entries, hash), keyOf), k) == if last.Some? then last
              else At(view, k)
  {
    if entries != [] {
      OverwriteChangedAt(view, hashes, entries[..|entries| - 1], hash, keyOf, k);
      OverwriteChangedStep(view, hashes, entries, hash, keyOf);
    }
  }

  /** The incremental delta as a view transformer. */
  ghost function Incremental(view: map<string, Record>, hashes: map<string, string>, entries: seq<Keyed>,
                                hash: RecordHash, keyOf: RecordKey): map<string, Record>
    requires Hashable(entries, hash)
  {
    Overwrite(view, ChangedValues(hashes, entries, hash), keyOf) - (hashes.Keys - NextHashes(entries, hash).Keys)
  }

  lemma IncrementalGot(view: map<string, Record>, hashes: map<string, string>, entries: seq<Keyed>,
                       hash: RecordHash, keyOf: RecordKey, k: string)
    requires HashableView(view, hash) && hashes == HashesOf(view, hash)
    requires Hashable(entries, hash) && KeyedBy(entries, keyOf)
    ensures var last := LastChanged(hashes, entries, hash, k);
            At(Incremental(view, hashes, entries, hash, keyOf), k)
            == if k !in View(entries) then None else if last.Some? then last else At(view, k)
  {
    NextHashesOfView(entries, hash);
    OverwriteChangedAt(view, hashes, entries, hash, keyOf, k);
    LastChangedIs(hashes, entries, hash, k);
  }

  /** One key: what was recorded, what is wanted and the last changed value decide. */
  lemma PointExact(recorded: Option<Record>, want: Option<Record>, last: Option<Record>, digest: string,
                   hash: RecordHash)
    requires Collisionless(hash) && (want.Some? ==> hash(want.value).Some?)
    requires if recorded.Some? then hash(recorded.value) == Some(digest) else digest == ""
    requires last.Some? ==> hash(last.value) != Some(digest)
    requires want.Some? && hash(want.value) != Some(digest) ==> last == want
    ensures var got := if want.None? then None else if last.Some? then last else recorded;
            if want.Some? && hash(want.value) == Some(digest) then got == want <==> last.None? else got == want
  {
  }

  /** What a receiver holds at one key after applying the incremental delta. */
  lemma IncrementalAt(view: map<string, Record>, hashes: map<string, string>, entries: seq<Keyed>,
                      hash: RecordHash, keyOf: RecordKey, k: string)
    requires Collisionless(hash)
    requires HashableView(view, hash) && hashes == HashesOf(view, hash)
    requires Hashable(entries, hash) && KeyedBy(entries, keyOf)
    ensures var got := At(Incremental(view, hashes, entries, hash, keyOf), k);
            var want := At(View(entries), k);
            if want.Some? && hash(want.value) == Some(Digest(hashes, k))
            then got == want <==> Steady(hashes, entries, hash, k)
            else got == want
  {
    IncrementalGot(view, hashes, entries, hash, keyOf, k);
    LastChangedIs(hashes, entries, hash, k);
    NextHashesOfView(entries, hash);
    PointExact(At(view, k), At(View(entries), k), LastChanged(hashes, entries, hash, k), Digest(hashes, k), hash);
  }

  lemma IncrementalExact(view: map<string, Record>, hashes: map<string, string>, entries: seq<Keyed>,
                                  hash: RecordHash, keyOf: RecordKey)
    requires Collisionless(hash)
    requires HashableView(view, hash) && hashes == HashesOf(view, hash)
    requires Hashable(entries, hash) && KeyedBy(entries, keyOf)
    ensures Incremental(view, hashes, entries, hash, keyOf) == View(entries) <==> Unmasked(hashes, entries, hash)
  {
    var got, want := Incremental(view, hashes, entries, hash, keyOf), View(entries);
    forall k
      ensures At(got, k) == At(want, k) <==>
              (k in want && hash(want[k]) == Some(Digest(hashes, k)) ==> Steady(hashes, entries, hash, k))
    {
      IncrementalAt(view, hashes, entries, hash, keyOf, k);
    }
    MapsEqual(got, want);
  }

  lemma MapsEqual(a: map<string, Record>, b: map<string, Record>)
    ensures a == b <==> forall k :: At(a, k) == At(b, k)
  {
    if forall k :: At(a, k) == At(b, k) {
      assert forall k :: k in a <==> At(a, k).Some?;
      assert forall k :: k in b <==> At(b, k).Some?;
      forall k | k in a ensures k in b && a[k] == b[k] { assert At(a, k) == At(b, k); }
      assert a.Keys == b.Keys;
    }
  }

  /** The delta is exact for a receiver that holds the recorded values if and only
      if the family is due in full or no duplicate key masks a return to the
      remembered digest. */
  lemma DeltaExact(view: map<string, Record>, previous: FamilySync, entries: seq<Keyed>, now: int,
                            hash: RecordHash, keyOf: RecordKey)
    requires Collisionless(hash)
    requires HashableView(view, hash) && previous.hashes == HashesOf(view, hash)
    requires Hashable(entries, hash) && KeyedBy(entries, keyOf)
    ensures var family := DeltaOf(previous, entries, now, hash).family;
            (if family.Some? then Apply(view, family.value, keyOf) else view) == View(entries)
            <==> DueFull(previous, now) || Unmasked(previous.hashes, entries, hash)
  {
    var hashes := previous.hashes;
    var family := DeltaOf(previous, entries, now, hash).family;
    if DueFull(previous, now) {
      OverwriteAll(entries, keyOf);
    } else {
      IncrementalExact(view, hashes, entries, hash, keyOf);
      var gone := hashes.Keys - NextHashes(entries, hash).Keys;
      assert (set k | k in SortedKeys(gone)) == gone;
      if family.None? {
        assert SortedKeys(gone) == [] && gone == {};
        assert ChangedValues(hashes, entries, hash) == [];
      }
    }
  }

  lemma DistinctUnmasked(hashes: map<string, string>, entries: seq<Keyed>, hash: RecordHash)
    requires DistinctKeys(entries)
    ensures Unmasked(hashes, entries, hash)
  {
    ViewEntries(entries);
    forall e | e in entries ensures View(entries)[e.key] == e.value {
      var i :| 0 <= i < |entries| && entries[i] == e;
      var j :| 0 <= j < |entries| && entries[j] == Keyed(e.key, View(entries)[e.key]);
      assert i == j;
    }
  }

  /** A repeated key does mask: two values under one key, of which the last is the one
      recorded, leave the receiver with the other one. */
  lemma RepeatedKeyMasks(recorded: Record, other: Record, key: string, revision: nat, now: int, hash: RecordHash,
                         keyOf: RecordKey)
    requires Collisionless(hash) && hash(recorded).Some? && hash(other).Some? && recorded != other
    requires keyOf(recorded) == key == keyOf(other) && 0 < revision < MaxUint64
    ensures var previous := FamilySync(revision, map[key := hash(recorded).value], Some(now));
            var entries := [Keyed(key, other), Keyed(key, recorded)];
            var family := DeltaOf(previous, entries, now, hash).family;
            && !Unmasked(previous.hashes, entries, hash) && View(entries) == map[key := recorded]
            && family == Some(StateFamily(revision + 1, false, [other], []))
            && Apply(map[key := recorded], family.value, keyOf) == map[key := other]
  {
    var previous := FamilySync(revision, map[key := hash(recorded).value], Some(now));
    var first, last := Keyed(key, other), Keyed(key, recorded);
    var entries := [first, last];
    assert entries == [first] + [last];
    TwoEntries(first, last, previous.hashes, hash);
    assert entries[0] in entries && !Steady(previous.hashes, entries, hash, key);
    assert previous.hashes.Keys - NextHashes(entries, hash).Keys == {};
    assert Lists(SortedKeys({}), {}) && SortedKeys({}) == [];
    assert DeltaOf(previous, entries, now, hash).family == Some(StateFamily(revision + 1, false, [other], []));
    OverwriteOne(map[key := recorded], other, keyOf);
  }

  lemma OverwriteOne(view: map<string, Record>, value: Record, keyOf: RecordKey)
    ensures Overwrite(view, [value], keyOf) == view[keyOf(value) := value]
  {
    assert [value][..0] == [];
  }

  lemma TwoEntries(first: Keyed, last: Keyed, hashes: map<string, string>, hash: RecordHash)
    requires hash(first.value).Some? && hash(last.value).Some?
    requires Digest(hashes, first.key) != hash(first.value).value && Digest(hashes, last.key) == hash(last.value).value
    ensures View([first] + [last]) == map[first.key := first.value][last.key := last.value]
    ensures ChangedValues(hashes, [first] + [last], hash) == [first.value]
    ensures NextHashes([first] + [last], hash)
            == map[first.key := hash(first.value).value][last.key := hash(last.value).value]
  {
    var one, two := [first], [first] + [last];
    assert one[..0] == [] && two[..1] == one;
    assert View(one) == map[first.key := first.value];
    assert ChangedValues(hashes, one, hash) == [first.value];
    assert NextHashes(one, hash) == map[first.key := hash(first.value).value];
  }

  lemma {:induction false} UnchangedDigests(hashes: map<string, string>, entries: seq<Keyed>, hash: RecordHash)
    requires Collisionless(hash) && Hashable(entries, hash)
    requires ChangedValues(hashes, entries, hash) == []
    ensures forall k :: k in NextHashes(entries, hash) ==> k in hashes && hashes[k] == NextHashes(entries, hash)[k]
  {
    if entries != [] {
      UnchangedDigests(hashes, entries[..|entries| - 1], hash);
    }
  }

  /** An omitted family means the recorded digests did not change; a sent one
      carries the next revision, and after any successful call the family was
      sent in full less than six hours ago. */
  lemma DeltaRecords(previous: FamilySync, entries: seq<Keyed>, now: int, hash: RecordHash)
    requires Collisionless(hash)
    requires DeltaOf(previous, entries, now, hash).ok
    ensures var d := DeltaOf(previous, entries, now, hash);
            && Hashable(entries, hash) && d.next.hashes == NextHashes(entries, hash)
            && (d.family.None? ==> d.next == previous)
            && (d.family.Some? ==> d.family.value.revision == d.next.revision == NextRevision(previous.revision))
            && d.next.lastFullAt.Some? && now - d.next.lastFullAt.value < FullReconciliationInterval
  {
    var d := DeltaOf(previous, entries, now, hash);
    if d.family.None? {
      UnchangedDigests(previous.hashes, entries, hash);
      var removed := previous.hashes.Keys - d.next.hashes.Keys;
      assert Lists(SortedKeys(removed), removed);
      assert SortedKeys(removed) == [];
      forall k | k in previous.hashes ensures k in d.next.hashes { assert k !in SortedKeys(removed); }
      assert previous.hashes == d.next.hashes;
    }
  }

  /** A family that is due is sent in full with every value. */
  lemma DueIsFull(previous: FamilySync, entries: seq<Keyed>, now: int, hash: RecordHash)
    requires Collisionless(hash) && DeltaOf(previous, entries, now, hash).ok
    ensures var d := DeltaOf(previous, entries, now, hash);
            && d.next.lastFullAt.Some? && now - d.next.lastFullAt.value < FullReconciliationInterval
            && (DueFull(previous, now) <==> d.family.Some? && d.family.value.full)
            && (DueFull(previous, now) ==> d.family.value.changed == Values(entries))
  {
  }
}
