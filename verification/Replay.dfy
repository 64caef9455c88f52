/**
 One state family over a whole run, as the agent, its sync file, the network and
 a receiver see it. The network may lose, delay, reorder and repeat families.
 */
module Replay {
  import opened Prelude
  import opened Protocol
  import opened Delta

  type Snapshot = map<string, Record>

  /** `memory` and `disk` are the agent's remembered state and the one its sync
      file would load; `log` is what it recorded at each revision; `sent` are the
      families ever queued. */
  datatype Track = Track(memory: FamilySync, disk: FamilySync, log: map<nat, Snapshot>, sent: set<StateFamily>,
                         receiver: Receiver)

  const Fresh := Track(NoFamily, NoFamily, map[0 := map[]], {}, Receiver(0, map[]))

  /** The family reproduces the recorded values at its revision: from nothing when
      full, otherwise from the recorded values of the revision before. */
  ghost predicate Faithful(log: map<nat, Snapshot>, family: StateFamily, keyOf: RecordKey) {
    && family.revision >= 1 && family.revision in log
    && (if family.full then Apply(map[], family, keyOf) == log[family.revision]
        else family.revision - 1 in log && Apply(log[family.revision - 1], family, keyOf) == log[family.revision])
  }

  ghost predicate Sound(t: Track, hash: RecordHash, keyOf: RecordKey) {
    && (forall r: nat :: r <= t.memory.revision ==> r in t.log)
    && (forall r :: r in t.log ==> HashableView(t.log[r], hash))
    && t.log[0] == map[]
    && t.memory.hashes == HashesOf(t.log[t.memory.revision], hash)
    && t.disk.revision <= t.memory.revision && t.disk.hashes == HashesOf(t.log[t.disk.revision], hash)
    && (forall m :: m in t.sent ==> m.revision <= t.memory.revision && Faithful(t.log, m, keyOf))
    && t.receiver.revision <= t.memory.revision && t.receiver.view == t.log[t.receiver.revision]
    && (t.receiver.revision == 0 || exists m :: m in t.sent && m.revision == t.receiver.revision)
  }

  // ---------- Steps ----------

  /** Every family ever queued has a revision the sync file already covers. */
  ghost predicate NoRollback(t: Track) {
    forall m :: m in t.sent ==> m.revision <= t.disk.revision
  }

  /** The result of a build: a new revision is logged with the values it stands for. */
  ghost function Build(t: Track, entries: seq<Keyed>, now: int, hash: RecordHash): Track {
    var d := DeltaOf(t.memory, entries, now, hash);
    t.(memory := d.next,
       log := if d.ok && d.family.Some? then t.log[d.next.revision := View(entries)] else t.log)
  }

  ghost function Emit(t: Track, family: StateFamily): Track {
    t.(sent := t.sent + {family})
  }

  function Persist(t: Track): Track {
    t.(disk := t.memory)
  }

  /** A reconcile request forgets when the family was last sent in full. */
  function Reconcile(t: Track): Track {
    t.(memory := t.memory.(lastFullAt := None))
  }

  function Deliver(t: Track, family: StateFamily, keyOf: RecordKey): Track {
    t.(receiver := Receive(t.receiver, family, keyOf))
  }

  function Restart(t: Track): Track {
    t.(memory := t.disk)
  }

  /** The sync file turns unreadable; it loads as if it had never been written. */
  function Garble(t: Track): Track {
    t.(disk := NoFamily)
  }

  // ---------- Every step keeps the receiver honest ----------

  lemma FreshSound(hash: RecordHash, keyOf: RecordKey)
    ensures Sound(Fresh, hash, keyOf)
  {
  }

  ghost predicate GoodInput(t: Track, entries: seq<Keyed>, now: int, hash: RecordHash, keyOf: RecordKey) {
    && KeyedBy(entries, keyOf)
    && (DueFull(t.memory, now) || Unmasked(t.memory.hashes, entries, hash))
  }

  lemma LogGrows(log: map<nat, Snapshot>, family: StateFamily, keyOf: RecordKey, r: nat, view: Snapshot)
    requires Faithful(log, family, keyOf) && family.revision < r
    ensures Faithful(log[r := view], family, keyOf)
  {
  }

  /** Logging `view` at the next revision. */
  lemma AdvanceSound(t: Track, next: FamilySync, view: Snapshot, hash: RecordHash, keyOf: RecordKey)
    requires Sound(t, hash, keyOf) && HashableView(view, hash)
    requires next.revision == t.memory.revision + 1 && next.hashes == HashesOf(view, hash)
    ensures Sound(t.(memory := next, log := t.log[next.revision := view]), hash, keyOf)
  {
    var log := t.log[next.revision := view];
    forall m | m in t.sent ensures m.revision <= next.revision && Faithful(log, m, keyOf) {
      LogGrows(t.log, m, keyOf, next.revision, view);
    }
  }

  /** A family that is sent is faithful to what it logs. */
  lemma SentFaithful(t: Track, entries: seq<Keyed>, now: int, hash: RecordHash, keyOf: RecordKey)
    requires Collisionless(hash) && Sound(t, hash, keyOf)
    requires GoodInput(t, entries, now, hash, keyOf) && t.memory.revision < MaxUint64
    requires var d := DeltaOf(t.memory, entries, now, hash); d.ok && d.family.Some?
    ensures var d := DeltaOf(t.memory, entries, now, hash);
            && d.family.value.revision == d.next.revision == t.memory.revision + 1
            && HashableView(View(entries), hash) && d.next.hashes == HashesOf(View(entries), hash)
            && Faithful(t.log[d.next.revision := View(entries)], d.family.value, keyOf)
  {
    DeltaRecords(t.memory, entries, now, hash);
    DeltaExact(t.log[t.memory.revision], t.memory, entries, now, hash, keyOf);
    NextHashesOfView(entries, hash);
  }

  /** A build keeps the track sound, and the family it produced is faithful. */
  lemma BuildSound(t: Track, entries: seq<Keyed>, now: int, hash: RecordHash, keyOf: RecordKey)
    requires Collisionless(hash) && Sound(t, hash, keyOf)
    requires GoodInput(t, entries, now, hash, keyOf)
    requires t.memory.revision < MaxUint64
    ensures Sound(Build(t, entries, now, hash), hash, keyOf)
    ensures var d := DeltaOf(t.memory, entries, now, hash);
            d.ok && d.family.Some? ==>
              d.family.value.revision == d.next.revision
              && Faithful(Build(t, entries, now, hash).log, d.family.value, keyOf)
  {
    var d := DeltaOf(t.memory, entries, now, hash);
    if d.ok && d.family.Some? {
      SentFaithful(t, entries, now, hash, keyOf);
      AdvanceSound(t, d.next, View(entries), hash, keyOf);
    } else {
      if d.ok {
        DeltaRecords(t.memory, entries, now, hash);
      }
      assert Build(t, entries, now, hash) == t;
    }
  }

  lemma EqualDigests(a: Snapshot, b: Snapshot, hash: RecordHash)
    requires Collisionless(hash) && HashableView(a, hash) && HashableView(b, hash)
    requires HashesOf(a, hash) == HashesOf(b, hash)
    ensures a == b
  {
    forall k | k in a ensures k in b && a[k] == b[k] {
      assert k in HashesOf(a, hash) && HashesOf(a, hash)[k] == HashesOf(b, hash)[k];
    }
    forall k | k in b ensures k in a {
      assert k in HashesOf(b, hash) && k in HashesOf(a, hash);
    }
  }

  /** What is recorded at the current revision are the values just built, even when
      the build left the family out. */
  lemma BuildCurrent(t: Track, entries: seq<Keyed>, now: int, hash: RecordHash, keyOf: RecordKey)
    requires Collisionless(hash) && Sound(t, hash, keyOf)
    requires DeltaOf(t.memory, entries, now, hash).ok
    ensures var t' := Build(t, entries, now, hash);
            t'.memory.revision in t'.log && t'.log[t'.memory.revision] == View(entries)
  {
    DeltaRecords(t.memory, entries, now, hash);
    NextHashesOfView(entries, hash);
    if DeltaOf(t.memory, entries, now, hash).family.None? {
      EqualDigests(t.log[t.memory.revision], View(entries), hash);
    }
  }

  lemma EmitSound(t: Track, family: StateFamily, hash: RecordHash, keyOf: RecordKey)
    requires Sound(t, hash, keyOf) && Faithful(t.log, family, keyOf) && family.revision <= t.memory.revision
    ensures Sound(Emit(t, family), hash, keyOf)
  {
    var t' := Emit(t, family);
    if t.receiver.revision != 0 {
      var m :| m in t.sent && m.revision == t.receiver.revision;
      assert m in t'.sent;
    }
  }

  lemma DeliverSound(t: Track, family: StateFamily, hash: RecordHash, keyOf: RecordKey)
    requires Sound(t, hash, keyOf) && family in t.sent
    ensures Sound(Deliver(t, family, keyOf), hash, keyOf)
  {
  }

  /** A restart keeps the track sound if and only if no queued family is ahead of
      what the sync file loads. */
  lemma RestartSound(t: Track, hash: RecordHash, keyOf: RecordKey)
    requires Sound(t, hash, keyOf)
    ensures Sound(Restart(t), hash, keyOf) <==> NoRollback(t)
  {
  }

  lemma PersistSound(t: Track, hash: RecordHash, keyOf: RecordKey)
    requires Sound(t, hash, keyOf)
    ensures Sound(Persist(t), hash, keyOf) && NoRollback(Persist(t))
    ensures Sound(Garble(t), hash, keyOf)
  {
  }

  /** Forgetting the last full sending and writing the sync file, in any mix. */
  lemma RewriteSound(t: Track, memory: FamilySync, disk: FamilySync, hash: RecordHash, keyOf: RecordKey)
    requires Sound(t, hash, keyOf)
    requires memory == t.memory || memory == t.memory.(lastFullAt := None)
    requires disk == t.disk || disk == memory
    ensures Sound(t.(memory := memory, disk := disk), hash, keyOf)
  {
  }

  /** What soundness means to a reader: the receiver holds exactly the values the
      agent recorded at the receiver's revision, and when it is at the agent's own
      revision these are the values behind the digests the agent remembers. */
  lemma ReceiverHonest(t: Track, hash: RecordHash, keyOf: RecordKey)
    requires Sound(t, hash, keyOf)
    ensures t.receiver.revision in t.log && t.receiver.view == t.log[t.receiver.revision]
    ensures t.receiver.revision == t.memory.revision ==>
              HashableView(t.receiver.view, hash) && HashesOf(t.receiver.view, hash) == t.memory.hashes
  {
  }

  lemma SingleView(e: Keyed)
    ensures View([e]) == map[e.key := e.value]
  {
    assert [e][..0] == [];
  }
}
