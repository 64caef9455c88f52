/**
 The on-disk heartbeat queue: a directory of entries named by sequence, a sample
 and byte limit, and a persisted counter of dropped samples.
 */
module Buffer {
  import opened Prelude
  import opened Protocol

  datatype Limits = Limits(samples: int, bytes: int)

  /** A queued body, its length in bytes as stored, and that of the text inside. */
  datatype Stored = Stored(body: Heartbeat, size: nat, decompressed: nat)

  datatype Entry = Entry(sequence: nat, file: Stored)

  /** Which file-system calls of one queue operation fail. `failRemoval` names the
      first removal that fails, counting from 0. */
  datatype Faults = Faults(stat: bool, write: bool, list: bool, failRemoval: Option<nat>, metadataRead: bool,
                           metadataWrite: bool)

  // ---------- Specification ----------

  /** The queue as a value: its entries in ascending sequence, its limits and its counter. */
  datatype QueueState = QueueState(entries: seq<Entry>, limits: Limits, dropped: nat)

  datatype QueueResult = QueueResult(state: QueueState, dropped: nat, ok: bool)

  predicate ValidLimits(limits: Limits) {
    limits.samples >= 1 && limits.bytes >= 1
  }

  predicate Ascending(entries: seq<Entry>) {
    forall i, j :: 0 <= i < j < |entries| ==> entries[i].sequence < entries[j].sequence
  }

  predicate ValidQueue(q: QueueState) {
    Ascending(q.entries) && ValidLimits(q.limits)
  }

  function TotalBytes(entries: seq<Entry>): nat {
    if entries == [] then 0 else entries[0].file.size + TotalBytes(entries[1..])
  }

  predicate Fits(entries: seq<Entry>, limits: Limits) {
    |entries| <= limits.samples && TotalBytes(entries) <= limits.bytes
  }

  /** How many of the oldest entries have to go. */
  function Excess(entries: seq<Entry>, limits: Limits): (n: nat)
    ensures n <= |entries|
  {
    if entries == [] || Fits(entries, limits) then 0 else 1 + Excess(entries[1..], limits)
  }

  function Enforce(q: QueueState, faults: Faults): QueueResult
  {
    var n := Excess(q.entries, q.limits);
    if faults.failRemoval.Some? && faults.failRemoval.value < n then
      var k := faults.failRemoval.value;
      QueueResult(q.(entries := q.entries[k..]), k, false)
    else
      var kept := q.(entries := q.entries[n..]);
      if n == 0 then QueueResult(kept, 0, true)
      else if faults.metadataRead || faults.metadataWrite then QueueResult(kept, n, false)
      else QueueResult(kept.(dropped := q.dropped + n), n, true)
  }

  predicate HasSequence(entries: seq<Entry>, sequence: nat) {
    exists i :: 0 <= i < |entries| && entries[i].sequence == sequence
  }

  /** Does an Add get as far as writing the entry? */
  predicate Stores(q: QueueState, e: Entry, faults: Faults) {
    && e.sequence != 0 && e.file.size != 0 && e.file.size <= q.limits.bytes
    && !HasSequence(q.entries, e.sequence) && !faults.stat && !faults.write
  }

  function Insert(entries: seq<Entry>, e: Entry): (r: seq<Entry>)
    ensures |r| == |entries| + 1
  {
    if entries == [] then [e]
    else if e.sequence < entries[0].sequence then [e] + entries
    else [entries[0]] + Insert(entries[1..], e)
  }

  function AddTo(q: QueueState, e: Entry, faults: Faults): QueueResult
  {
    if e.sequence == 0 || e.file.size == 0 then QueueResult(q, 0, false)
    else if e.file.size > q.limits.bytes then QueueResult(q, 0, false)
    else if HasSequence(q.entries, e.sequence) || faults.stat then QueueResult(q, 0, false)
    else if faults.write then QueueResult(q, 0, false)
    else
      var added := q.(entries := Insert(q.entries, e));
      if faults.list then QueueResult(added, 0, false) else Enforce(added, faults)
  }

  function LimitTo(q: QueueState, limits: Limits, faults: Faults): QueueResult {
    if !ValidLimits(limits) then QueueResult(q, 0, false)
    else
      var limited := q.(limits := limits);
      if faults.list then QueueResult(limited, 0, false) else Enforce(limited, faults)
  }

  function Without(entries: seq<Entry>, sequence: nat): seq<Entry> {
    if entries == [] then []
    else if entries[0].sequence == sequence then entries[1..]
    else [entries[0]] + Without(entries[1..], sequence)
  }

  function Acknowledged(dropped: nat, count: nat): nat {
    if count >= dropped then 0 else dropped - count
  }

  // ---------- What limit enforcement keeps ----------

  /** An Add that does not get as far as writing changes nothing. */
  lemma AddRefused(q: QueueState, e: Entry, faults: Faults)
    requires !Stores(q, e, faults)
    ensures AddTo(q, e, faults) == QueueResult(q, 0, false)
  {
  }

  lemma AddKeepsLimits(q: QueueState, e: Entry, faults: Faults)
    ensures AddTo(q, e, faults).state.limits == q.limits
  {
  }

  lemma {:induction false} TotalSuffix(entries: seq<Entry>, i: nat, j: nat)
    requires i <= j <= |entries|
    ensures TotalBytes(entries[j..]) <= TotalBytes(entries[i..])
    decreases j - i
  {
    if i < j {
      TotalSuffix(entries, i + 1, j);
      assert entries[i..][1..] == entries[i + 1..];
    }
  }

  /** Enforcement keeps exactly the longest suffix that fits both limits: it fits,
      and no longer suffix does. */
  lemma {:induction false} KeepsLongestSuffix(entries: seq<Entry>, limits: Limits)
    requires ValidLimits(limits)
    ensures Fits(entries[Excess(entries, limits)..], limits)
    ensures forall k :: 0 <= k < Excess(entries, limits) ==> !Fits(entries[k..], limits)
    ensures forall k :: Excess(entries, limits) <= k <= |entries| ==> Fits(entries[k..], limits)
  {
    var n := Excess(entries, limits);
    if n > 0 {
      KeepsLongestSuffix(entries[1..], limits);
      forall k | 0 <= k <= |entries| ensures k > 0 ==> entries[1..][k - 1..] == entries[k..] {}
      assert entries[0..] == entries;
      forall k | 0 < k <= |entries|
        ensures k < n ==> !Fits(entries[k..], limits)
        ensures n <= k ==> Fits(entries[k..], limits)
      {
        assert entries[1..][k - 1..] == entries[k..];
      }
    } else {
      forall k | 0 <= k <= |entries| ensures Fits(entries[k..], limits) {
        TotalSuffix(entries, 0, k);
        assert entries[0..] == entries;
      }
    }
  }

  /** Entries are conserved: every entry removed by a limit is counted, exactly
      when no removal was cut short and the counter could be rewritten. */
  lemma EnforceConserves(q: QueueState, faults: Faults)
    requires ValidQueue(q)
    ensures var r := Enforce(q, faults);
            && r.state.entries == q.entries[r.dropped..] && r.dropped <= |q.entries|
            && (r.state.dropped - q.dropped == |q.entries| - |r.state.entries| <==> r.ok || r.dropped == 0)
            && (r.ok ==> Fits(r.state.entries, q.limits))
  {
    KeepsLongestSuffix(q.entries, q.limits);
  }

  lemma {:induction false} InsertGreatest(entries: seq<Entry>, e: Entry)
    requires forall i :: 0 <= i < |entries| ==> entries[i].sequence < e.sequence
    ensures Insert(entries, e) == entries + [e]
  {
    if entries != [] {
      InsertGreatest(entries[1..], e);
    }
  }

  /** An ascending list is its head followed by an ascending list above it. */
  lemma AscendingCons(head: Entry, tail: seq<Entry>)
    ensures Ascending([head] + tail) <==> Ascending(tail) && forall x :: x in tail ==> head.sequence < x.sequence
  {
    var all := [head] + tail;
    if Ascending(all) {
      assert forall i :: 0 <= i < |tail| ==> tail[i] == all[i + 1];
      forall x | x in tail ensures head.sequence < x.sequence {
        var i :| 0 <= i < |tail| && tail[i] == x;
        assert all[0].sequence < all[i + 1].sequence;
      }
    }
    if Ascending(tail) && forall x :: x in tail ==> head.sequence < x.sequence {
      forall i, j | 0 <= i < j < |all| ensures all[i].sequence < all[j].sequence {
        assert all[j] == tail[j - 1];
        if i > 0 {
          assert all[i] == tail[i - 1];
        } else {
          assert all[j] in tail;
        }
      }
    }
  }

  lemma {:induction false} InsertAscending(entries: seq<Entry>, e: Entry)
    requires Ascending(entries) && !HasSequence(entries, e.sequence)
    ensures Ascending(Insert(entries, e))
    ensures forall x :: x in Insert(entries, e) <==> x in entries || x == e
  {
    if entries != [] {
      var head, tail := entries[0], entries[1..];
      assert entries == [head] + tail && head.sequence != e.sequence;
      AscendingCons(head, tail);
      if e.sequence < head.sequence {
        AscendingCons(e, entries);
      } else {
        assert forall i :: 0 <= i < |tail| ==> tail[i] == entries[i + 1];
        InsertAscending(tail, e);
        AscendingCons(head, Insert(tail, e));
      }
    }
  }

  lemma {:induction false} ExcessSpares(entries: seq<Entry>, limits: Limits)
    requires ValidLimits(limits) && entries != [] && entries[|entries| - 1].file.size <= limits.bytes
    ensures Excess(entries, limits) < |entries|
  {
    if |entries| > 1 {
      ExcessSpares(entries[1..], limits);
    } else {
      assert TotalBytes(entries[1..]) == 0;
    }
  }

  /** An Add whose sequence is the greatest keeps its own entry whenever it was written,
      also when what follows the writing fails; only oldest entries make room for it. */
  lemma AddKeepsNewest(q: QueueState, e: Entry, faults: Faults)
    requires ValidQueue(q)
    requires forall i :: 0 <= i < |q.entries| ==> q.entries[i].sequence < e.sequence
    requires Stores(q, e, faults)
    ensures var kept := AddTo(q, e, faults).state.entries;
            && 0 < |kept| <= |q.entries| + 1 && kept[|kept| - 1] == e
            && kept == (q.entries + [e])[|q.entries| + 1 - |kept|..]
  {
    InsertGreatest(q.entries, e);
    ExcessSpares(q.entries + [e], q.limits);
  }

  /** What successful enforcement leaves of the entries and the counter: the longest suffix
      within the limits, with everything before it counted. */
  ghost predicate Enforced(all: seq<Entry>, limits: Limits, dropped: nat, r: QueueResult) {
    && r.dropped <= |all| && r.state.entries == all[r.dropped..]
    && Fits(r.state.entries, limits) && (forall k :: 0 <= k < r.dropped ==> !Fits(all[k..], limits))
    && r.state.dropped == dropped + r.dropped
  }

  lemma EnforceExact(q: QueueState, faults: Faults)
    requires ValidLimits(q.limits)
    ensures var r := Enforce(q, faults);
            r.state.limits == q.limits && (r.ok ==> Enforced(q.entries, q.limits, q.dropped, r))
    ensures Enforce(q, faults).ok
            <==> || Fits(q.entries, q.limits)
                 || (!faults.metadataRead && !faults.metadataWrite
                     && (faults.failRemoval.Some? ==>
                         Fits(q.entries[Least(faults.failRemoval.value, |q.entries|)..], q.limits)))
  {
    KeepsLongestSuffix(q.entries, q.limits);
    assert q.entries[0..] == q.entries;
  }

  function Least(a: nat, b: nat): nat {
    if a < b then a else b
  }

  /** Setting valid limits keeps them whatever fails, and on success the queue is the
      longest suffix within the new limits, with the rest counted; invalid limits change
      nothing. */
  lemma LimitEnforces(q: QueueState, limits: Limits, faults: Faults)
    ensures var r := LimitTo(q, limits, faults);
            if ValidLimits(limits) then
              && r.state.limits == limits && (r.ok ==> Enforced(q.entries, limits, q.dropped, r))
            else r == QueueResult(q, 0, false)
  {
    if ValidLimits(limits) {
      EnforceExact(q.(limits := limits), faults);
    }
  }

  /** A successful Add leaves the longest suffix of the queue with the new entry, within
      the limits, with the rest counted. */
  lemma AddEnforces(q: QueueState, e: Entry, faults: Faults)
    requires ValidQueue(q) && AddTo(q, e, faults).ok
    ensures var all := Insert(q.entries, e);
            && Ascending(all) && (forall x :: x in all <==> x in q.entries || x == e)
            && Enforced(all, q.limits, q.dropped, AddTo(q, e, faults))
            && AddTo(q, e, faults).state.limits == q.limits
  {
    InsertAscending(q.entries, e);
    EnforceExact(q.(entries := Insert(q.entries, e)), faults);
  }

  /** Removing a sequence removes that entry and nothing else. */
  lemma {:induction false} WithoutExact(entries: seq<Entry>, sequence: nat)
    requires Ascending(entries)
    ensures Ascending(Without(entries, sequence))
    ensures forall x :: x in Without(entries, sequence) <==> x in entries && x.sequence != sequence
  {
    if entries != [] {
      var head, tail := entries[0], entries[1..];
      assert entries == [head] + tail;
      AscendingCons(head, tail);
      if head.sequence != sequence {
        WithoutExact(tail, sequence);
        AscendingCons(head, Without(tail, sequence));
        assert Without(entries, sequence) == [head] + Without(tail, sequence);
      } else {
        assert Without(entries, sequence) == tail;
      }
    }
  }

  // ---------- The directory ----------

  /** `entries` lists the directory in ascending sequence. */
  ghost predicate Listing(entries: seq<Entry>, files: map<nat, Stored>) {
    && Ascending(entries)
    && (forall e :: e in entries ==> e.sequence in files && files[e.sequence] == e.file)
    && (forall s :: s in files ==> Entry(s, files[s]) in entries)
  }

  lemma {:induction false} ListingUnique(a: seq<Entry>, b: seq<Entry>, files: map<nat, Stored>)
    requires Listing(a, files) && Listing(b, files)
    ensures a == b
    decreases |a|
  {
    assert b == [] || b[0] in b;
    if a != [] {
      assert a[0] in b && b[0] in a by { assert a[0] in a; }
      assert a == [a[0]] + a[1..] && b == [b[0]] + b[1..];
      AscendingCons(a[0], a[1..]);
      AscendingCons(b[0], b[1..]);
      assert a[0] == b[0];
      ListingTail(a, files);
      ListingTail(b, files);
      ListingUnique(a[1..], b[1..], files - {a[0].sequence});
    }
  }

  lemma ListingTail(a: seq<Entry>, files: map<nat, Stored>)
    requires Listing(a, files) && a != []
    ensures Listing(a[1..], files - {a[0].sequence})
  {
    assert a == [a[0]] + a[1..];
    AscendingCons(a[0], a[1..]);
    assert a[0] in a;
  }

  lemma ListingInsert(a: seq<Entry>, files: map<nat, Stored>, e: Entry)
    requires Listing(a, files) && e.sequence !in files
    ensures !HasSequence(a, e.sequence) && Listing(Insert(a, e), files[e.sequence := e.file])
  {
    ListingHas(a, files, e.sequence);
    InsertAscending(a, e);
    var more := files[e.sequence := e.file];
    forall x | x in Insert(a, e) ensures x.sequence in more && more[x.sequence] == x.file {
      assert x in a || x == e;
    }
    forall s | s in more ensures Entry(s, more[s]) in Insert(a, e) {
      assert s != e.sequence ==> Entry(s, files[s]) in a;
      assert s == e.sequence ==> Entry(s, more[s]) == e;
    }
  }

  lemma ListingHas(a: seq<Entry>, files: map<nat, Stored>, sequence: nat)
    requires Listing(a, files)
    ensures sequence in files <==> HasSequence(a, sequence)
  {
    if sequence in files {
      var i :| 0 <= i < |a| && a[i] == Entry(sequence, files[sequence]);
    }
    if HasSequence(a, sequence) {
      var i :| 0 <= i < |a| && a[i].sequence == sequence;
      assert a[i] in a;
    }
  }

  lemma ListingWithout(a: seq<Entry>, files: map<nat, Stored>, sequence: nat)
    requires Listing(a, files)
    ensures Listing(Without(a, sequence), files - {sequence})
  {
    WithoutExact(a, sequence);
    var fewer := files - {sequence};
    forall e | e in Without(a, sequence) ensures e.sequence in fewer && fewer[e.sequence] == e.file {
      assert e in a;
    }
    forall s | s in fewer ensures Entry(s, fewer[s]) in Without(a, sequence) {
      assert Entry(s, files[s]) in a;
    }
  }

  /** The directory's entries in ascending sequence. */
  ghost function Sorted(files: map<nat, Stored>): seq<Entry>
    decreases |files|
  {
    if files == map[] then []
    else
      var s :| s in files;
      Insert(Sorted(files - {s}), Entry(s, files[s]))
  }

  lemma {:induction false} SortedLists(files: map<nat, Stored>)
    ensures Listing(Sorted(files), files)
    decreases |files|
  {
    if files != map[] {
      var s :| s in files && Sorted(files) == Insert(Sorted(files - {s}), Entry(s, files[s]));
      var fewer, e := files - {s}, Entry(s, files[s]);
      SortedLists(fewer);
      ListingInsert(Sorted(fewer), fewer, e);
      assert fewer[e.sequence := e.file] == files;
      assert Listing(Insert(Sorted(fewer), e), files);
    }
  }

  lemma SortedInsert(files: map<nat, Stored>, e: Entry)
    requires e.sequence !in files
    ensures Sorted(files[e.sequence := e.file]) == Insert(Sorted(files), e)
  {
    var more := files[e.sequence := e.file];
    SortedLists(files);
    SortedLists(more);
    ListingInsert(Sorted(files), files, e);
    ListingUnique(Sorted(more), Insert(Sorted(files), e), more);
  }

  lemma SortedWithout(files: map<nat, Stored>, sequence: nat)
    ensures Sorted(files - {sequence}) == Without(Sorted(files), sequence)
  {
    var fewer := files - {sequence};
    SortedLists(files);
    SortedLists(fewer);
    ListingWithout(Sorted(files), files, sequence);
    ListingUnique(Sorted(fewer), Without(Sorted(files), sequence), fewer);
  }

  lemma SortedHas(files: map<nat, Stored>, sequence: nat)
    ensures sequence in files <==> HasSequence(Sorted(files), sequence)
  {
    SortedLists(files);
    ListingHas(Sorted(files), files, sequence);
  }

  /** One turn of the drop loop on a list that does not fit. */
  lemma DropOldest(entries: seq<Entry>, limits: Limits)
    requires ValidLimits(limits) && (|entries| > limits.samples || TotalBytes(entries) > limits.bytes)
    ensures entries != []
    ensures TotalBytes(entries[1..]) == TotalBytes(entries) - entries[0].file.size
    ensures Excess(entries[1..], limits) == Excess(entries, limits) - 1
    ensures Without(entries, entries[0].sequence) == entries[1..]
  {
  }

  // ---------- The queue object ----------

  class Queue {
    var files: map<nat, Stored>
    var limits: Limits
    var dropped: nat

    ghost predicate Valid()
      reads this
    {
      ValidLimits(limits)
    }

    ghost function State(): (q: QueueState)
      reads this
    {
      QueueState(Sorted(files), limits, dropped)
    }

    /** `Open` on an existing directory. */
    constructor (files: map<nat, Stored>, limits: Limits, dropped: nat)
      requires ValidLimits(limits)
      ensures Valid() && State() == QueueState(Sorted(files), limits, dropped)
    {
      this.files, this.limits, this.dropped := files, limits, dropped;
    }

    /** Reads the directory in any order and sorts by sequence. */
    method Entries() returns (entries: seq<Entry>)
      ensures entries == State().entries
    {
      entries := [];
      ghost var done: map<nat, Stored> := map[];
      var todo := files.Keys;
      while todo != {}
        invariant todo <= files.Keys
        invariant done == map s | s in files && s !in todo :: files[s]
        invariant entries == Sorted(done)
        decreases todo
      {
        var s :| s in todo;
        SortedInsert(done, Entry(s, files[s]));
        entries := Insert(entries, Entry(s, files[s]));
        done := done[s := files[s]];
        todo := todo - {s};
      }
      assert done == files;
    }

    method Add(entry: Entry, faults: Faults) returns (droppedNow: nat, ok: bool)
      requires Valid()
      modifies this
      ensures Valid()
      ensures AddTo(old(State()), entry, faults) == QueueResult(State(), droppedNow, ok)
    {
      if entry.sequence == 0 || entry.file.size == 0 {
        return 0, false;
      }
      if entry.file.size > limits.bytes {
        return 0, false;
      }
      SortedHas(files, entry.sequence);
      if entry.sequence in files || faults.stat {
        return 0, false;
      }
      if faults.write {
        return 0, false;
      }
      SortedInsert(files, entry);
      files := files[entry.sequence := entry.file];
      if faults.list {
        return 0, false;
      }
      var entries := Entries();
      droppedNow, ok := EnforceLimits(entries, faults);
    }

    method EnforceLimits(all: seq<Entry>, faults: Faults) returns (droppedNow: nat, ok: bool)
      requires Valid() && all == State().entries
      modifies this
      ensures Valid()
      ensures Enforce(old(State()), faults) == QueueResult(State(), droppedNow, ok)
    {
      var total := 0;
      for i := 0 to |all|
        invariant total == TotalBytes(all) - TotalBytes(all[i..])
      {
        assert all[i..][1..] == all[i + 1..];
        total := total + all[i].file.size;
      }
      droppedNow, ok := DropExcess(all, total, faults);
      if !ok {
        return;
      }
      if droppedNow > 0 {
        if faults.metadataRead || faults.metadataWrite {
          return droppedNow, false;
        }
        dropped := dropped + droppedNow;
      }
    }

    /** The drop loop: removes oldest entries until the rest fits. */
    method DropExcess(all: seq<Entry>, bytes: int, faults: Faults) returns (droppedNow: nat, ok: bool)
      requires Valid() && all == Sorted(files) && bytes == TotalBytes(all)
      modifies this`files
      ensures droppedNow <= |all| && Sorted(files) == all[droppedNow..]
      ensures ok <==> !(faults.failRemoval.Some? && faults.failRemoval.value < Excess(all, limits))
      ensures droppedNow == if ok then Excess(all, limits) else faults.failRemoval.value
    {
      var entries, total := all, bytes;
      droppedNow := 0;
      while |entries| > limits.samples || total > limits.bytes
        invariant droppedNow <= |all| && entries == all[droppedNow..] && total == TotalBytes(entries)
        invariant Excess(entries, limits) == Excess(all, limits) - droppedNow
        invariant faults.failRemoval.Some? ==> droppedNow <= faults.failRemoval.value
        invariant entries == Sorted(files)
        decreases |entries|
      {
        DropOldest(entries, limits);
        var oldest := entries[0];
        if faults.failRemoval.Some? && faults.failRemoval.value == droppedNow {
          return droppedNow, false;
        }
        SortedWithout(files, oldest.sequence);
        files := files - {oldest.sequence};
        total := total - oldest.file.size;
        entries := entries[1..];
        droppedNow := droppedNow + 1;
      }
      ok := true;
    }

    method SetLimits(limits: Limits, faults: Faults) returns (droppedNow: nat, ok: bool)
      requires Valid()
      modifies this
      ensures Valid()
      ensures LimitTo(old(State()), limits, faults) == QueueResult(State(), droppedNow, ok)
    {
      if limits.samples < 1 || limits.bytes < 1 {
        return 0, false;
      }
      this.limits := limits;
      if faults.list {
        return 0, false;
      }
      var entries := Entries();
      droppedNow, ok := EnforceLimits(entries, faults);
    }

    /** `works` is false when the file cannot be removed; a missing one is no error. */
    method Remove(sequence: nat, works: bool) returns (ok: bool)
      requires Valid()
      modifies this
      ensures Valid() && ok == works
      ensures State() == if ok then old(State()).(entries := Without(old(State()).entries, sequence)) else old(State())
    {
      if !works {
        return false;
      }
      SortedWithout(files, sequence);
      files := files - {sequence};
      ok := true;
    }

    /** `works` is false when the counter cannot be read or rewritten. */
    method AcknowledgeDropped(count: nat, works: bool) returns (ok: bool)
      requires Valid()
      modifies this
      ensures Valid() && ok == (count == 0 || works)
      ensures State() == if ok then old(State()).(dropped := Acknowledged(old(dropped), count)) else old(State())
    {
      if count == 0 {
        return true;
      }
      if !works {
        return false;
      }
      if count >= dropped {
        dropped := 0;
      } else {
        dropped := dropped - count;
      }
      ok := true;
    }
  }
}
