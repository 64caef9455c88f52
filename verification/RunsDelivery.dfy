/**
 Delivery over whole runs: every heartbeat added to the queue is still there, was
 confirmed, or was dropped by a limit; and the dropped counter is never more than
 what was really dropped since the last delivered heartbeat read it.
 */
module RunsDelivery {
  import opened Prelude
  import opened Protocol
  import opened AgentModel
  import opened Runs
  import opened Buffer
  import Identity

  // ---------- The queue and the numbering ----------

  /** No process hands out a sequence at or below that of an added entry. */
  ghost predicate Numbered(d: Identity.Device, added: set<Entry>) {
    && (d.file.None? ==> d.memory.None? && added == {})
    && (d.file.Some? ==> forall e :: e in added ==> e.sequence <= d.file.value.sequence)
    && (d.memory.Some? ==> d.file.Some? && d.memory.value.sequence <= d.file.value.sequence
                           && forall e :: e in added ==> e.sequence <= d.memory.value.sequence)
  }

  ghost predicate UniqueSequences(added: set<Entry>) {
    forall e, e' :: e in added && e' in added && e.sequence == e'.sequence ==> e == e'
  }

  /** Conservation: what was added is queued, delivered or lost, and nothing twice. */
  ghost predicate Partition(q: QueueState, l: Ledger) {
    && l.added == EntrySet(q.entries) + l.delivered + l.lost
    && EntrySet(q.entries) !! l.delivered && EntrySet(q.entries) !! l.lost && l.delivered !! l.lost
  }

  ghost predicate Delivered(w: World) {
    && ValidQueue(w.agent.queue)
    && Numbered(w.agent.device, w.ledger.added) && UniqueSequences(w.ledger.added)
    && Partition(w.agent.queue, w.ledger)
  }

  /** A queue with the entry just written to it. */
  function All(before: QueueState, queued: Option<Entry>): seq<Entry> {
    before.entries + (if queued.Some? then [queued.value] else [])
  }

  lemma EntrySetConcat(a: seq<Entry>, b: seq<Entry>)
    ensures EntrySet(a + b) == EntrySet(a) + EntrySet(b)
  {
  }

  /** In an ascending queue a prefix and the rest share no entry. */
  lemma SplitDisjoint(entries: seq<Entry>, k: nat)
    requires Ascending(entries) && k <= |entries|
    ensures EntrySet(entries) == EntrySet(entries[..k]) + EntrySet(entries[k..])
    ensures EntrySet(entries[..k]) !! EntrySet(entries[k..])
    ensures Ascending(entries[k..])
  {
    assert entries == entries[..k] + entries[k..];
    EntrySetConcat(entries[..k], entries[k..]);
    forall e | e in entries[..k] ensures e !in entries[k..] {
      var i :| 0 <= i < k && entries[i] == e;
      assert forall j :: 0 <= j < |entries| - k ==> entries[k..][j] == entries[k + j];
    }
  }

  // ---------- What the queue operations do ----------

  /** Enforcement removed the `k` oldest entries and counted them, or counted nothing. */
  ghost predicate Trimmed(before: QueueState, all: seq<Entry>, after: QueueState, k: nat) {
    && k <= |all| && after.entries == all[k..]
    && (after.dropped == before.dropped + k || after.dropped == before.dropped)
  }

  lemma EnforceTrims(q: QueueState, faults: Faults)
    ensures var r := Enforce(q, faults);
            && Trimmed(q, q.entries, r.state, r.dropped)
            && (CountingFaults(faults) ==> r.state.dropped == q.dropped + r.dropped)
  {
  }

  /** The entry was appended and the `k` oldest were trimmed; success means the entry
      stayed, and without faults all of them were counted. */
  ghost predicate Appended(q: QueueState, e: Entry, after: QueueState, k: nat, ok: bool, faults: Faults) {
    && Trimmed(q, All(q, Some(e)), after, k) && (ok ==> k <= |q.entries|)
    && (CountingFaults(faults) ==> after.dropped == q.dropped + k)
  }

  predicate CountingFaults(faults: Faults) {
    faults.failRemoval.None? && !faults.metadataRead && !faults.metadataWrite
  }

  /** An Add above all queued sequences: nothing happened, or the entry was appended
      and the oldest were trimmed; success means the entry stayed. */
  lemma AddTrims(q: QueueState, e: Entry, faults: Faults) returns (k: nat)
    requires ValidQueue(q) && forall i :: 0 <= i < |q.entries| ==> q.entries[i].sequence < e.sequence
    ensures var r := AddTo(q, e, faults);
            if Stores(q, e, faults) then Appended(q, e, r.state, k, r.ok, faults) else r.state == q && !r.ok
  {
    var r := AddTo(q, e, faults);
    k := r.dropped;
    InsertGreatest(q.entries, e);
    EnforceTrims(q.(entries := q.entries + [e]), faults);
    if Stores(q, e, faults) && !faults.list {
      ExcessSpares(q.entries + [e], q.limits);
    }
  }

  // ---------- Flush ----------

  lemma {:induction false} WithoutHead(entries: seq<Entry>)
    requires entries != []
    ensures Without(entries, entries[0].sequence) == entries[1..]
  {
  }

  /** One turn keeps the queue or removes its head, and removes it only when the reply
      confirms the entry. */
  lemma TurnQueue(s: AgentState, entry: Entry, x: Exchange)
    requires s.queue.entries != [] && s.queue.entries[0] == entry
    ensures var t := TurnStep(s, entry, x);
            && t.state.queue.entries == (if t.removed then s.queue.entries[1..] else s.queue.entries)
            && t.state.queue.limits == s.queue.limits && t.state.device == s.device
            && t.state.attempts == s.attempts + 1
            && t.state.queue.dropped == (if t.outcome == Continue then Acknowledged(s.queue.dropped, Reported(entry))
                                         else s.queue.dropped)
            && (t.outcome == Continue ==> t.removed) && (t.outcome == StoppedRevoked ==> !t.removed)
            && (t.removed ==> Confirms(x.reply, entry.sequence))
  {
    WithoutHead(s.queue.entries);
    var s1, families := TurnCases(s, entry, x);
  }

  /** A Flush sends its entries in order and leaves the queue a suffix of what it was;
      every entry before the suffix was confirmed. */
  lemma {:induction false} FlushSuffix(s: AgentState, entries: seq<Entry>, i: nat, exchanges: nat -> Exchange)
    requires i <= |entries| && s.queue.entries == entries[i..]
    ensures var f := FlushFrom(s, entries, i, exchanges);
            && i <= f.removed <= |entries| && f.state.queue.entries == entries[f.removed..]
            && f.state.queue.limits == s.queue.limits && f.state.device == s.device
            && f.state.queue.dropped <= s.queue.dropped
            && (f.outcome == Continue ==> f.removed == |entries|)
            && (f.outcome == StoppedRevoked ==> f.removed < |entries|)
            && s.attempts <= f.state.attempts <= s.attempts + |entries| - i
            && f.state.attempts - s.attempts >= f.removed - i
    decreases |entries| - i
  {
    if i < |entries| {
      var t := TurnStep(s, entries[i], exchanges(i));
      TurnQueue(s, entries[i], exchanges(i));
      assert entries[i..][1..] == entries[i + 1..];
      if t.outcome == Continue {
        FlushSuffix(t.state, entries, i + 1, exchanges);
      }
    }
  }

  /** Every entry a Flush removed was confirmed by the reply to its own sending. */
  lemma {:induction false} FlushConfirms(s: AgentState, entries: seq<Entry>, i: nat, exchanges: nat -> Exchange, j: nat)
    requires i <= |entries| && s.queue.entries == entries[i..]
    requires i <= j < FlushFrom(s, entries, i, exchanges).removed <= |entries|
    ensures Confirms(exchanges(j).reply, entries[j].sequence)
    decreases |entries| - i
  {
    TurnQueue(s, entries[i], exchanges(i));
    assert entries[i..][1..] == entries[i + 1..];
    if i < j {
      FlushConfirms(TurnStep(s, entries[i], exchanges(i)).state, entries, i + 1, exchanges, j);
    }
  }

  /** The exchange confirms the entry and every file operation works. */
  predicate Succeeds(x: Exchange, sequence: nat) {
    Confirms(x.reply, sequence) && x.remove && x.monitoringWrite && x.sync == Written && x.metadata
  }

  /** A Flush gets past every entry whose exchange succeeds. */
  lemma {:induction false} FlushReaches(s: AgentState, entries: seq<Entry>, i: nat, exchanges: nat -> Exchange, j: nat)
    returns (t: AgentState)
    requires i <= j <= |entries| && s.queue.entries == entries[i..]
    requires forall k :: i <= k < j ==> Succeeds(exchanges(k), entries[k].sequence)
    ensures FlushFrom(s, entries, i, exchanges) == FlushFrom(t, entries, j, exchanges)
    ensures t.queue.entries == entries[j..] && t.attempts == s.attempts + (j - i) && t.device == s.device
    decreases j - i
  {
    t := s;
    if i < j {
      TurnQueue(s, entries[i], exchanges(i));
      ConfirmedExact(s, entries[i], exchanges(i));
      assert entries[i..][1..] == entries[i + 1..];
      t := FlushReaches(TurnStep(s, entries[i], exchanges(i)).state, entries, i + 1, exchanges, j);
    }
  }

  /** A Flush in which every exchange succeeds sends and delivers the whole queue. */
  lemma FlushDeliversAll(s: AgentState, exchanges: nat -> Exchange)
    requires forall k :: 0 <= k < |s.queue.entries| ==> Succeeds(exchanges(k), s.queue.entries[k].sequence)
    ensures var f := FlushStep(s, exchanges);
            && f.outcome == Continue && f.removed == |s.queue.entries| && f.state.queue.entries == []
            && f.state.attempts == s.attempts + |s.queue.entries|
  {
    assert s.queue.entries[0..] == s.queue.entries;
    var t := FlushReaches(s, s.queue.entries, 0, exchanges, |s.queue.entries|);
  }

  lemma {:induction false} LeaveDelivers(l: Ledger, entries: seq<Entry>, i: nat, n: nat)
    requires i <= n <= |entries|
    ensures var l' := Leave(l, entries, i, n);
            && l'.delivered == l.delivered + EntrySet(entries[i..n])
            && l'.added == l.added && l'.lost == l.lost && l'.drops == l.drops && l'.readAt == l.readAt
    decreases n - i
  {
    if i < n {
      var e := entries[i];
      LeaveDelivers(Left(l, e), entries, i + 1, n);
      assert entries[i..n] == [e] + entries[i + 1..n];
    }
  }

  // ---------- Conservation, step by step ----------

  lemma CollectEntry(s: AgentState, env: CollectEnv, binary: Binary)
    requires ValidQueue(s.queue) && env.observation.Some?
    requires forall i :: 0 <= i < |s.queue.entries| ==>
             s.device.memory.Some? && s.queue.entries[i].sequence <= s.device.memory.value.sequence
    ensures var c := CollectStep(s, env, binary);
            var reserved := Identity.Reserve(s.device, env.reserve);
            && c.state.device == reserved.device
            && (c.queued.None? ==> c.state.queue == s.queue && !c.ok)
            && (c.queued.Some? ==>
                  && reserved.sequence == Some(c.queued.value.sequence)
                  && c.queued.value.file.body.droppedSamples == s.queue.dropped
                  && (exists k: nat :: Appended(s.queue, c.queued.value, c.state.queue, k, c.ok, env.queue)))
  {
    var reserved := Identity.Reserve(s.device, env.reserve);
    if reserved.sequence.Some? && env.droppedReadable && env.monitoring.Some? && env.compact.Some? {
      var s1 := s.(device := reserved.device);
      FinishEntry(s1, RawHeartbeat(s, env, binary, reserved.sequence.value), env, binary);
    }
  }

  lemma FinishEntry(s: AgentState, raw: Heartbeat, env: CollectEnv, binary: Binary)
    requires ValidQueue(s.queue) && env.compact.Some?
    requires forall i :: 0 <= i < |s.queue.entries| ==> s.queue.entries[i].sequence < raw.sequence
    ensures var c := Finish(s, raw, env, binary);
            && c.state.device == s.device
            && (c.queued.None? ==> c.state.queue == s.queue && !c.ok)
            && (c.queued.Some? ==>
                  && c.queued.value.sequence == raw.sequence
                  && c.queued.value.file.body.droppedSamples == raw.droppedSamples
                  && (exists k: nat :: Appended(s.queue, c.queued.value, c.state.queue, k, c.ok, env.queue)))
  {
    var k, r, entry, added := FinishCases(s, raw, env, binary);
    BuildKeeps(s, raw, env.compact.value, binary);
    if r.queued.Some? {
      var n := AddTrims(s.queue, entry, env.queue);
      assert Appended(s.queue, entry, r.state.queue, n, r.ok, env.queue);
    }
  }

  lemma BuildKeeps(s: AgentState, raw: Heartbeat, compact: bool, binary: Binary)
    ensures var k := BuildOf(s, raw, compact, binary);
            k.heartbeat.sequence == raw.sequence && k.heartbeat.droppedSamples == raw.droppedSamples
  {
  }

  lemma AllAscending(l: Ledger, before: QueueState, queued: Option<Entry>)
    requires ValidQueue(before) && Partition(before, l)
    requires queued.Some? ==> forall e :: e in l.added ==> e.sequence < queued.value.sequence
    ensures Ascending(All(before, queued))
    ensures queued.Some? ==> queued.value !in l.added
  {
    forall i | 0 <= i < |before.entries| ensures before.entries[i] in l.added {
      assert before.entries[i] in EntrySet(before.entries);
    }
  }

  /** What a limit took out of the queue is its oldest part. */
  lemma GoneOldest(before: QueueState, queued: Option<Entry>, after: QueueState, k: nat)
    requires Ascending(All(before, queued)) && Trimmed(before, All(before, queued), after, k)
    ensures Gone(before, after, queued) == EntrySet(All(before, queued)[..k])
    ensures Gone(before, after, queued) !! EntrySet(after.entries)
    ensures EntrySet(before.entries) + (if queued.Some? then {queued.value} else {})
            == Gone(before, after, queued) + EntrySet(after.entries)
    ensures Ascending(after.entries)
  {
    SplitDisjoint(All(before, queued), k);
    EntrySetConcat(before.entries, if queued.Some? then [queued.value] else []);
  }

  /** Trimming a queue whose entries are accounted for keeps them accounted for. */
  lemma LimitPartition(l: Ledger, before: QueueState, queued: Option<Entry>, after: QueueState, k: nat)
    requires ValidQueue(before) && Partition(before, l) && UniqueSequences(l.added)
    requires queued.Some? ==> forall e :: e in l.added ==> e.sequence < queued.value.sequence
    requires Trimmed(before, All(before, queued), after, k)
    ensures Partition(after, Limit(Enter(l, queued), before, after, queued)) && Ascending(after.entries)
  {
    AllAscending(l, before, queued);
    GoneOldest(before, queued, after, k);
  }

  lemma LimitIdle(l: Ledger, q: QueueState)
    ensures Limit(Enter(l, None), q, q, None) == l
  {
    assert l.lost + (EntrySet(q.entries) + {} - EntrySet(q.entries)) == l.lost;
  }

  /** A reserved sequence is above everything added, and stays covered. */
  lemma ReserveNumbered(d: Identity.Device, added: set<Entry>, e: Entry, outcome: WriteOutcome)
    requires Numbered(d, added) && UniqueSequences(added)
    requires Identity.Reserve(d, outcome).sequence == Some(e.sequence)
    ensures forall e' :: e' in added ==> e'.sequence < e.sequence
    ensures Numbered(Identity.Reserve(d, outcome).device, added + {e}) && UniqueSequences(added + {e})
  {
  }

  /** What queueing a heartbeat makes of queue, numbering and ledger. */
  lemma QueuedParts(s: AgentState, l: Ledger, device: Identity.Device, queued: Entry, after: QueueState, k: nat,
                    outcome: WriteOutcome)
    requires ValidQueue(s.queue) && Numbered(s.device, l.added) && UniqueSequences(l.added) && Partition(s.queue, l)
    requires Identity.Reserve(s.device, outcome).sequence == Some(queued.sequence)
             && device == Identity.Reserve(s.device, outcome).device
    requires Trimmed(s.queue, All(s.queue, Some(queued)), after, k) && after.limits == s.queue.limits
    ensures var l' := Limit(Enter(l, Some(queued)), s.queue, after, Some(queued));
            ValidQueue(after) && Numbered(device, l'.added) && UniqueSequences(l'.added) && Partition(after, l')
  {
    ReserveNumbered(s.device, l.added, queued, outcome);
    LimitPartition(l, s.queue, Some(queued), after, k);
  }

  /** A Collect that queued its heartbeat. */
  lemma QueuedDelivered(w: World, env: CollectEnv, binary: Binary)
    requires Delivered(w) && CollectStep(w.agent, env, binary).queued.Some?
    ensures Delivered(AfterCollect(w, env, binary))
    ensures var c := CollectStep(w.agent, env, binary);
            c.ok ==> c.queued.value in c.state.queue.entries
  {
    var s, w' := w.agent, AfterCollect(w, env, binary);
    var c := CollectStep(s, env, binary);
    QueuedBelowMemory(w);
    CollectKeeps(s, env, binary);
    CollectEntry(s, env, binary);
    var k: nat :| Appended(s.queue, c.queued.value, c.state.queue, k, c.ok, env.queue);
    QueuedParts(s, w.ledger, c.state.device, c.queued.value, c.state.queue, k, env.reserve);
    assert w'.agent == c.state && w'.ledger == Limit(Enter(w.ledger, c.queued), s.queue, c.state.queue, c.queued);
    if c.ok {
      assert c.state.queue.entries[|s.queue.entries| - k] == c.queued.value;
    }
  }

  /** A Collect that queued nothing at most used up a sequence. */
  lemma CollectIdle(w: World, env: CollectEnv, binary: Binary)
    requires Delivered(w) && CollectStep(w.agent, env, binary).queued.None?
    ensures AfterCollect(w, env, binary).ledger == w.ledger
    ensures var c := CollectStep(w.agent, env, binary);
            c.state.queue == w.agent.queue && !c.ok
            && c.state.device in {w.agent.device, Identity.Reserve(w.agent.device, env.reserve).device}
  {
    LimitIdle(w.ledger, w.agent.queue);
    if env.observation.Some? && w.agent.device.memory.Some? {
      QueuedBelowMemory(w);
      CollectEntry(w.agent, env, binary);
    }
  }

  lemma ReserveCovered(d: Identity.Device, added: set<Entry>, outcome: WriteOutcome)
    requires Numbered(d, added)
    ensures Numbered(Identity.Reserve(d, outcome).device, added)
  {
  }

  lemma CollectDelivered(w: World, env: CollectEnv, binary: Binary)
    requires Delivered(w)
    ensures Delivered(AfterCollect(w, env, binary))
    ensures var c := CollectStep(w.agent, env, binary);
            c.ok ==> c.queued.Some? && c.queued.value in c.state.queue.entries
  {
    if CollectStep(w.agent, env, binary).queued.Some? {
      QueuedDelivered(w, env, binary);
    } else {
      CollectIdle(w, env, binary);
      ReserveCovered(w.agent.device, w.ledger.added, env.reserve);
    }
  }

  lemma QueuedBelowMemory(w: World)
    requires Delivered(w) && w.agent.device.memory.Some?
    ensures forall i :: 0 <= i < |w.agent.queue.entries| ==>
            w.agent.queue.entries[i].sequence <= w.agent.device.memory.value.sequence
  {
    forall i | 0 <= i < |w.agent.queue.entries|
      ensures w.agent.queue.entries[i].sequence <= w.agent.device.memory.value.sequence
    {
      assert w.agent.queue.entries[i] in EntrySet(w.agent.queue.entries);
    }
  }

  lemma FlushDelivered(w: World, exchanges: nat -> Exchange)
    requires Delivered(w)
    ensures Delivered(AfterFlush(w, exchanges))
  {
    var entries := w.agent.queue.entries;
    assert entries[0..] == entries;
    FlushSuffix(w.agent, entries, 0, exchanges);
    var f := FlushStep(w.agent, exchanges);
    SplitDisjoint(entries, f.removed);
    LeaveDelivers(w.ledger, entries, 0, f.removed);
    assert entries[0..f.removed] == entries[..f.removed];
  }

  /** A contract removed the `k` oldest entries and, without faults, counted them. */
  lemma ContractTrims(s: AgentState, env: ContractEnv) returns (k: nat)
    ensures var after := ContractStep(s, env).state.queue;
            && Trimmed(s.queue, All(s.queue, None), after, k)
            && (CountingFaults(env.faults) ==> after.dropped == s.queue.dropped + k)
            && (ValidLimits(s.queue.limits) ==> ValidLimits(after.limits))
            && ContractStep(s, env).state == s.(queue := after)
  {
    k := 0;
    assert All(s.queue, None) == s.queue.entries;
    if env.contract.Some? && ValidLimits(env.contract.value) {
      var limited := s.queue.(limits := env.contract.value);
      EnforceTrims(limited, env.faults);
      k := if env.faults.list then 0 else Enforce(limited, env.faults).dropped;
    }
  }

  /** A valid contract's limits are in force whatever fails, and enforced on success; no
      other contract changes anything. */
  lemma ContractEnforces(s: AgentState, env: ContractEnv)
    ensures var c := ContractStep(s, env);
            if env.contract.Some? && ValidLimits(env.contract.value) then
              && c.state == s.(queue := c.state.queue) && c.state.queue.limits == env.contract.value
              && (c.ok ==> exists k :: Enforced(s.queue.entries, env.contract.value, s.queue.dropped,
                                                QueueResult(c.state.queue, k, true)))
            else !c.ok && c.state == s
  {
    if env.contract.Some? {
      LimitEnforces(s.queue, env.contract.value, env.faults);
      var r := LimitTo(s.queue, env.contract.value, env.faults);
      assert r == QueueResult(r.state, r.dropped, r.ok);
    }
  }

  lemma ContractDelivered(w: World, env: ContractEnv)
    requires Delivered(w)
    ensures var c := ContractStep(w.agent, env);
            Delivered(w.(agent := c.state, ledger := Limit(w.ledger, w.agent.queue, c.state.queue, None)))
  {
    var k := ContractTrims(w.agent, env);
    LimitPartition(w.ledger, w.agent.queue, None, ContractStep(w.agent, env).state.queue, k);
  }

  lemma TickDelivered(w: World, env: TickEnv, binary: Binary)
    requires Delivered(w)
    ensures Delivered(AfterTick(w, env, binary))
  {
    CollectDelivered(w, env.collect, binary);
    FlushDelivered(AfterCollect(w, env.collect, binary), env.exchanges);
  }

  /** The other events leave queue and ledger alone, and only move the numbering on. */
  lemma OtherDelivered(w: World, e: Event, binary: Binary)
    requires Delivered(w) && !e.TickEvent? && !e.ContractEvent?
    ensures Delivered(Step(w, e, binary))
  {
    OtherQueue(w, e, binary);
    OtherDevice(w, e, binary);
    var d := w.agent.device;
    match e
    case SnapshotEvent(env) => ReserveCovered(d, w.ledger.added, env.reserve);
    case BootEvent(boot) => BootCovered(d, w.ledger.added, 0, boot);
    case ActivateEvent(id, outcome) => BootCovered(d, w.ledger.added, id, outcome);
    case _ =>
  }

  lemma OtherQueue(w: World, e: Event, binary: Binary)
    requires !e.TickEvent? && !e.ContractEvent?
    ensures var w' := Step(w, e, binary);
            && w'.ledger == w.ledger && w'.agent.queue.entries == w.agent.queue.entries
            && w'.agent.queue.limits == (if e.BootEvent? then Limits(60, 10485760) else w.agent.queue.limits)
            && w'.agent.queue.dropped == w.agent.queue.dropped
  {
  }

  lemma OtherDevice(w: World, e: Event, binary: Binary)
    requires !e.TickEvent? && !e.ContractEvent?
    ensures var d := Step(w, e, binary).agent.device;
            || d == w.agent.device
            || (e.BootEvent? && d == Identity.Boot(w.agent.device, e.boot))
            || (e.ActivateEvent? && d == Identity.Activate(w.agent.device, e.deviceId, e.activation))
            || (e.SnapshotEvent? && d == Identity.Reserve(w.agent.device, e.snapshot.reserve).device)
  {
  }

  lemma BootCovered(d: Identity.Device, added: set<Entry>, id: nat, outcome: WriteOutcome)
    requires Numbered(d, added)
    ensures Numbered(Identity.Boot(d, outcome), added) && Numbered(Identity.Activate(d, id, outcome), added)
  {
  }

  lemma StepDelivered(w: World, e: Event, binary: Binary)
    requires Delivered(w)
    ensures Delivered(Step(w, e, binary))
  {
    match e
    case TickEvent(env) => TickDelivered(w, env, binary);
    case ContractEvent(env) => ContractDelivered(w, env);
    case _ => OtherDelivered(w, e, binary);
  }

  /** Conservation: over any run whatever, with any failure at any point, a heartbeat
      that was added is still queued, was confirmed, or was dropped by a limit, and
      exactly one of these; no two added heartbeats share a sequence. */
  lemma {:induction false} NothingVanishes(events: seq<Event>, binary: Binary)
    ensures Delivered(After(events, binary))
  {
    if events != [] {
      NothingVanishes(events[..|events| - 1], binary);
      StepDelivered(After(events[..|events| - 1], binary), events[|events| - 1], binary);
    }
  }

  // ---------- The dropped counter ----------

  /** The counter does not exceed what entry `e` reports plus what was dropped since
      `e` read it, and equals it while `e`'s reading is clean. */
  ghost predicate Bounds(dropped: nat, e: Entry, l: Ledger) {
    && e.sequence in l.readAt && l.readAt[e.sequence] <= l.drops
    && dropped <= e.file.body.droppedSamples + (l.drops - l.readAt[e.sequence])
    && (e.sequence in l.clean ==> dropped == e.file.body.droppedSamples + (l.drops - l.readAt[e.sequence]))
  }

  ghost predicate Bounded(w: World) {
    forall e :: e in w.agent.queue.entries ==> Bounds(w.agent.queue.dropped, e, w.ledger)
  }

  /** Dropping the oldest entries raises the counter and the bound alike. */
  lemma LimitBounds(l: Ledger, before: QueueState, queued: Option<Entry>, after: QueueState, k: nat)
    requires forall e :: e in before.entries ==> Bounds(before.dropped, e, l)
    requires queued.Some? ==> queued.value.file.body.droppedSamples == before.dropped
                              && forall e :: e in before.entries ==> e.sequence != queued.value.sequence
    requires Trimmed(before, All(before, queued), after, k)
    ensures forall e :: e in after.entries ==> Bounds(after.dropped, e, Limit(Enter(l, queued), before, after, queued))
  {
    var all := All(before, queued);
    var entered := Enter(l, queued);
    forall e | e in all ensures Bounds(before.dropped, e, entered) {
      assert e in before.entries || (queued.Some? && e == queued.value);
    }
    assert forall e :: e in after.entries ==> e in all;
  }

  lemma QueuedBounded(w: World, env: CollectEnv, binary: Binary)
    requires Delivered(w) && Bounded(w) && CollectStep(w.agent, env, binary).queued.Some?
    ensures Bounded(AfterCollect(w, env, binary))
  {
    var s, l := w.agent, w.ledger;
    var c := CollectStep(s, env, binary);
    QueuedBelowMemory(w);
    CollectEntry(s, env, binary);
    ReserveNumbered(s.device, l.added, c.queued.value, env.reserve);
    var k: nat :| Appended(s.queue, c.queued.value, c.state.queue, k, c.ok, env.queue);
    forall e | e in s.queue.entries ensures e.sequence != c.queued.value.sequence {
      assert e in EntrySet(s.queue.entries);
    }
    LimitBounds(l, s.queue, c.queued, c.state.queue, k);
  }

  lemma CollectBounded(w: World, env: CollectEnv, binary: Binary)
    requires Delivered(w) && Bounded(w)
    ensures Bounded(AfterCollect(w, env, binary))
  {
    var c := CollectStep(w.agent, env, binary);
    if c.queued.Some? {
      QueuedBounded(w, env, binary);
    } else {
      CollectIdle(w, env, binary);
    }
  }

  /** Acknowledging a report never lifts the counter above another entry's bound. */
  lemma TurnBounds(s: AgentState, e: Entry, x: Exchange, other: Entry, l: Ledger)
    requires s.queue.entries != [] && s.queue.entries[0] == e && Bounds(s.queue.dropped, other, l)
    ensures Bounds(TurnStep(s, e, x).state.queue.dropped, other, Left(l, e))
  {
    TurnQueue(s, e, x);
  }

  lemma {:induction false} FlushBounds(s: AgentState, entries: seq<Entry>, i: nat, exchanges: nat -> Exchange,
                                       l: Ledger)
    requires i <= |entries| && s.queue.entries == entries[i..]
    requires forall j :: i <= j < |entries| ==> Bounds(s.queue.dropped, entries[j], l)
    ensures var f := FlushFrom(s, entries, i, exchanges);
            && i <= f.removed <= |entries|
            && forall j :: f.removed <= j < |entries| ==>
               Bounds(f.state.queue.dropped, entries[j], Leave(l, entries, i, f.removed))
    decreases |entries| - i
  {
    if i < |entries| {
      var e := entries[i];
      var t := TurnStep(s, e, exchanges(i));
      TurnQueue(s, e, exchanges(i));
      assert entries[i..][1..] == entries[i + 1..];
      forall j | i < j < |entries| ensures Bounds(t.state.queue.dropped, entries[j], Left(l, e)) {
        TurnBounds(s, e, exchanges(i), entries[j], l);
      }
      if t.outcome == Continue {
        FlushBounds(t.state, entries, i + 1, exchanges, Left(l, e));
      } else if t.removed {
        assert Leave(l, entries, i, i + 1) == Left(l, e);
      }
    }
  }

  lemma FlushBounded(w: World, exchanges: nat -> Exchange)
    requires Bounded(w)
    ensures Bounded(AfterFlush(w, exchanges))
  {
    var entries := w.agent.queue.entries;
    assert entries[0..] == entries;
    FlushBounds(w.agent, entries, 0, exchanges, w.ledger);
    FlushSuffix(w.agent, entries, 0, exchanges);
    var f := FlushStep(w.agent, exchanges);
    forall e | e in entries[f.removed..]
      ensures Bounds(f.state.queue.dropped, e, Leave(w.ledger, entries, 0, f.removed)) {
      var j :| 0 <= j < |entries| - f.removed && entries[f.removed..][j] == e;
      assert entries[f.removed + j] == e;
    }
  }

  lemma ContractBounded(w: World, env: ContractEnv)
    requires Bounded(w)
    ensures var c := ContractStep(w.agent, env);
            Bounded(w.(agent := c.state, ledger := Limit(w.ledger, w.agent.queue, c.state.queue, None)))
  {
    if env.contract.Some? && ValidLimits(env.contract.value) {
      EnforceTrims(w.agent.queue.(limits := env.contract.value), env.faults);
      var c := ContractStep(w.agent, env);
      assert forall e :: e in c.state.queue.entries ==> e in w.agent.queue.entries;
    }
  }

  lemma {:induction false} RunBounded(events: seq<Event>, binary: Binary)
    ensures Bounded(After(events, binary))
  {
    if events != [] {
      var init := events[..|events| - 1];
      RunBounded(init, binary);
      NothingVanishes(init, binary);
      var w := After(init, binary);
      match events[|events| - 1]
      case TickEvent(env) =>
        CollectBounded(w, env.collect, binary);
        FlushBounded(AfterCollect(w, env.collect, binary), env.exchanges);
      case ContractEvent(env) => ContractBounded(w, env);
      case _ =>
    }
  }

  /** What the confirmations of a list of entries acknowledge together. */
  function Reports(entries: seq<Entry>): nat {
    if entries == [] then 0 else Reported(entries[0]) + Reports(entries[1..])
  }

  lemma {:induction false} ReportsLast(entries: seq<Entry>)
    requires entries != []
    ensures Reports(entries) >= Reported(entries[|entries| - 1])
    ensures (forall j :: 0 <= j < |entries| - 1 ==> Reported(entries[j]) == 0) ==>
              Reports(entries) == Reported(entries[|entries| - 1])
  {
    if |entries| > 1 {
      ReportsLast(entries[1..]);
    } else {
      assert entries[1..] == [];
    }
  }

  /** A complete Flush takes the reports of its entries off the counter, down to zero. */
  lemma {:induction false} FlushCounter(s: AgentState, entries: seq<Entry>, i: nat, exchanges: nat -> Exchange)
    requires i <= |entries| && s.queue.entries == entries[i..]
    requires FlushFrom(s, entries, i, exchanges).outcome == Continue
    ensures FlushFrom(s, entries, i, exchanges).state.queue.dropped
            == Acknowledged(s.queue.dropped, Reports(entries[i..]))
    decreases |entries| - i
  {
    if i < |entries| {
      TurnQueue(s, entries[i], exchanges(i));
      assert entries[i..][1..] == entries[i + 1..];
      FlushCounter(TurnStep(s, entries[i], exchanges(i)).state, entries, i + 1, exchanges);
    }
  }

  /** The agent can read back what the entry reports: its text is short enough, or there
      is nothing to read. */
  predicate Heard(e: Entry) {
    e.file.decompressed <= ReportLimit || e.file.body.droppedSamples == 0
  }

  /** In every reachable world, a complete Flush of a nonempty queue lowers the counter by
      what its entries report. When the last of them is heard, the counter is then at most
      the number of samples dropped since that heartbeat read it. When no other nonzero
      report was confirmed since that reading, the counter keeps to this bound if and only
      if the last heartbeat is heard, and then meets it exactly. */
  lemma DropCounterBound(events: seq<Event>, binary: Binary, exchanges: nat -> Exchange)
    requires After(events, binary).agent.queue.entries != []
    requires FlushStep(After(events, binary).agent, exchanges).outcome == Continue
    ensures var w := After(events, binary);
            var entries := w.agent.queue.entries;
            var last := entries[|entries| - 1];
            var dropped := AfterFlush(w, exchanges).agent.queue.dropped;
            && last.sequence in w.ledger.readAt && w.ledger.readAt[last.sequence] <= w.ledger.drops
            && var since := w.ledger.drops - w.ledger.readAt[last.sequence];
               && dropped == Acknowledged(w.agent.queue.dropped, Reports(entries))
               && (Heard(last) ==> dropped <= since)
               && (last.sequence in w.ledger.clean
                   && (forall j :: 0 <= j < |entries| - 1 ==> Reported(entries[j]) == 0) ==>
                     && (dropped <= since <==> Heard(last))
                     && (Heard(last) ==> dropped == since))
  {
    RunBounded(events, binary);
    var w := After(events, binary);
    var entries := w.agent.queue.entries;
    assert entries[0..] == entries;
    FlushCounter(w.agent, entries, 0, exchanges);
    ReportsLast(entries);
    assert Bounds(w.agent.queue.dropped, entries[|entries| - 1], w.ledger);
  }

  // ---------- Counted drops ----------

  /** No removal was cut short and the counter could always be rewritten. */
  ghost predicate CountsDrops(e: Event) {
    match e
    case TickEvent(env) => CountingFaults(env.collect.queue)
    case ContractEvent(env) => CountingFaults(env.faults)
    case _ => true
  }

  lemma OneMore(some: set<Entry>, e: Entry)
    requires e !in some
    ensures |some + {e}| == |some| + 1
  {
  }

  lemma {:induction false} SetSize(entries: seq<Entry>)
    requires Ascending(entries)
    ensures |EntrySet(entries)| == |entries|
  {
    if entries != [] {
      var init, last := entries[..|entries| - 1], entries[|entries| - 1];
      assert entries == init + [last];
      SetSize(init);
      EntrySetConcat(init, [last]);
      assert EntrySet([last]) == {last};
      OneMore(EntrySet(init), last);
    }
  }

  /** Of a queue whose entries are all added, a limit loses exactly `k` more. */
  lemma LimitCounts(l: Ledger, before: QueueState, queued: Option<Entry>, after: QueueState, k: nat)
    requires ValidQueue(before) && Partition(before, l)
    requires queued.Some? ==> forall e :: e in l.added ==> e.sequence < queued.value.sequence
    requires Trimmed(before, All(before, queued), after, k)
    ensures |l.lost + Gone(before, after, queued)| == |l.lost| + k
  {
    AllAscending(l, before, queued);
    GoneOldest(before, queued, after, k);
    assert Ascending(All(before, queued)[..k]);
    SetSize(All(before, queued)[..k]);
    assert l.lost !! Gone(before, after, queued);
  }

  /** While counter updates do not fail, the counter has been raised by exactly the
      number of heartbeats the limits dropped. */
  lemma {:induction false} DropsAreCounted(events: seq<Event>, binary: Binary)
    requires forall e :: e in events ==> CountsDrops(e)
    ensures var l := After(events, binary).ledger; |l.lost| == l.drops
  {
    if events != [] {
      var init, e := events[..|events| - 1], events[|events| - 1];
      DropsAreCounted(init, binary);
      NothingVanishes(init, binary);
      StepCounts(After(init, binary), e, binary);
    }
  }

  lemma TickCounts(w: World, env: TickEnv, binary: Binary)
    requires Delivered(w) && |w.ledger.lost| == w.ledger.drops && CountingFaults(env.collect.queue)
    ensures var l := AfterTick(w, env, binary).ledger; |l.lost| == l.drops
  {
    CollectCounts(w, env.collect, binary);
    FlushCounts(AfterCollect(w, env.collect, binary), env.exchanges);
  }

  lemma FlushCounts(w: World, exchanges: nat -> Exchange)
    ensures AfterFlush(w, exchanges).ledger.lost == w.ledger.lost
            && AfterFlush(w, exchanges).ledger.drops == w.ledger.drops
  {
    FlushRemoves(w.agent, w.agent.queue.entries, 0, exchanges);
    LeaveDelivers(w.ledger, w.agent.queue.entries, 0, FlushStep(w.agent, exchanges).removed);
  }

  lemma StepCounts(w: World, e: Event, binary: Binary)
    requires Delivered(w) && |w.ledger.lost| == w.ledger.drops && CountsDrops(e)
    ensures var l := Step(w, e, binary).ledger; |l.lost| == l.drops
  {
    StepLedger(w, e, binary);
    match e
    case TickEvent(env) => TickCounts(w, env, binary);
    case ContractEvent(env) => ContractCounts(w, env);
    case _ =>
  }

  /** Only a tick or a contract changes the ledger. */
  lemma StepLedger(w: World, e: Event, binary: Binary)
    ensures var l := Step(w, e, binary).ledger;
            || l == w.ledger
            || (e.TickEvent? && l == AfterTick(w, e.tick, binary).ledger)
            || (e.ContractEvent?
                && l == Limit(w.ledger, w.agent.queue, ContractStep(w.agent, e.contract).state.queue, None))
  {
  }

  lemma CollectCounts(w: World, env: CollectEnv, binary: Binary)
    requires Delivered(w) && |w.ledger.lost| == w.ledger.drops && CountingFaults(env.queue)
    ensures var l := AfterCollect(w, env, binary).ledger; |l.lost| == l.drops
  {
    if CollectStep(w.agent, env, binary).queued.Some? {
      QueuedCounts(w, env, binary);
    } else {
      CollectIdle(w, env, binary);
    }
  }

  lemma QueuedCounts(w: World, env: CollectEnv, binary: Binary)
    requires Delivered(w) && CountingFaults(env.queue) && CollectStep(w.agent, env, binary).queued.Some?
    ensures |AfterCollect(w, env, binary).ledger.lost| - |w.ledger.lost|
            == AfterCollect(w, env, binary).ledger.drops - w.ledger.drops
  {
    var s, l := w.agent, w.ledger;
    var c := CollectStep(s, env, binary);
    QueuedBelowMemory(w);
    CollectEntry(s, env, binary);
    ReserveNumbered(s.device, l.added, c.queued.value, env.reserve);
    var k: nat :| Appended(s.queue, c.queued.value, c.state.queue, k, c.ok, env.queue);
    LimitCounts(l, s.queue, c.queued, c.state.queue, k);
  }

  lemma ContractCounts(w: World, env: ContractEnv)
    requires Delivered(w) && |w.ledger.lost| == w.ledger.drops && CountingFaults(env.faults)
    ensures var l := Limit(w.ledger, w.agent.queue, ContractStep(w.agent, env).state.queue, None);
            |l.lost| == l.drops
  {
    var k := ContractTrims(w.agent, env);
    DropCounts(w.ledger, w.agent.queue, ContractStep(w.agent, env).state.queue, k);
  }

  lemma DropCounts(l: Ledger, before: QueueState, after: QueueState, k: nat)
    requires ValidQueue(before) && Partition(before, l)
    requires Trimmed(before, All(before, None), after, k) && after.dropped == before.dropped + k
    ensures var l' := Limit(l, before, after, None); |l'.lost| - |l.lost| == l'.drops - l.drops
  {
    LimitCounts(l, before, None, after, k);
  }
}
