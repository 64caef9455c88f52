/**
 The sequences that a device sends its requests with, over whole runs: heartbeats and
 hardware snapshots draw on one counter, and no two requests share a sequence.
 */
module RunsSequences {
  import opened AgentModel
  import opened Runs
  import Buffer
  import Identity
  import D = RunsDelivery

  /** A sequence that a heartbeat was queued with, or a snapshot sent with. */
  datatype Use = HeartbeatUse(sequence: nat) | SnapshotUse(sequence: nat)

  ghost function UsedBy(w: World, e: Event, binary: Binary): seq<Use> {
    match e
    case TickEvent(env) =>
      var queued := CollectStep(w.agent, env.collect, binary).queued;
      if w.mode == Running && queued.Some? then [HeartbeatUse(queued.value.sequence)] else []
    case SnapshotEvent(env) =>
      var sequence := SnapshotStep(w.agent, env).sequence;
      if w.mode != Off && sequence.Some? then [SnapshotUse(sequence.value)] else []
    case _ => []
  }

  /** All uses of a device's history, oldest first. */
  ghost function UsedOver(events: seq<Event>, binary: Binary): seq<Use> {
    if events == [] then []
    else UsedOver(events[..|events| - 1], binary) + UsedBy(After(events[..|events| - 1], binary), events[|events| - 1],
                                                           binary)
  }

  function LastUsed(used: seq<Use>): nat {
    if used == [] then 0 else used[|used| - 1].sequence
  }

  predicate Rising(used: seq<Use>) {
    (forall i :: 0 <= i < |used| ==> used[i].sequence > 0)
    && forall i, j :: 0 <= i < j < |used| ==> used[i].sequence < used[j].sequence
  }

  // ---------- One event ----------

  /** A snapshot is sent with a sequence above the one it found, which memory and file hold
      before it is sent; a failing write may use the sequence up without sending. */
  lemma SnapshotReserves(s: AgentState, env: SnapshotEnv)
    ensures var r := SnapshotStep(s, env);
            && (r.sequence.Some? ==>
                  && s.device.memory.Some? && r.sequence.value == s.device.memory.value.sequence + 1
                  && r.state.device.memory.Some? && r.state.device.memory.value.sequence == r.sequence.value
                  && r.state.device.file == r.state.device.memory && r.state.attempts == s.attempts + 1)
            && (r.sequence.None? ==> r.state.attempts == s.attempts && r.state.device.memory == s.device.memory)
            && r.state == s.(device := r.state.device, attempts := r.state.attempts)
  {
  }

  /** What an event uses is above all that was used, and covered by memory and file. */
  lemma StepUses(w: World, e: Event, binary: Binary, last: nat)
    requires D.Delivered(w) && Identity.Covers(w.agent.device, last)
    ensures var more := UsedBy(w, e, binary);
            && |more| <= 1 && (more != [] ==> more[0].sequence > last)
            && Identity.Covers(Step(w, e, binary).agent.device, if more == [] then last else more[0].sequence)
  {
    match e
    case TickEvent(env) =>
      if w.mode == Running { TickUses(w, env, binary, last); }
    case SnapshotEvent(env) => Identity.ReserveCovers(w.agent.device, last, env.reserve);
    case BootEvent(boot) => Identity.BootCovers(w.agent.device, last, 0, boot);
    case ActivateEvent(id, outcome) => Identity.BootCovers(w.agent.device, last, id, outcome);
    case _ =>
  }

  lemma CoversLess(d: Identity.Device, last: nat, less: nat)
    requires Identity.Covers(d, last) && less <= last
    ensures Identity.Covers(d, less)
  {
  }

  lemma TickUses(w: World, env: TickEnv, binary: Binary, last: nat)
    requires D.Delivered(w) && w.mode == Running && Identity.Covers(w.agent.device, last)
    ensures var queued := CollectStep(w.agent, env.collect, binary).queued;
            && (queued.Some? ==> queued.value.sequence > last)
            && Identity.Covers(AfterTick(w, env, binary).agent.device, if queued.None? then last
                               else queued.value.sequence)
  {
    CollectUses(w, env.collect, binary, last);
    TickDevice(w, env, binary);
  }

  lemma CollectUses(w: World, env: CollectEnv, binary: Binary, last: nat)
    requires D.Delivered(w) && Identity.Covers(w.agent.device, last)
    ensures var c := CollectStep(w.agent, env, binary);
            && (c.queued.Some? ==> c.queued.value.sequence > last)
            && Identity.Covers(c.state.device, if c.queued.None? then last else c.queued.value.sequence)
  {
    var c := CollectStep(w.agent, env, binary);
    Identity.ReserveCovers(w.agent.device, last, env.reserve);
    if env.observation.Some? && w.agent.device.memory.Some? {
      D.QueuedBelowMemory(w);
      D.CollectEntry(w.agent, env, binary);
      var reserved := Identity.Reserve(w.agent.device, env.reserve);
      if reserved.sequence.Some? {
        CoversLess(reserved.device, reserved.sequence.value, last);
      }
    }
  }

  /** A Flush reserves nothing. */
  lemma TickDevice(w: World, env: TickEnv, binary: Binary)
    ensures AfterTick(w, env, binary).agent.device == CollectStep(w.agent, env.collect, binary).state.device
  {
    var mid := AfterCollect(w, env.collect, binary);
    assert mid.agent.queue.entries[0..] == mid.agent.queue.entries;
    D.FlushSuffix(mid.agent, mid.agent.queue.entries, 0, env.exchanges);
  }

  // ---------- Whole runs ----------

  lemma RisingAppend(used: seq<Use>, use: Use)
    requires Rising(used) && use.sequence > LastUsed(used)
    ensures Rising(used + [use])
  {
  }

  /** One more event, on any device whose uses rise and are covered. */
  lemma NextUses(w: World, e: Event, binary: Binary, used: seq<Use>)
    requires D.Delivered(w) && Rising(used) && Identity.Covers(w.agent.device, LastUsed(used))
    ensures var all := used + UsedBy(w, e, binary);
            Rising(all) && Identity.Covers(Step(w, e, binary).agent.device, LastUsed(all))
  {
    StepUses(w, e, binary, LastUsed(used));
    var more := UsedBy(w, e, binary);
    if more != [] {
      RisingAppend(used, more[0]);
      assert more == [more[0]];
    } else {
      assert used + more == used;
    }
  }

  /** Over any run, with any failures and restarts, the sequences of heartbeats and
      snapshots together strictly increase, and memory and file cover them all. */
  lemma {:induction false} SequencesUsedOnce(events: seq<Event>, binary: Binary)
    ensures Rising(UsedOver(events, binary))
    ensures Identity.Covers(After(events, binary).agent.device, LastUsed(UsedOver(events, binary)))
  {
    if events != [] {
      var init := events[..|events| - 1];
      SequencesUsedOnce(init, binary);
      D.NothingVanishes(init, binary);
      NextUses(After(init, binary), events[|events| - 1], binary, UsedOver(init, binary));
    }
  }

  ghost predicate AddedUsed(w: World, used: seq<Use>) {
    forall x :: x in w.ledger.added ==> HeartbeatUse(x.sequence) in used
  }

  lemma StepAdds(w: World, e: Event, binary: Binary)
    ensures forall x :: x in Step(w, e, binary).ledger.added ==>
              x in w.ledger.added || HeartbeatUse(x.sequence) in UsedBy(w, e, binary)
  {
    match e
    case TickEvent(env) =>
      if w.mode == Running {
        var mid := AfterCollect(w, env.collect, binary);
        FlushRemoves(mid.agent, mid.agent.queue.entries, 0, env.exchanges);
        D.LeaveDelivers(mid.ledger, mid.agent.queue.entries, 0, FlushStep(mid.agent, env.exchanges).removed);
      }
    case _ =>
  }

  /** Every heartbeat ever added to the queue has its own place among the uses. */
  lemma {:induction false} HeartbeatsUsed(events: seq<Event>, binary: Binary)
    ensures AddedUsed(After(events, binary), UsedOver(events, binary))
  {
    if events != [] {
      HeartbeatsUsed(events[..|events| - 1], binary);
      StepAdds(After(events[..|events| - 1], binary), events[|events| - 1], binary);
    }
  }

  // ---------- Replay conflicts ----------

  /** For a server that answers a replay conflict to a sequence it took before: whichever
      requests it took, the conflict meets a heartbeat only if it took this heartbeat. */
  lemma ConflictIsOwn(events: seq<Event>, binary: Binary, took: set<Use>, x: Buffer.Entry)
    requires x in After(events, binary).ledger.added
    requires forall u :: u in took ==> u in UsedOver(events, binary)
    ensures (exists u :: u in took && u.sequence == x.sequence) <==> HeartbeatUse(x.sequence) in took
  {
    SequencesUsedOnce(events, binary);
    HeartbeatsUsed(events, binary);
    OneUse(UsedOver(events, binary), took, x.sequence);
  }

  lemma OneUse(used: seq<Use>, took: set<Use>, n: nat)
    requires Rising(used) && HeartbeatUse(n) in used && forall u :: u in took ==> u in used
    ensures (exists u :: u in took && u.sequence == n) <==> HeartbeatUse(n) in took
  {
    var i :| 0 <= i < |used| && used[i] == HeartbeatUse(n);
    forall u | u in took && u.sequence == n ensures u == HeartbeatUse(n) {
      var j :| 0 <= j < |used| && used[j] == u;
      assert i == j;
    }
    if HeartbeatUse(n) in took {
      assert HeartbeatUse(n).sequence == n;
    }
  }

  /** For a server that wants sequences to increase: the conflict meets a heartbeat that it
      did not take if and only if it took a request reserved after it. */
  lemma OvertakenExact(events: seq<Event>, binary: Binary, took: set<Use>, x: Buffer.Entry)
    requires x in After(events, binary).ledger.added && HeartbeatUse(x.sequence) !in took
    requires forall u :: u in took ==> u in UsedOver(events, binary)
    ensures var used := UsedOver(events, binary);
            (exists u :: u in took && u.sequence >= x.sequence) <==> Overtook(used, took, x.sequence)
  {
    SequencesUsedOnce(events, binary);
    HeartbeatsUsed(events, binary);
    LaterUse(UsedOver(events, binary), took, x.sequence);
  }

  /** A request reserved after the heartbeat was taken. */
  ghost predicate Overtook(used: seq<Use>, took: set<Use>, n: nat) {
    exists i, j :: 0 <= i < j < |used| && used[i] == HeartbeatUse(n) && used[j] in took
  }

  lemma LaterUse(used: seq<Use>, took: set<Use>, n: nat)
    requires Rising(used) && HeartbeatUse(n) in used && HeartbeatUse(n) !in took && forall u :: u in took ==> u in used
    ensures (exists u :: u in took && u.sequence >= n) <==> Overtook(used, took, n)
  {
    var i :| 0 <= i < |used| && used[i] == HeartbeatUse(n);
    if u :| u in took && u.sequence >= n {
      var j :| 0 <= j < |used| && used[j] == u;
      assert j > i;
    }
    if Overtook(used, took, n) {
      var k, j :| 0 <= k < j < |used| && used[k] == HeartbeatUse(n) && used[j] in took;
      assert used[k].sequence < used[j].sequence;
    }
  }

  /** The input: a snapshot sent while heartbeats are queued is reserved after all of them.
      A server that took it, and wants sequences to increase, answers a conflict to each,
      and the Flush takes that for their delivery and empties the queue. */
  lemma SnapshotOvertakes(w: World, env: SnapshotEnv, exchanges: nat -> Exchange)
    requires D.Delivered(w) && SnapshotStep(w.agent, env).sequence.Some?
    requires forall k :: 0 <= k < |w.agent.queue.entries| ==>
               exchanges(k).reply == Status(409, ReplayedRequest)
               && D.Succeeds(exchanges(k), w.agent.queue.entries[k].sequence)
    ensures var r := SnapshotStep(w.agent, env);
            && (forall i :: 0 <= i < |w.agent.queue.entries| ==> w.agent.queue.entries[i].sequence < r.sequence.value)
            && FlushStep(r.state, exchanges).outcome == Continue
            && FlushStep(r.state, exchanges).state.queue.entries == []
  {
    SnapshotReserves(w.agent, env);
    D.QueuedBelowMemory(w);
    D.FlushDeliversAll(SnapshotStep(w.agent, env).state, exchanges);
  }
}
