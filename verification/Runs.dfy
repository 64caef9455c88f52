/**
 Whole runs of a device: the agent process starts, ticks, is killed and starts
 again, while the network hands a receiver any queued heartbeat at any time.
 */
module Runs {
  import opened Prelude
  import opened Protocol
  import opened Delta
  import opened Compact
  import opened AgentModel
  import Identity
  import Buffer
  import Replay

  /** `Starting`: before the contract; `Waiting`: dormant until the process ends. */
  datatype Mode = Off | Starting | Running | Waiting

  /** What became of every heartbeat. `drops` totals what limits added to the dropped
      counter; `readAt` is that total when a heartbeat read the counter, and `clean`
      are the heartbeats since whose reading no nonzero report was acknowledged. */
  datatype Ledger = Ledger(
    added: set<Buffer.Entry>,
    delivered: set<Buffer.Entry>,
    lost: set<Buffer.Entry>,
    drops: nat,
    readAt: map<nat, nat>,
    clean: set<nat>)

  /** `sent` lists every heartbeat ever queued; `log` is what the agent recorded of
      each family at each revision. */
  datatype World = World(
    agent: AgentState,
    mode: Mode,
    sent: seq<Heartbeat>,
    log: map<Family, map<nat, Replay.Snapshot>>,
    receivers: map<Family, Receiver>,
    ledger: Ledger)

  datatype Event =
    | BootEvent(boot: WriteOutcome)
    | ActivateEvent(deviceId: nat, activation: WriteOutcome)
    | ContractEvent(contract: ContractEnv)
    | TickEvent(tick: TickEnv)
    | SnapshotEvent(snapshot: SnapshotEnv)
    | DeliverEvent(index: nat, family: Family)
    | GarbleEvent

  /** A device on which the agent never ran. */
  ghost const NewDevice := World(
    AgentState(map[], "", Absent, Buffer.QueueState([], OpenLimits, 0), Identity.Device(None, None),
               Monitoring(0, false, 0), false, 0),
    Off, [], map f | f in FamilyOrder :: map[0 := map[]], map f | f in FamilyOrder :: Receiver(0, map[]),
    Ledger({}, {}, {}, 0, map[], {}))

  // ---------- Logs ----------

  /** The log of one family after a build: a new revision is logged. */
  ghost function Logged(log: map<nat, Replay.Snapshot>, before: FamilySync, after: FamilySync, entries: seq<Keyed>)
    : map<nat, Replay.Snapshot>
  {
    if after.revision != before.revision then log[after.revision := View(entries)] else log
  }

  ghost function LogOf(w: World, f: Family): map<nat, Replay.Snapshot> {
    if f in w.log then w.log[f] else map[0 := map[]]
  }

  ghost function ReceiverOf(w: World, f: Family): Receiver {
    if f in w.receivers then w.receivers[f] else Receiver(0, map[])
  }

  ghost function InventoryOf(env: CollectEnv): Inventory {
    if env.observation.Some? then env.observation.value.inventory else NoInventory
  }

  // ---------- Ledger ----------

  function EntrySet(entries: seq<Buffer.Entry>): set<Buffer.Entry> {
    set e | e in entries
  }

  /** The entries of a queue, and the one written to it, that are no longer there. */
  ghost function Gone(before: Buffer.QueueState, after: Buffer.QueueState,
                      queued: Option<Buffer.Entry>): set<Buffer.Entry> {
    EntrySet(before.entries) + (if queued.Some? then {queued.value} else {}) - EntrySet(after.entries)
  }

  /** Entries that a limit removed from a queue, with what was added to the counter. */
  ghost function Limit(l: Ledger, before: Buffer.QueueState, after: Buffer.QueueState,
                       queued: Option<Buffer.Entry>): Ledger {
    l.(lost := l.lost + Gone(before, after, queued),
       drops := l.drops + (if after.dropped >= before.dropped then after.dropped - before.dropped else 0))
  }

  /** A heartbeat enters the queue, having read the counter before the limits acted. */
  ghost function Enter(l: Ledger, queued: Option<Buffer.Entry>): Ledger {
    if queued.None? then l
    else
      l.(added := l.added + {queued.value}, readAt := l.readAt[queued.value.sequence := l.drops],
         clean := l.clean + {queued.value.sequence})
  }

  /** A confirmed entry; if it reports drops, no other reading is exact any longer. */
  ghost function Left(l: Ledger, e: Buffer.Entry): Ledger {
    l.(delivered := l.delivered + {e}, clean := if Reported(e) == 0 then l.clean else {})
  }

  /** The entries from `i` up to `n` were confirmed. */
  ghost function Leave(l: Ledger, entries: seq<Buffer.Entry>, i: nat, n: nat): Ledger
    requires i <= n <= |entries|
    decreases n - i
  {
    if i == n then l else Leave(Left(l, entries[i]), entries, i + 1, n)
  }

  // ---------- Steps ----------

  ghost function AfterCollect(w: World, env: CollectEnv, binary: Binary): World {
    var c := CollectStep(w.agent, env, binary);
    w.(agent := c.state,
         sent := if c.queued.Some? then w.sent + [c.queued.value.file.body] else w.sent,
         log := map f | f in FamilyOrder ::
                  Logged(LogOf(w, f), SyncOf(w.agent.table, f), SyncOf(c.state.table, f),
                         EntriesOf(f, InventoryOf(env))),
         ledger := Limit(Enter(w.ledger, c.queued), w.agent.queue, c.state.queue, c.queued))
  }

  ghost function AfterFlush(w: World, exchanges: nat -> Exchange): World {
    var f := FlushStep(w.agent, exchanges);
    FlushRemoves(w.agent, w.agent.queue.entries, 0, exchanges);
    w.(agent := f.state, mode := if f.outcome == StoppedRevoked then Waiting else w.mode,
         ledger := Leave(w.ledger, w.agent.queue.entries, 0, f.removed))
  }

  ghost function AfterTick(w: World, env: TickEnv, binary: Binary): World {
    var collected := AfterCollect(w, env.collect, binary);
    if CollectStep(w.agent, env.collect, binary).ok then AfterFlush(collected, env.exchanges) else collected
  }

  ghost function Step(w: World, e: Event, binary: Binary): World {
    match e
    case BootEvent(boot) =>
      var agent := RestartStep(w.agent, boot);
      w.(agent := agent,
           mode := if agent.device.memory.None? then Off else Starting)
    case ActivateEvent(id, outcome) =>
      if w.mode != Starting then w else w.(agent := w.agent.(device := Identity.Activate(w.agent.device, id, outcome)))
    case ContractEvent(env) =>
      if w.mode != Starting then w
      else if SeenDormant(w.agent, env.statFails) then w.(mode := Waiting)
      else
        var c := ContractStep(w.agent, env);
        w.(agent := c.state, mode := if c.ok then Running else Off,
             ledger := Limit(w.ledger, w.agent.queue, c.state.queue, None))
    case TickEvent(env) => if w.mode != Running then w else AfterTick(w, env, binary)
    case SnapshotEvent(env) => if w.mode == Off then w else w.(agent := SnapshotStep(w.agent, env).state)
    case DeliverEvent(i, f) =>
      if i < |w.sent| && w.sent[i].state.Some? && f in w.sent[i].state.value && f in FamilyOrder
      then w.(receivers := w.receivers[f := Receive(ReceiverOf(w, f), w.sent[i].state.value[f], KeyFn(f))])
      else w
    case GarbleEvent => w.(agent := w.agent.(syncFile := Garbled))
  }

  /** The world after more events. */
  ghost function From(w: World, events: seq<Event>, binary: Binary): World {
    if events == [] then w
    else Step(From(w, events[..|events| - 1], binary), events[|events| - 1], binary)
  }

  /** The world a device is in after its whole history. */
  ghost function After(events: seq<Event>, binary: Binary): World {
    From(NewDevice, events, binary)
  }

  // ---------- Flush removes a prefix ----------

  lemma {:induction false} FlushRemoves(s: AgentState, entries: seq<Buffer.Entry>, i: nat, exchanges: nat -> Exchange)
    requires i <= |entries|
    ensures i <= FlushFrom(s, entries, i, exchanges).removed <= |entries|
    ensures FlushFrom(s, entries, i, exchanges).outcome == Continue ==>
            FlushFrom(s, entries, i, exchanges).removed == |entries|
    decreases |entries| - i
  {
    if i < |entries| {
      FlushRemoves(TurnStep(s, entries[i], exchanges(i)).state, entries, i + 1, exchanges);
    }
  }
}
