/**
 The agent object: its methods run the source's statements over a queue, an identity
 and a sync state that shares its family table, and each is proved to take the step
 that the value model describes.
 */
module Agent {
  import opened Prelude
  import opened Protocol
  import opened Compact
  import opened AgentModel
  import Identity
  import Buffer

  class Agent {
    const queue: Buffer.Queue
    const identity: Identity.Identity
    const binary: Binary
    var telemetry: SyncState
    var syncFile: SyncFile
    var monitoring: Monitoring
    var dormantFile: bool
    var attempts: nat

    ghost predicate Valid()
      reads this, queue
    {
      queue.Valid()
    }

    ghost function State(): AgentState
      reads this, queue, identity, telemetry.families
    {
      AgentState(telemetry.families.table, telemetry.capabilitiesHash, syncFile, queue.State(), identity.State(),
                 monitoring, dormantFile, attempts)
    }

    /** `New`: what the files hold becomes the state in memory. */
    constructor (queue: Buffer.Queue, identity: Identity.Identity, binary: Binary, syncFile: SyncFile,
                 monitoring: Monitoring, dormantFile: bool, attempts: nat)
      requires queue.Valid()
      ensures Valid() && this.queue == queue && this.identity == identity && this.binary == binary
      ensures fresh(telemetry.families)
      ensures State() == AgentState(LoadedTable(syncFile), LoadedHash(syncFile), syncFile, queue.State(),
                                    identity.State(),
                                    monitoring, dormantFile, attempts)
    {
      this.queue, this.identity, this.binary := queue, identity, binary;
      this.syncFile, this.monitoring, this.dormantFile, this.attempts := syncFile, monitoring, dormantFile, attempts;
      var families := new Families(LoadedTable(syncFile));
      this.telemetry := SyncState(LoadedHash(syncFile), families);
    }

    method WriteTelemetry(next: SyncState, outcome: WriteOutcome) returns (ok: bool)
      modifies this`syncFile
      ensures State() == WriteSync(old(State()), next.capabilitiesHash, next.families.table, outcome)
      ensures ok == (outcome == Written)
    {
      if Renamed(outcome) {
        syncFile := Stored(next.capabilitiesHash, next.families.table);
      }
      ok := outcome == Written;
    }

    method Collect(env: CollectEnv) returns (ok: bool)
      requires Valid()
      modifies this, queue, identity, telemetry.families
      ensures Valid() && telemetry.families == old(telemetry.families)
      ensures var c := CollectStep(old(State()), env, binary); State() == c.state && ok == c.ok
    {
      if env.observation.None? {
        return false;
      }
      var sequence := identity.ReserveSequence(env.reserve);
      if sequence.None? {
        return false;
      }
      if !env.droppedReadable {
        return false;
      }
      if env.monitoring.None? {
        return false;
      }
      var o := env.observation.value;
      var heartbeat := Heartbeat(sequence.value,
                                 if o.collectedAt.Some? then o.collectedAt.value else env.clock,
                                 queue.dropped,
                                 if env.monitoring.value then monitoring.revision else 0,
                                 Merged(o.capabilities, binary), "", o.inventory, None);
      if env.compact.None? {
        return false;
      }
      ok := FinishCollect(heartbeat, env);
    }

    /** The rest of `Collect`, from the raw heartbeat to the sync file. */
    method FinishCollect(raw: Heartbeat, env: CollectEnv) returns (ok: bool)
      requires Valid() && env.compact.Some?
      modifies this, queue, telemetry.families
      ensures Valid() && telemetry.families == old(telemetry.families)
      ensures var c := Finish(old(State()), raw, env, binary); State() == c.state && ok == c.ok
    {
      var heartbeat := raw;
      var nextTelemetry := telemetry;
      if env.compact.value {
        var built, compact, next := BuildCompactHeartbeat(heartbeat, telemetry, binary.digests);
        if !built {
          return false;
        }
        heartbeat, nextTelemetry := compact, next;
      }
      ok := Enqueue(heartbeat, env);
      if !ok {
        return;
      }
      if env.compact.value {
        ok := WriteTelemetry(nextTelemetry, env.sync);
        if !ok {
          return;
        }
        telemetry := nextTelemetry;
      }
    }

    /** Validates and encodes the heartbeat and adds it to the queue. */
    method Enqueue(heartbeat: Heartbeat, env: CollectEnv) returns (ok: bool)
      requires Valid()
      modifies queue
      ensures Valid()
      ensures if !Fits(heartbeat, env) then !ok && State() == old(State())
              else
                var added := Buffer.AddTo(old(queue.State()), EntryFor(heartbeat, env.encoding.value), env.queue);
                ok == added.ok && State() == old(State()).(queue := added.state)
    {
      var valid := Validate(heartbeat, env.otherClauses);
      if !valid || env.encoding.None? {
        return false;
      }
      if env.encoding.value.decompressed > env.limits.decompressed {
        return false;
      }
      if env.encoding.value.compressed > env.limits.compressed {
        return false;
      }
      var _, added := queue.Add(EntryFor(heartbeat, env.encoding.value), env.queue);
      ok := added;
    }

    method Validate(hb: Heartbeat, otherClauses: bool) returns (valid: bool)
      ensures valid <==> ValidHeartbeat(hb, otherClauses)
    {
      if hb.sequence == 0 || !otherClauses {
        return false;
      }
      if |hb.capabilities| == 0 && !IsSha256Hex(hb.capabilitiesHash) {
        return false;
      }
      if hb.state.Some? {
        var state := hb.state.value;
        var todo := state.Keys;
        while todo != {}
          invariant todo <= state.Keys
          invariant forall f :: f in state && f !in todo ==>
                      state[f].revision != 0 && |state[f].changed| <= 512 && |state[f].removed| <= 512
          decreases todo
        {
          var f :| f in todo;
          if state[f].revision == 0 || |state[f].changed| > 512 || |state[f].removed| > 512 {
            return false;
          }
          todo := todo - {f};
        }
      }
      valid := true;
    }

    method ApplyMonitoringConfig(config: Monitoring, write: bool) returns (ok: bool)
      modifies this`monitoring
      ensures var s := old(State());
              if !ValidMonitoring(config) then !ok && State() == s
              else if config.revision <= s.monitoring.revision then ok && State() == s
              else ok == write && State() == if write then s.(monitoring := config) else s
    {
      if !ValidMonitoring(config) {
        return false;
      }
      if config.revision <= monitoring.revision {
        return true;
      }
      if !write {
        return false;
      }
      monitoring := config;
      ok := true;
    }

    /** Any error of examining the file reads as its absence. */
    method Dormant(statFails: bool) returns (dormant: bool)
      ensures dormant == SeenDormant(State(), statFails)
    {
      dormant := dormantFile && !statFails;
    }

    method MarkDormant(write: bool) returns (ok: bool)
      modifies this`dormantFile
      ensures ok == write && State() == if write then old(State()).(dormant := true) else old(State())
    {
      if !write {
        return false;
      }
      dormantFile := true;
      ok := true;
    }

    /** The server asked for capabilities or for families in full. */
    method ApplyRequest(ack: Acknowledgement, sync: WriteOutcome) returns (ok: bool)
      modifies this, telemetry.families
      ensures telemetry.families == old(telemetry.families)
      ensures State() == Requested(old(State()), ack, sync) && ok == (sync == Written)
    {
      if ack.requestCapabilities {
        telemetry := telemetry.(capabilitiesHash := "");
      }
      ghost var before := telemetry.families.table;
      for i := 0 to |ack.reconcile|
        invariant telemetry
                  == SyncState(if ack.requestCapabilities then "" else old(telemetry).capabilitiesHash,
                               old(telemetry).families)
        invariant telemetry.families.table == Reconciled(before, ack.reconcile[..i])
        invariant State()
                  == old(State()).(capabilitiesHash := telemetry.capabilitiesHash, table := telemetry.families.table)
      {
        assert ack.reconcile[..i + 1][..i] == ack.reconcile[..i];
        var family := ack.reconcile[i];
        var state := SyncOf(telemetry.families.table, family);
        state := state.(lastFullAt := None);
        telemetry.families.table := telemetry.families.table[family := state];
      }
      assert ack.reconcile[..|ack.reconcile|] == ack.reconcile;
      ok := WriteTelemetry(telemetry, sync);
    }

    /** A confirmed entry leaves the queue and its drop report is acknowledged. */
    method ConfirmEntry(entry: Buffer.Entry, x: Exchange) returns (ok: bool)
      requires Valid()
      modifies queue
      ensures Valid()
      ensures var t := Confirm(old(State()), entry, x); State() == t.state && ok == (t.outcome == Continue)
    {
      ok := queue.Remove(entry.sequence, x.remove);
      if !ok {
        return;
      }
      if Reported(entry) > 0 {
        ok := queue.AcknowledgeDropped(Reported(entry), x.metadata);
      }
    }

    method HandleRequest(entry: Buffer.Entry, request: Option<Acknowledgement>, x: Exchange) returns (outcome: Outcome)
      requires Valid()
      modifies this, queue, telemetry.families
      ensures Valid() && telemetry.families == old(telemetry.families)
      ensures var t := RequestStep(old(State()), entry, request, x); State() == t.state && outcome == t.outcome
    {
      if request.Some? && (request.value.requestCapabilities || |request.value.reconcile| > 0) {
        var written := ApplyRequest(request.value, x.sync);
        if !written {
          return Stopped;
        }
      }
      var confirmed := ConfirmEntry(entry, x);
      outcome := if confirmed then Continue else Stopped;
    }

    /** The policy and the requests of an accepted answer, then the confirmation. */
    method ApplyAnswer(entry: Buffer.Entry, policy: Option<Monitoring>, request: Option<Acknowledgement>, x: Exchange)
      returns (outcome: Outcome)
      requires Valid()
      modifies this, queue, telemetry.families
      ensures Valid() && telemetry.families == old(telemetry.families)
      ensures var t := AcceptStep(old(State()), entry, policy, request, x); State() == t.state && outcome == t.outcome
    {
      if policy.Some? {
        var applied := ApplyMonitoringConfig(policy.value, x.monitoringWrite);
        if !applied {
          return Stopped;
        }
      }
      outcome := HandleRequest(entry, request, x);
    }

    /** One delivery attempt. */
    method Send(entry: Buffer.Entry, x: Exchange) returns (verdict: Verdict)
      modifies this`attempts
      ensures State() == old(State()).(attempts := old(attempts) + 1) && verdict == Judge(x.reply, entry.sequence)
    {
      attempts := attempts + 1;
      verdict := Judge(x.reply, entry.sequence);
    }

    /** One turn of the loop: an attempt and what its verdict asks for. A replayed entry
        comes with an empty response. */
    method DeliverEntry(entry: Buffer.Entry, x: Exchange) returns (outcome: Outcome)
      requires Valid()
      modifies this, queue, telemetry.families
      ensures Valid() && telemetry.families == old(telemetry.families)
      ensures var t := TurnStep(old(State()), entry, x); State() == t.state && outcome == t.outcome
    {
      var verdict := Send(entry, x);
      ghost var t := TurnStep(old(State()), entry, x);
      assert t == VerdictStep(State(), entry, verdict, x);
      match verdict
      case Revoked =>
        var marked := MarkDormant(x.dormantWrite);
        outcome := if marked then StoppedRevoked else Stopped;
      case Failed => outcome := Stopped;
      case Replayed => outcome := ApplyAnswer(entry, None, None, x);
      case Accepted(policy, request) => outcome := ApplyAnswer(entry, policy, request, x);
    }

    method Flush(exchanges: nat -> Exchange) returns (outcome: Outcome)
      requires Valid()
      modifies this, queue, telemetry.families
      ensures Valid() && telemetry.families == old(telemetry.families)
      ensures var f := FlushStep(old(State()), exchanges); State() == f.state && outcome == f.outcome
    {
      var entries := queue.Entries();
      for i := 0 to |entries|
        invariant Valid() && telemetry.families == old(telemetry.families)
        invariant FlushFrom(State(), entries, i, exchanges) == FlushStep(old(State()), exchanges)
      {
        var turned := DeliverEntry(entries[i], exchanges(i));
        if turned != Continue {
          return turned;
        }
      }
      outcome := Continue;
    }

    method Contract(env: ContractEnv) returns (ok: bool)
      requires Valid()
      modifies queue
      ensures Valid()
      ensures var c := ContractStep(old(State()), env); State() == c.state && ok == c.ok
    {
      if env.contract.None? {
        return false;
      }
      var _, limited := queue.SetLimits(env.contract.value, env.faults);
      ok := limited;
    }

    /** `sent` is the sequence the snapshot was sent with. */
    method SubmitHardwareSnapshot(env: SnapshotEnv) returns (sent: Option<nat>)
      requires Valid()
      modifies this`attempts, identity
      ensures Valid() && SnapshotStep(old(State()), env) == Submitted(State(), sent)
      ensures SeenDormant(old(State()), env.statFails) ==> sent.None?
    {
      var dormant := Dormant(env.statFails);
      if dormant {
        return None;
      }
      if !env.valid {
        return None;
      }
      sent := identity.ReserveSequence(env.reserve);
      if sent.Some? {
        attempts := attempts + 1;
      }
    }

    method Tick(env: TickEnv) returns (revoked: bool)
      requires Valid()
      modifies this, queue, identity, telemetry.families
      ensures Valid() && telemetry.families == old(telemetry.families)
      ensures TickStep(old(State()), env, binary) == Ticked(State(), revoked)
    {
      var collected := Collect(env.collect);
      if !collected {
        return false;
      }
      var outcome := Flush(env.exchanges);
      revoked := outcome == StoppedRevoked;
    }

    /** `RunOnce`: a run of a single tick; a dormant agent refuses it. */
    method RunOnce(contract: ContractEnv, tick: TickEnv) returns (refused: bool)
      requires Valid()
      modifies this, queue, identity, telemetry.families
      ensures Valid() && refused == SeenDormant(old(State()), contract.statFails)
      ensures State() == RunTicks(old(State()), contract, [tick], binary)
    {
      var dormant := Dormant(contract.statFails);
      if dormant {
        return true;
      }
      var ok := Contract(contract);
      if ok {
        OneTick(State(), tick, binary);
        var _ := Tick(tick);
      }
      refused := false;
    }

    /** `Run` until its context ends after the given ticks. A dormant agent only
        waits; a revocation ends the loop in the same wait. */
    method Run(contract: ContractEnv, ticks: seq<TickEnv>) returns (waiting: bool)
      requires Valid()
      modifies this, queue, identity, telemetry.families
      ensures Valid()
      ensures SeenDormant(old(State()), contract.statFails) ==> waiting && State() == old(State())
      ensures State() == RunTicks(old(State()), contract, ticks, binary)
      ensures dormantFile && !old(dormantFile) ==> waiting
    {
      var dormant := Dormant(contract.statFails);
      if dormant {
        return true;
      }
      var ok := Contract(contract);
      if !ok {
        return false;
      }
      ghost var started := State();
      for i := 0 to |ticks|
        invariant Valid() && telemetry.families == old(telemetry.families)
        invariant dormantFile == old(dormantFile)
        invariant TicksFrom(State(), ticks, i, binary) == TicksFrom(started, ticks, 0, binary)
      {
        TickDormant(State(), ticks[i], binary);
        var revoked := Tick(ticks[i]);
        if revoked {
          return true;
        }
      }
      waiting := false;
    }
  }

  ghost function TicksFrom(s: AgentState, ticks: seq<TickEnv>, i: nat, binary: Binary): AgentState
    requires i <= |ticks|
    decreases |ticks| - i
  {
    if i == |ticks| then s
    else
      var t := TickStep(s, ticks[i], binary);
      if t.revoked then t.state else TicksFrom(t.state, ticks, i + 1, binary)
  }

  ghost function RunTicks(s: AgentState, contract: ContractEnv, ticks: seq<TickEnv>, binary: Binary): AgentState
  {
    if SeenDormant(s, contract.statFails) then s
    else
      var c := ContractStep(s, contract);
      if !c.ok then c.state else TicksFrom(c.state, ticks, 0, binary)
  }

  lemma OneTick(s: AgentState, tick: TickEnv, binary: Binary)
    ensures TicksFrom(s, [tick], 0, binary) == TickStep(s, tick, binary).state
  {
    assert TicksFrom(TickStep(s, tick, binary).state, [tick], 1, binary) == TickStep(s, tick, binary).state;
  }

  lemma TickDormant(s: AgentState, env: TickEnv, binary: Binary)
    ensures var t := TickStep(s, env, binary); t.state.dormant <==> s.dormant || t.revoked
  {
    CollectKeeps(s, env.collect, binary);
    var c := CollectStep(s, env.collect, binary);
    FlushKeeps(c.state, c.state.queue.entries, 0, env.exchanges);
  }
}
