/**
 The agent as a value: collecting a heartbeat, flushing the queue, starting and
 stopping. Everything outside the agent (collectors, files, server) is a parameter
 that says how each call to it ends.
 */
module AgentModel {
  import opened Prelude
  import opened Protocol
  import opened Compact
  import opened Identity
  import Buffer

  // ---------- State ----------

  /** `telemetry-sync.json`. A file that does not decode, or has another version,
      loads like a missing one. */
  datatype SyncFile = Absent | Garbled | Stored(capabilitiesHash: string, table: FamilyTable)

  datatype Monitoring = Monitoring(revision: nat, enabled: bool, serviceIntervalSeconds: int)

  datatype AgentState = AgentState(
    table: FamilyTable,
    capabilitiesHash: string,
    syncFile: SyncFile,
    queue: Buffer.QueueState,
    device: Device,
    monitoring: Monitoring,
    dormant: bool,
    attempts: nat)

  /** The limits a process opens the queue with, before it has a contract. */
  const OpenLimits := Buffer.Limits(60, 10485760)

  function LoadedTable(file: SyncFile): FamilyTable {
    if file.Stored? then file.table else map[]
  }

  function LoadedHash(file: SyncFile): string {
    if file.Stored? then file.capabilitiesHash else ""
  }

  function WriteSync(s: AgentState, capabilitiesHash: string, table: FamilyTable, outcome: WriteOutcome): AgentState {
    if Renamed(outcome) then s.(syncFile := Stored(capabilitiesHash, table)) else s
  }

  // ---------- Collect ----------

  datatype Observation = Observation(collectedAt: Option<int>, capabilities: Capabilities, inventory: Inventory)

  datatype Encoding = Encoding(compressed: nat, decompressed: nat)

  /** How the calls of one `Collect` end, in order. `monitoring` and `compact` say
      whether the contract's schema supports them (`None`: the check failed);
      `otherClauses` is the verdict of validation on what is not modelled. */
  datatype CollectEnv = CollectEnv(
    observation: Option<Observation>,
    clock: int,
    reserve: WriteOutcome,
    droppedReadable: bool,
    monitoring: Option<bool>,
    compact: Option<bool>,
    otherClauses: bool,
    encoding: Option<Encoding>,
    limits: Encoding,
    queue: Buffer.Faults,
    sync: WriteOutcome)

  /** What the binary adds to every capability map. */
  datatype Binary = Binary(capabilities: Capabilities, digests: Digests)

  const PolicyCapability := "notifications.monitoring-policy"

  function Merged(observed: Capabilities, binary: Binary): (c: Capabilities)
    ensures c != map[]
  {
    var c := (observed + binary.capabilities)[PolicyCapability :=
                                              Capability(Available, "revisioned heartbeat-response policy")];
    assert PolicyCapability in c;
    c
  }

  function RawHeartbeat(s: AgentState, env: CollectEnv, binary: Binary, sequence: nat): Heartbeat
    requires env.observation.Some? && env.monitoring.Some?
  {
    var o := env.observation.value;
    Heartbeat(sequence,
              if o.collectedAt.Some? then o.collectedAt.value else env.clock,
              s.queue.dropped,
              if env.monitoring.value then s.monitoring.revision else 0,
              Merged(o.capabilities, binary), "", o.inventory, None)
  }

  ghost predicate ValidHeartbeat(hb: Heartbeat, otherClauses: bool) {
    hb.sequence != 0 && CapabilityClause(hb) && StateClause(hb) && otherClauses
  }

  /** `queued` is the entry written to the queue directory, if any; `built` tells
      whether the compact builder ran to its end. */
  datatype Collected = Collected(state: AgentState, ok: bool, queued: Option<Buffer.Entry>, built: bool)

  ghost function Abandoned(s: AgentState): Collected {
    Collected(s, false, None, false)
  }

  ghost function CollectStep(s: AgentState, env: CollectEnv, binary: Binary): Collected
  {
    if env.observation.None? then Abandoned(s)
    else
      var reserved := Reserve(s.device, env.reserve);
      var s1 := s.(device := reserved.device);
      if reserved.sequence.None? || !env.droppedReadable || env.monitoring.None? || env.compact.None? then Abandoned(s1)
      else Finish(s1, RawHeartbeat(s, env, binary, reserved.sequence.value), env, binary)
  }

  /** The compact heartbeat, or the raw one where the contract does not support it. */
  ghost function BuildOf(s: AgentState, raw: Heartbeat, compact: bool, binary: Binary): Compacted {
    if compact then CompactOf(raw, s.table, s.capabilitiesHash, binary.digests)
    else Compacted(true, raw, s.table, s.capabilitiesHash)
  }

  /** From the raw heartbeat to the queue and the sync file. A failure after the
      build leaves the family table as the build left it. */
  ghost function Finish(s: AgentState, raw: Heartbeat, env: CollectEnv, binary: Binary): Collected
    requires env.compact.Some?
  {
    var k := BuildOf(s, raw, env.compact.value, binary);
    var s1 := s.(table := k.table);
    if !k.ok then Abandoned(s1) else Enqueued(s1, k, env)
  }

  function EntryFor(hb: Heartbeat, encoding: Encoding): Buffer.Entry {
    Buffer.Entry(hb.sequence, Buffer.Stored(hb, encoding.compressed, encoding.decompressed))
  }

  /** The heartbeat is valid and its encoding within the contract. */
  ghost predicate Fits(hb: Heartbeat, env: CollectEnv) {
    && ValidHeartbeat(hb, env.otherClauses) && env.encoding.Some?
    && env.encoding.value.decompressed <= env.limits.decompressed
    && env.encoding.value.compressed <= env.limits.compressed
  }

  /** From a built heartbeat on. */
  ghost function Enqueued(s: AgentState, k: Compacted, env: CollectEnv): Collected
    requires env.compact.Some?
  {
    var compact := env.compact.value;
    if !Fits(k.heartbeat, env) then Collected(s, false, None, compact)
    else
      var entry := EntryFor(k.heartbeat, env.encoding.value);
      var added := Buffer.AddTo(s.queue, entry, env.queue);
      var queued := if Buffer.Stores(s.queue, entry, env.queue) then Some(entry) else None;
      var s1 := s.(queue := added.state);
      if !added.ok || !compact then Collected(s1, added.ok, queued, compact)
      else
        var s2 := WriteSync(s1, k.capabilitiesHash, k.table, env.sync);
        if env.sync != Written then Collected(s2, false, queued, true)
        else Collected(s2.(capabilitiesHash := k.capabilitiesHash), true, queued, true)
  }

  // ---------- Flush ----------

  datatype ErrorCode = RegistrationRevoked | ReplayedRequest | OtherCode

  datatype Acknowledgement = Acknowledgement(reconcile: seq<Family>, requestCapabilities: bool)

  /** What comes back from one delivery attempt. */
  datatype Reply =
    | Unreachable
    | Status(code: nat, error: ErrorCode)
    | Answer(ok: bool, sequence: nat, monitoring: Option<Monitoring>, telemetry: Option<Acknowledgement>)

  datatype Verdict =
    | Accepted(monitoring: Option<Monitoring>, telemetry: Option<Acknowledgement>)
    | Replayed
    | Revoked
    | Failed

  predicate ValidMonitoring(m: Monitoring) {
    m.revision != 0 && 60 <= m.serviceIntervalSeconds <= 3600
  }

  /** `SendHeartbeat` accepts only an answer that is ok, names the sequence that was
      sent, and carries no invalid policy; Flush tells two error replies apart. */
  function Judge(reply: Reply, sequence: nat): Verdict {
    match reply
    case Unreachable => Failed
    case Status(code, error) =>
      if code == 410 && error == RegistrationRevoked then Revoked
      else if code == 409 && error == ReplayedRequest then Replayed
      else Failed
    case Answer(ok, answered, monitoring, telemetry) =>
      if !ok || answered != sequence then Failed
      else if monitoring.Some? && !ValidMonitoring(monitoring.value) then Failed
      else Accepted(monitoring, telemetry)
  }

  /** One turn of the Flush loop: the reply, and whether each file operation works. */
  datatype Exchange = Exchange(reply: Reply, dormantWrite: bool, monitoringWrite: bool, sync: WriteOutcome,
                               remove: bool, metadata: bool)

  datatype Outcome = Continue | Stopped | StoppedRevoked

  /** `removed`: the entry left the queue because its delivery was confirmed. */
  datatype Turn = Turn(state: AgentState, outcome: Outcome, removed: bool)

  function Reconciled(table: FamilyTable, families: seq<Family>): FamilyTable {
    if families == [] then table
    else
      var family := families[|families| - 1];
      var before := Reconciled(table, families[..|families| - 1]);
      before[family := SyncOf(before, family).(lastFullAt := None)]
  }

  function Requested(s: AgentState, ack: Acknowledgement, sync: WriteOutcome): AgentState {
    var s1 := s.(capabilitiesHash := if ack.requestCapabilities then "" else s.capabilitiesHash,
                 table := Reconciled(s.table, ack.reconcile));
    WriteSync(s1, s1.capabilitiesHash, s1.table, sync)
  }

  /** `reportedDropped` reads at most one mebibyte; a longer body does not decode. */
  const ReportLimit: nat := 1024 * 1024

  function Reported(entry: Buffer.Entry): nat {
    if entry.file.decompressed <= ReportLimit then entry.file.body.droppedSamples else 0
  }

  function Confirm(s: AgentState, entry: Buffer.Entry, x: Exchange): Turn {
    if !x.remove then Turn(s, Stopped, false)
    else
      var s1 := s.(queue := s.queue.(entries := Buffer.Without(s.queue.entries, entry.sequence)));
      var reported := Reported(entry);
      if reported == 0 then Turn(s1, Continue, true)
      else if !x.metadata then Turn(s1, Stopped, true)
      else Turn(s1.(queue := s1.queue.(dropped := Buffer.Acknowledged(s1.queue.dropped, reported))), Continue, true)
  }

  predicate NewPolicy(s: AgentState, monitoring: Option<Monitoring>) {
    monitoring.Some? && monitoring.value.revision > s.monitoring.revision
  }

  predicate HasRequest(telemetry: Option<Acknowledgement>) {
    telemetry.Some? && (telemetry.value.requestCapabilities || |telemetry.value.reconcile| > 0)
  }

  function RequestStep(s: AgentState, entry: Buffer.Entry, request: Option<Acknowledgement>, x: Exchange): Turn {
    if !HasRequest(request) then Confirm(s, entry, x)
    else
      var asked := Requested(s, request.value, x.sync);
      if x.sync != Written then Turn(asked, Stopped, false) else Confirm(asked, entry, x)
  }

  /** The common tail of an accepted and of a replayed delivery; the latter has an
      empty response. */
  function AcceptStep(s: AgentState, entry: Buffer.Entry, policy: Option<Monitoring>, request: Option<Acknowledgement>,
                      x: Exchange): Turn {
    if policy.Some? && !ValidMonitoring(policy.value) then Turn(s, Stopped, false)
    else if !NewPolicy(s, policy) then RequestStep(s, entry, request, x)
    else if !x.monitoringWrite then Turn(s, Stopped, false)
    else RequestStep(s.(monitoring := policy.value), entry, request, x)
  }

  function VerdictStep(s: AgentState, entry: Buffer.Entry, verdict: Verdict, x: Exchange): Turn {
    match verdict
    case Failed => Turn(s, Stopped, false)
    case Revoked => if x.dormantWrite then Turn(s.(dormant := true), StoppedRevoked, false) else Turn(s, Stopped, false)
    case Replayed => AcceptStep(s, entry, None, None, x)
    case Accepted(policy, request) => AcceptStep(s, entry, policy, request, x)
  }

  function TurnStep(s: AgentState, entry: Buffer.Entry, x: Exchange): Turn {
    VerdictStep(s.(attempts := s.attempts + 1), entry, Judge(x.reply, entry.sequence), x)
  }

  datatype Flushed = Flushed(state: AgentState, outcome: Outcome, removed: nat)

  /** The Flush loop from entry `i` on; `removed` counts the entries that left. */
  function FlushFrom(s: AgentState, entries: seq<Buffer.Entry>, i: nat, exchanges: nat -> Exchange): Flushed
    requires i <= |entries|
    decreases |entries| - i
  {
    if i == |entries| then Flushed(s, Continue, i)
    else
      var turn := TurnStep(s, entries[i], exchanges(i));
      if turn.outcome == Continue then FlushFrom(turn.state, entries, i + 1, exchanges)
      else Flushed(turn.state, turn.outcome, if turn.removed then i + 1 else i)
  }

  function FlushStep(s: AgentState, exchanges: nat -> Exchange): Flushed {
    FlushFrom(s, s.queue.entries, 0, exchanges)
  }

  // ---------- Process life ----------

  /** `statFails`: the dormancy file cannot be examined, which reads as its absence. */
  datatype ContractEnv = ContractEnv(statFails: bool, contract: Option<Buffer.Limits>, faults: Buffer.Faults)

  datatype Limited = Limited(state: AgentState, ok: bool)

  /** Fetching a contract, or using the cached one, ends by applying its limits. */
  function ContractStep(s: AgentState, env: ContractEnv): Limited {
    if env.contract.None? then Limited(s, false)
    else
      var r := Buffer.LimitTo(s.queue, env.contract.value, env.faults);
      Limited(s.(queue := r.state), r.ok)
  }

  /** Does the process find itself dormant? */
  predicate SeenDormant(s: AgentState, statFails: bool) {
    s.dormant && !statFails
  }

  /** A new process: everything in memory is read back from the files. */
  function RestartStep(s: AgentState, boot: WriteOutcome): AgentState {
    s.(table := LoadedTable(s.syncFile), capabilitiesHash := LoadedHash(s.syncFile),
       queue := s.queue.(limits := OpenLimits), device := Boot(s.device, boot))
  }

  datatype SnapshotEnv = SnapshotEnv(statFails: bool, valid: bool, reserve: WriteOutcome)

  /** `sequence` is the one the snapshot was sent with, if it was sent. */
  datatype Submitted = Submitted(state: AgentState, sequence: Option<nat>)

  function SnapshotStep(s: AgentState, env: SnapshotEnv): Submitted {
    if SeenDormant(s, env.statFails) || !env.valid then Submitted(s, None)
    else
      var reserved := Reserve(s.device, env.reserve);
      var s1 := s.(device := reserved.device);
      Submitted(if reserved.sequence.None? then s1 else s1.(attempts := s1.attempts + 1), reserved.sequence)
  }

  datatype TickEnv = TickEnv(collect: CollectEnv, exchanges: nat -> Exchange)

  datatype Ticked = Ticked(state: AgentState, revoked: bool)

  /** One round of the run loop: a failed Collect skips the Flush. */
  ghost function TickStep(s: AgentState, env: TickEnv, binary: Binary): Ticked
  {
    var collected := CollectStep(s, env.collect, binary);
    if !collected.ok then Ticked(collected.state, false)
    else
      var flushed := FlushStep(collected.state, env.exchanges);
      Ticked(flushed.state, flushed.outcome == StoppedRevoked)
  }

  // ---------- What Collect leaves alone ----------

  /** Queueing either changed nothing, or it did exactly this. */
  ghost predicate WasQueued(s: AgentState, k: Compacted, env: CollectEnv, entry: Buffer.Entry,
                            added: Buffer.QueueResult, r: Collected)
    requires env.compact.Some?
  {
    var recorded := added.ok && env.compact.value;
    var file := if recorded && Renamed(env.sync) then Stored(k.capabilitiesHash, k.table) else s.syncFile;
    var hash := if recorded && env.sync == Written then k.capabilitiesHash else s.capabilitiesHash;
    && Fits(k.heartbeat, env) && entry == EntryFor(k.heartbeat, env.encoding.value) && r.queued == Some(entry)
    && Buffer.Stores(s.queue, entry, env.queue) && added == Buffer.AddTo(s.queue, entry, env.queue)
    && r.ok == (added.ok && (env.compact.value ==> env.sync == Written))
    && r.state == s.(queue := added.state, syncFile := file, capabilitiesHash := hash)
  }

  lemma EnqueuedCases(s: AgentState, k: Compacted, env: CollectEnv)
    returns (entry: Buffer.Entry, added: Buffer.QueueResult)
    requires env.compact.Some?
    ensures var r := Enqueued(s, k, env);
            && r.built == env.compact.value
            && (r.queued.None? <==> !(Fits(k.heartbeat, env)
                                      && Buffer.Stores(s.queue, EntryFor(k.heartbeat, env.encoding.value), env.queue)))
            && (if r.queued.None? then r.state == s && !r.ok else WasQueued(s, k, env, entry, added, r))
  {
    entry := Buffer.Entry(0, Buffer.Stored(k.heartbeat, 0, 0));
    added := Buffer.QueueResult(s.queue, 0, false);
    if Fits(k.heartbeat, env) {
      entry := EntryFor(k.heartbeat, env.encoding.value);
      added := Buffer.AddTo(s.queue, entry, env.queue);
      if !Buffer.Stores(s.queue, entry, env.queue) {
        Buffer.AddRefused(s.queue, entry, env.queue);
      }
    }
  }

  /** A Collect that finishes stops at a failed build or queues what was built. */
  lemma FinishCases(s: AgentState, raw: Heartbeat, env: CollectEnv, binary: Binary)
    returns (k: Compacted, r: Collected, entry: Buffer.Entry, added: Buffer.QueueResult)
    requires env.compact.Some?
    ensures k == BuildOf(s, raw, env.compact.value, binary) && r == Finish(s, raw, env, binary)
    ensures r.built == (k.ok && env.compact.value)
    ensures var s1 := s.(table := k.table);
            && (r.queued.None? <==> !(k.ok && Fits(k.heartbeat, env)
                                      && Buffer.Stores(s.queue, EntryFor(k.heartbeat, env.encoding.value), env.queue)))
            && (if r.queued.None? then r.state == s1 && !r.ok else k.ok && WasQueued(s1, k, env, entry, added, r))
  {
    k, r := BuildOf(s, raw, env.compact.value, binary), Finish(s, raw, env, binary);
    entry, added := EnqueuedCases(s.(table := k.table), k, env);
  }

  lemma FinishKeeps(s: AgentState, raw: Heartbeat, env: CollectEnv, binary: Binary)
    requires env.compact.Some?
    ensures var t := Finish(s, raw, env, binary).state;
            && t.queue.limits == s.queue.limits && t.device == s.device
            && t.dormant == s.dormant && t.monitoring == s.monitoring && t.attempts == s.attempts
  {
    var k, r, entry, added := FinishCases(s, raw, env, binary);
    if r.queued.Some? {
      Buffer.AddKeepsLimits(s.queue, entry, env.queue);
    }
  }

  lemma CollectKeeps(s: AgentState, env: CollectEnv, binary: Binary)
    ensures var t := CollectStep(s, env, binary).state;
            t.queue.limits == s.queue.limits && t.dormant == s.dormant && t.monitoring == s.monitoring
            && t.attempts == s.attempts
  {
    if env.observation.Some? && env.monitoring.Some? && env.compact.Some? {
      var reserved := Reserve(s.device, env.reserve);
      if reserved.sequence.Some? {
        FinishKeeps(s.(device := reserved.device), RawHeartbeat(s, env, binary, reserved.sequence.value), env, binary);
      }
    }
  }

  // ---------- How a turn ends ----------

  /** The reply confirms that the server has the entry: an ok answer for its sequence,
      without a policy or with a valid one, or the conflict of a replay. */
  predicate Confirms(reply: Reply, sequence: nat) {
    || reply == Status(409, ReplayedRequest)
    || (reply.Answer? && reply.ok && reply.sequence == sequence
        && (reply.monitoring.Some? ==>
              reply.monitoring.value.revision > 0 && 60 <= reply.monitoring.value.serviceIntervalSeconds <= 3600))
  }

  /** Every file operation that the reply calls for works. */
  predicate FilesWork(s: AgentState, x: Exchange) {
    && x.remove
    && (x.reply.Answer? && x.reply.monitoring.Some? && x.reply.monitoring.value.revision > s.monitoring.revision ==>
          x.monitoringWrite)
    && (x.reply.Answer? && x.reply.telemetry.Some?
        && (x.reply.telemetry.value.requestCapabilities || x.reply.telemetry.value.reconcile != []) ==>
           x.sync == Written)
  }

  /** An entry leaves the queue if and only if the reply confirms it and every file
      operation works that the reply calls for; the loop goes on if and only if, besides,
      the report that the entry made can be acknowledged. */
  lemma ConfirmedExact(s: AgentState, entry: Buffer.Entry, x: Exchange)
    ensures var t := TurnStep(s, entry, x);
            && (t.removed <==> Confirms(x.reply, entry.sequence) && FilesWork(s, x))
            && (t.outcome == Continue <==> t.removed && (Reported(entry) == 0 || x.metadata))
  {
    var s0 := s.(attempts := s.attempts + 1);
    match Judge(x.reply, entry.sequence)
    case Accepted(policy, request) => AcceptedExact(s0, entry, policy, request, x);
    case Replayed => AcceptedExact(s0, entry, None, None, x);
    case _ =>
  }

  lemma AcceptedExact(s: AgentState, entry: Buffer.Entry, policy: Option<Monitoring>, request: Option<Acknowledgement>,
                      x: Exchange)
    ensures var t := AcceptStep(s, entry, policy, request, x);
            && (t.removed <==>
                  && x.remove && (policy.Some? ==> ValidMonitoring(policy.value))
                  && (NewPolicy(s, policy) ==> x.monitoringWrite) && (HasRequest(request) ==> x.sync == Written))
            && (t.outcome == Continue <==> t.removed && (Reported(entry) == 0 || x.metadata))
  {
  }

  /** A turn ends with the revocation error if and only if the server answers that the
      registration was revoked and this could be recorded. */
  lemma RevokedExact(s: AgentState, entry: Buffer.Entry, x: Exchange)
    ensures TurnStep(s, entry, x).outcome == StoppedRevoked
            <==> x.dormantWrite && x.reply == Status(410, RegistrationRevoked)
  {
    var s0 := s.(attempts := s.attempts + 1);
    match Judge(x.reply, entry.sequence)
    case Accepted(policy, request) => AcceptedStops(s0, entry, policy, request, x);
    case Replayed => AcceptedStops(s0, entry, None, None, x);
    case _ =>
  }

  lemma AcceptedStops(s: AgentState, entry: Buffer.Entry, policy: Option<Monitoring>, request: Option<Acknowledgement>,
                      x: Exchange)
    ensures AcceptStep(s, entry, policy, request, x).outcome in {Continue, Stopped}
  {
  }

  /** The policy in force after a turn: the one of a confirming answer, if it is newer and
      could be written; otherwise the one before. */
  lemma PolicyExact(s: AgentState, entry: Buffer.Entry, x: Exchange)
    ensures TurnStep(s, entry, x).state.monitoring
            == if Confirms(x.reply, entry.sequence) && x.reply.Answer? && x.reply.monitoring.Some?
                  && x.reply.monitoring.value.revision > s.monitoring.revision && x.monitoringWrite
               then x.reply.monitoring.value else s.monitoring
  {
    var s0 := s.(attempts := s.attempts + 1);
    match Judge(x.reply, entry.sequence)
    case Accepted(policy, request) => AcceptedPolicy(s0, entry, policy, request, x);
    case Replayed => AcceptedPolicy(s0, entry, None, None, x);
    case _ =>
  }

  lemma AcceptedPolicy(s: AgentState, entry: Buffer.Entry, policy: Option<Monitoring>, request: Option<Acknowledgement>,
                       x: Exchange)
    requires policy.Some? ==> ValidMonitoring(policy.value)
    ensures AcceptStep(s, entry, policy, request, x).state.monitoring
            == if policy.Some? && policy.value.revision > s.monitoring.revision && x.monitoringWrite then policy.value
               else s.monitoring
  {
  }

  /** What an answer may change before its confirmation: the policy moves on, requests
      are noted in memory and perhaps in the sync file. */
  ghost predicate Noted(s: AgentState, s1: AgentState, families: seq<Family>) {
    && s1.queue == s.queue && s1.device == s.device && s1.monitoring.revision >= s.monitoring.revision
    && s1.table == Reconciled(s.table, families) && s1.capabilitiesHash in {s.capabilitiesHash, ""}
    && (s1.syncFile == s.syncFile || s1.syncFile == Stored(s1.capabilitiesHash, s1.table))
  }

  /** A turn stops before the confirmation, or it ends with it; `families` are the
      reconcile requests it took up. */
  lemma TurnCases(s: AgentState, entry: Buffer.Entry, x: Exchange) returns (s1: AgentState, families: seq<Family>)
    ensures Noted(s, s1, families) && s1.attempts == s.attempts + 1
    ensures s1.dormant == (s.dormant || TurnStep(s, entry, x).outcome == StoppedRevoked)
    ensures var t := TurnStep(s, entry, x);
            || (t == Confirm(s1, entry, x) && Confirms(x.reply, entry.sequence))
            || (t.state == s1 && !t.removed && t.outcome != Continue)
    ensures var verdict := Judge(x.reply, entry.sequence);
            TurnStep(s, entry, x).removed && verdict.Accepted? ==>
              && Answered(s1, families, verdict.telemetry)
              && (verdict.monitoring.Some? ==> s1.monitoring.revision >= verdict.monitoring.value.revision)
  {
    var s0 := s.(attempts := s.attempts + 1);
    var verdict := Judge(x.reply, entry.sequence);
    match verdict
    case Accepted(policy, request) => s1, families := AcceptCases(s0, entry, policy, request, x);
    case Replayed => s1, families := AcceptCases(s0, entry, None, None, x);
    case _ => s1, families := TurnStep(s, entry, x).state, [];
  }

  /** The requests of an answer, all noted and written down. */
  ghost predicate Answered(s1: AgentState, families: seq<Family>, request: Option<Acknowledgement>) {
    HasRequest(request) ==>
      && families == request.value.reconcile && s1.syncFile == Stored(s1.capabilitiesHash, s1.table)
      && (request.value.requestCapabilities ==> s1.capabilitiesHash == "")
  }

  lemma AcceptCases(s: AgentState, entry: Buffer.Entry, policy: Option<Monitoring>, request: Option<Acknowledgement>,
                    x: Exchange)
    returns (s1: AgentState, families: seq<Family>)
    ensures Noted(s, s1, families) && s1.attempts == s.attempts && s1.dormant == s.dormant
    ensures var t := AcceptStep(s, entry, policy, request, x);
            || (t.state == s1 && !t.removed && t.outcome == Stopped)
            || (t == Confirm(s1, entry, x)
                && Answered(s1, families, request)
                && (policy.Some? ==> s1.monitoring.revision >= policy.value.revision))
  {
    var valid := policy.None? || ValidMonitoring(policy.value);
    s1 := if valid && NewPolicy(s, policy) && x.monitoringWrite then s.(monitoring := policy.value) else s;
    families := [];
    if valid && HasRequest(request) && (!NewPolicy(s, policy) || x.monitoringWrite) {
      s1 := Requested(s1, request.value, x.sync);
      families := request.value.reconcile;
    }
  }

  lemma TurnKeeps(s: AgentState, entry: Buffer.Entry, x: Exchange)
    ensures var t := TurnStep(s, entry, x);
            && t.state.queue.limits == s.queue.limits
            && (t.state.dormant <==> s.dormant || t.outcome == StoppedRevoked)
  {
    var s1, families := TurnCases(s, entry, x);
  }

  lemma {:induction false} FlushKeeps(s: AgentState, entries: seq<Buffer.Entry>, i: nat, exchanges: nat -> Exchange)
    requires i <= |entries|
    ensures var f := FlushFrom(s, entries, i, exchanges);
            && f.state.queue.limits == s.queue.limits
            && (f.state.dormant <==> s.dormant || f.outcome == StoppedRevoked)
    decreases |entries| - i
  {
    if i < |entries| {
      TurnKeeps(s, entries[i], exchanges(i));
      FlushKeeps(TurnStep(s, entries[i], exchanges(i)).state, entries, i + 1, exchanges);
    }
  }
}
