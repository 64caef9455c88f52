/**
 The device identity as a persisted counter: sequence numbers are never reused,
 even when persisting fails before or after its rename and the process restarts.
 */
module Identity {
  import opened Prelude

  /** The identity file, or an identity in memory. */
  datatype Counter = Counter(deviceId: nat, sequence: nat)

  /** A device: the identity of the running process, if any, and the identity file. */
  datatype Device = Device(memory: Option<Counter>, file: Option<Counter>)

  datatype Reserved = Reserved(device: Device, sequence: Option<nat>)

  const MaxSafeInteger: nat := 0x1F_FFFF_FFFF_FFFF

  // ---------- Specification ----------

  function Persist(d: Device, outcome: WriteOutcome): Device
    requires d.memory.Some?
  {
    if Renamed(outcome) then d.(file := d.memory) else d
  }

  /** `LoadOrCreate`: a missing file is created; if that fails no process runs. */
  function Boot(d: Device, outcome: WriteOutcome): Device {
    if d.file.Some? then d.(memory := d.file)
    else
      var created := Persist(Device(Some(Counter(0, 0)), None), outcome);
      if outcome == Written then created else created.(memory := None)
  }

  function Reserve(d: Device, outcome: WriteOutcome): Reserved {
    if d.memory.None? || d.memory.value.deviceId == 0 || d.memory.value.sequence == MaxUint64 then Reserved(d, None)
    else
      var next := d.memory.value.(sequence := d.memory.value.sequence + 1);
      var persisted := Persist(d.(memory := Some(next)), outcome);
      if outcome == Written then Reserved(persisted, Some(next.sequence))
      else Reserved(persisted.(memory := d.memory), None)
  }

  function Activate(d: Device, deviceId: nat, outcome: WriteOutcome): Device {
    if d.memory.None? || deviceId == 0 || deviceId > MaxSafeInteger then d
    else if d.memory.value.deviceId != 0 && d.memory.value.deviceId != deviceId then d
    else Persist(d.(memory := Some(d.memory.value.(deviceId := deviceId))), outcome)
  }

  // ---------- The identity object ----------

  class Identity {
    var deviceId: nat
    var sequence: nat
    var file: Option<Counter>

    ghost function State(): Device
      reads this
    {
      Device(Some(Counter(deviceId, sequence)), file)
    }

    constructor (memory: Counter, file: Option<Counter>)
      ensures State() == Device(Some(memory), file)
    {
      deviceId, sequence, this.file := memory.deviceId, memory.sequence, file;
    }

    method PersistLocked(outcome: WriteOutcome) returns (ok: bool)
      modifies this`file
      ensures State() == Persist(old(State()), outcome) && ok == (outcome == Written)
    {
      if Renamed(outcome) {
        file := Some(Counter(deviceId, sequence));
      }
      ok := outcome == Written;
    }

    method ReserveSequence(outcome: WriteOutcome) returns (reserved: Option<nat>)
      modifies this
      ensures Reserve(old(State()), outcome) == Reserved(State(), reserved)
    {
      if deviceId == 0 {
        return None;
      }
      if sequence == MaxUint64 {
        return None;
      }
      sequence := sequence + 1;
      var ok := PersistLocked(outcome);
      if !ok {
        sequence := sequence - 1;
        return None;
      }
      reserved := Some(sequence);
    }

    method ActivateDevice(id: nat, outcome: WriteOutcome) returns (ok: bool)
      modifies this
      ensures State() == Activate(old(State()), id, outcome)
      ensures ok ==> deviceId == id && file == Some(Counter(id, sequence))
    {
      if id == 0 || id > MaxSafeInteger {
        return false;
      }
      if deviceId != 0 && deviceId != id {
        return false;
      }
      deviceId := id;
      ok := PersistLocked(outcome);
    }
  }

  // ---------- Over the device's life ----------

  datatype Event =
    | BootEvent(outcome: WriteOutcome)
    | ActivateEvent(deviceId: nat, outcome: WriteOutcome)
    | ReserveEvent(outcome: WriteOutcome)

  /** The device after `events`, and the sequences handed out, oldest first. */
  function Life(d: Device, events: seq<Event>): (Device, seq<nat>) {
    if events == [] then (d, [])
    else
      var (before, given) := Life(d, events[..|events| - 1]);
      match events[|events| - 1]
      case BootEvent(outcome) => (Boot(before, outcome), given)
      case ActivateEvent(id, outcome) => (Activate(before, id, outcome), given)
      case ReserveEvent(outcome) =>
        var r := Reserve(before, outcome);
        (r.device, if r.sequence.Some? then given + [r.sequence.value] else given)
  }

  /** The counter on disk is at least `last`, and at most one ahead of memory. */
  predicate Covers(d: Device, last: nat) {
    && (d.file.None? ==> d.memory.None? && last == 0)
    && (d.file.Some? ==> last <= d.file.value.sequence <= MaxUint64)
    && (d.memory.Some? ==> last <= d.memory.value.sequence <= d.file.value.sequence <= d.memory.value.sequence + 1)
  }

  /** Every sequence handed out is covered and above all earlier ones. */
  lemma ReserveCovers(d: Device, last: nat, outcome: WriteOutcome)
    requires Covers(d, last)
    ensures var r := Reserve(d, outcome);
            if r.sequence.Some? then r.sequence.value > last
              && Covers(r.device, r.sequence.value) else Covers(r.device, last)
  {
  }

  lemma BootCovers(d: Device, last: nat, id: nat, outcome: WriteOutcome)
    requires Covers(d, last)
    ensures Covers(Boot(d, outcome), last) && Covers(Activate(d, id, outcome), last)
  {
  }

  /** Over any life of the device, with any failures and restarts, the sequences
      handed out strictly increase, never exceed 64 bits, and the file on disk is
      always at least every one of them. */
  lemma {:induction false} SequencesStrictlyIncrease(events: seq<Event>)
    ensures var (d, given) := Life(Device(None, None), events);
            && (forall i, j :: 0 <= i < j < |given| ==> given[i] < given[j])
            && Covers(d, if given == [] then 0 else given[|given| - 1])
            && (forall i :: 0 <= i < |given| ==>
                0 < given[i] <= MaxUint64 && d.file.Some? && given[i] <= d.file.value.sequence)
  {
    if events != [] {
      var n := |events| - 1;
      SequencesStrictlyIncrease(events[..n]);
      var (before, given) := Life(Device(None, None), events[..n]);
      var last := if given == [] then 0 else given[|given| - 1];
      match events[n]
      case BootEvent(outcome) => BootCovers(before, last, 0, outcome);
      case ActivateEvent(id, outcome) => BootCovers(before, last, id, outcome);
      case ReserveEvent(outcome) => ReserveCovers(before, last, outcome);
    }
  }

  // ---------- Binding ----------

  /** The device id that the file holds, 0 before activation. */
  function Bound(d: Device): nat {
    if d.file.Some? then d.file.value.deviceId else 0
  }

  /** Memory never contradicts the file, and both hold safe ids. */
  predicate BindingAgrees(d: Device) {
    && (d.memory.Some? ==> d.file.Some? && (Bound(d) != 0 ==> d.memory.value.deviceId == Bound(d)))
    && Bound(d) <= MaxSafeInteger && (d.memory.Some? ==> d.memory.value.deviceId <= MaxSafeInteger)
  }

  lemma StepBinding(d: Device, e: Event)
    requires BindingAgrees(d)
    ensures var d' := if e.BootEvent? then Boot(d, e.outcome)
                      else if e.ActivateEvent? then Activate(d, e.deviceId, e.outcome)
                        else Reserve(d, e.outcome).device;
            BindingAgrees(d') && (Bound(d) != 0 ==> Bound(d') == Bound(d))
  {
  }

  /** Over any life of the device, once the file is bound to an id it stays bound to it, and
      a process that runs uses no other. */
  lemma {:induction false} BindingKept(events: seq<Event>, more: seq<Event>)
    ensures var d, d' := Life(Device(None, None), events).0, Life(Device(None, None), events + more).0;
            BindingAgrees(d) && BindingAgrees(d') && (Bound(d) != 0 ==> Bound(d') == Bound(d))
    decreases |events| + |more|, |more|
  {
    if more != [] {
      var init := more[..|more| - 1];
      BindingKept(events, init);
      assert (events + more)[..|events + more| - 1] == events + init;
      StepBinding(Life(Device(None, None), events + init).0, more[|more| - 1]);
    } else if events != [] {
      BindingKept(events[..|events| - 1], []);
      assert events[..|events| - 1] + [] == events[..|events| - 1] && events + [] == events;
      StepBinding(Life(Device(None, None), events[..|events| - 1]).0, events[|events| - 1]);
    } else {
      assert events + more == [];
    }
  }

  /** An activation takes effect in memory exactly with a safe id that does not contradict
      the one before. */
  lemma ActivateExact(d: Device, id: nat, outcome: WriteOutcome)
    requires d.memory.Some?
    ensures var d', taken := Activate(d, id, outcome), 0 < id <= 0x1F_FFFF_FFFF_FFFF
            && d.memory.value.deviceId in {0, id};
            && d'.memory == (if taken then Some(d.memory.value.(deviceId := id)) else d.memory)
            && d'.file == (if taken && outcome != FailedBeforeRename then d'.memory else d.file)
  {
  }
}
