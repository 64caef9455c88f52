/**
 GPU sample aggregation: per-device sums and counts between two drains, against
 the plain list of the samples they stand for.
 */
module Gpu {
  import opened Prelude
  import opened Protocol
  import opened Averages

  datatype Accumulator = Accumulator(latest: Fields, sums: map<FieldName, real>, counts: map<FieldName, nat>)

  /** Formats the id field of a sample; an absent one has a text too. */
  type ShowId = Option<Field> -> string

  // ---------- Specification ----------

  function IdOf(sample: Fields, show: ShowId): string {
    show(if IdField in sample then Some(sample[IdField]) else None)
  }

  /** The samples that are taken up: those with an id. */
  function Accepted(samples: seq<Fields>, show: ShowId): seq<Fields> {
    if samples == [] then []
    else
      var last := samples[|samples| - 1];
      Accepted(samples[..|samples| - 1], show) + (if IdOf(last, show) == "" then [] else [last])
  }

  function SamplesOf(history: seq<Fields>, id: string, show: ShowId): seq<Fields> {
    if history == [] then []
    else
      var last := history[|history| - 1];
      SamplesOf(history[..|history| - 1], id, show) + (if IdOf(last, show) == id then [last] else [])
  }

  /** The readings of one numeric metric, oldest first. */
  function Readings(samples: seq<Fields>, key: FieldName): seq<real> {
    if samples == [] then []
    else
      var last := samples[|samples| - 1];
      Readings(samples[..|samples| - 1], key) + (if key in last && last[key].Num? then [last[key].value] else [])
  }

  /** The accumulator stands for the samples. */
  ghost predicate StandsFor(a: Accumulator, samples: seq<Fields>) {
    && samples != [] && a.latest == samples[|samples| - 1]
    && Sums(a, samples)
  }

  /** The sum and the number of readings of one metric. */
  datatype Tally = Tally(sum: real, count: nat)

  function TallyOf(samples: seq<Fields>, key: FieldName): Tally {
    Tally(Sum(Readings(samples, key)), |Readings(samples, key)|)
  }

  ghost predicate Sums(a: Accumulator, samples: seq<Fields>) {
    && a.sums.Keys == a.counts.Keys
    && forall key :: Tallies(a, TallyOf(samples, key), key)
  }

  predicate Tallies(a: Accumulator, t: Tally, key: FieldName) {
    if key in a.sums && key in a.counts then t.count > 0 && a.sums[key] == t.sum && a.counts[key] == t.count
    else t == Tally(0.0, 0)
  }

  /** What a drain reports of a device: each metric that was ever numeric is the mean of
      its readings, every other field is that of the latest sample. */
  ghost predicate Reports(sample: Fields, samples: seq<Fields>) {
    && samples != []
    && forall key :: ReportsKey(sample, samples[|samples| - 1], Readings(samples, key), key)
  }

  predicate ReportsKey(sample: Fields, latest: Fields, readings: seq<real>, key: FieldName) {
    if readings != [] then key in sample && sample[key] == Num(Mean(readings))
    else (key in sample <==> key in latest) && (key in sample ==> sample[key] == latest[key])
  }

  lemma SamplesAppend(history: seq<Fields>, sample: Fields, id: string, show: ShowId)
    ensures SamplesOf(history + [sample], id, show)
            == if IdOf(sample, show) == id then SamplesOf(history, id, show) + [sample]
              else SamplesOf(history, id, show)
  {
    assert (history + [sample])[..|history|] == history;
  }

  lemma ReadingsAppend(samples: seq<Fields>, sample: Fields, key: FieldName)
    ensures Readings(samples + [sample], key)
            == if key in sample
            && sample[key].Num? then Readings(samples, key) + [sample[key].value] else Readings(samples, key)
  {
    assert (samples + [sample])[..|samples|] == samples;
  }

  /** One more reading of a metric, if the field is a number. */
  function Plus(t: Tally, value: Field): Tally {
    match value case Num(x) => Tally(t.sum + x, t.count + 1) case _ => t
  }

  lemma TallyAppend(samples: seq<Fields>, sample: Fields, key: FieldName)
    ensures TallyOf(samples + [sample], key) == if key in sample then Plus(TallyOf(samples, key), sample[key])
            else TallyOf(samples, key)
  {
    ReadingsAppend(samples, sample, key);
    if key in sample && sample[key].Num? {
      SumAppend(Readings(samples, key), sample[key].value);
    }
  }

  /** The loop body over the fields of a sample. */
  function Taken(a: Accumulator, key: FieldName, value: Field): Accumulator {
    match value
    case Num(x) =>
      var sum, count := if key in a.sums then a.sums[key] else 0.0, if key in a.counts then a.counts[key] else 0;
      a.(sums := a.sums[key := sum + x], counts := a.counts[key := count + 1])
    case _ => a
  }

  /** The fields outside `todo` have the tallies `after`, the others those `before`. */
  ghost predicate Partly(a: Accumulator, before: FieldName -> Tally, after: FieldName -> Tally, todo: set<FieldName>) {
    && a.sums.Keys == a.counts.Keys
    && forall key :: Tallies(a, if key in todo then before(key) else after(key), key)
  }

  lemma PartlyStep(a: Accumulator, before: FieldName -> Tally, after: FieldName -> Tally, todo: set<FieldName>,
                   key: FieldName, value: Field)
    requires Partly(a, before, after, todo) && key in todo && after(key) == Plus(before(key), value)
    ensures Partly(Taken(a, key, value), before, after, todo - {key})
  {
    assert Tallies(a, before(key), key);
    forall other ensures Tallies(Taken(a, key, value), if other in todo - {key} then before(other) else after(other),
                                 other) {
      assert Tallies(a, if other in todo then before(other) else after(other), other);
    }
  }

  /** The tallies of a list of samples, as a function of the metric. */
  function TalliesIn(samples: seq<Fields>): FieldName -> Tally {
    key => TallyOf(samples, key)
  }

  lemma PartlyStart(a: Accumulator, before: seq<Fields>, sample: Fields)
    requires Sums(a, before)
    ensures Partly(a, TalliesIn(before), TalliesIn(before + [sample]), sample.Keys)
  {
    forall key ensures Tallies(a, if key in sample.Keys then TallyOf(before, key) else TallyOf(before + [sample], key),
                               key) {
      TallyAppend(before, sample, key);
      assert Tallies(a, TallyOf(before, key), key);
    }
  }

  // ---------- The aggregation object ----------

  class Aggregation {
    const show: ShowId
    var devices: map<string, Accumulator>
    var failed: bool
    /** The samples taken up since the last drain. */
    ghost var history: seq<Fields>

    ghost predicate Valid()
      reads this
    {
      forall id :: if id in devices then StandsFor(devices[id], SamplesOf(history, id, show))
        else SamplesOf(history, id, show) == []
    }

    constructor (show: ShowId)
      ensures Valid() && history == [] && this.show == show && !failed
    {
      this.show := show;
      devices, failed, history := map[], false, [];
    }

    /** Adds the numeric fields of one sample to the sums and counts. */
    method Accumulate(device: Accumulator, sample: Fields, ghost before: seq<Fields>) returns (a: Accumulator)
      requires Sums(device, before)
      ensures a.latest == device.latest && Sums(a, before + [sample])
    {
      a := device;
      var todo := sample.Keys;
      ghost var tallies, after := TalliesIn(before), TalliesIn(before + [sample]);
      PartlyStart(a, before, sample);
      while todo != {}
        invariant todo <= sample.Keys && a.latest == device.latest && Partly(a, tallies, after, todo)
        decreases todo
      {
        var key :| key in todo;
        TallyAppend(before, sample, key);
        PartlyStep(a, tallies, after, todo, key, sample[key]);
        todo := todo - {key};
        a := Taken(a, key, sample[key]);
      }
      assert forall key :: Tallies(a, after(key), key);
    }

    /** One sample with an id. */
    method AddSample(sample: Fields, id: string)
      requires Valid() && IdOf(sample, show) == id
      modifies this`devices, this`history
      ensures Valid() && history == old(history) + [sample]
    {
      ghost var before := SamplesOf(history, id, show);
      var device := if id in devices then devices[id] else Accumulator(map[], map[], map[]);
      assert Sums(device, before);
      var renewed := device.(latest := sample);
      assert Sums(renewed, before) by {
        forall key ensures Tallies(renewed, TallyOf(before, key), key) {
          assert Tallies(device, TallyOf(before, key), key);
        }
      }
      device := Accumulate(renewed, sample, before);
      devices := devices[id := device];
      history := history + [sample];
      forall other
        ensures if other in devices then StandsFor(devices[other], SamplesOf(history, other, show))
                else SamplesOf(history, other, show) == []
      {
        SamplesAppend(old(history), sample, other, show);
      }
    }

    /** A failed sampling changes no device; otherwise every sample with an id is taken
        up, in order. */
    method Add(samples: Option<seq<Fields>>)
      requires Valid()
      modifies this
      ensures Valid() && failed == samples.None?
      ensures samples.None? ==> devices == old(devices)
      ensures history == old(history) + (if samples.None? then [] else Accepted(samples.value, show))
    {
      if samples.None? {
        failed := true;
        return;
      }
      failed := false;
      for i := 0 to |samples.value|
        invariant Valid() && !failed
        invariant history == old(history) + Accepted(samples.value[..i], show)
      {
        assert samples.value[..i + 1][..i] == samples.value[..i];
        var id := IdOf(samples.value[i], show);
        if id != "" {
          AddSample(samples.value[i], id);
        }
      }
      assert samples.value[..|samples.value|] == samples.value;
    }

    method Averaged(device: Accumulator, ghost samples: seq<Fields>) returns (sample: Fields)
      requires StandsFor(device, samples)
      ensures Reports(sample, samples)
    {
      sample := device.latest;
      var todo := device.sums.Keys;
      forall key ensures key !in device.sums ==> Readings(samples, key) == [] {
        assert Tallies(device, TallyOf(samples, key), key);
      }
      while todo != {}
        invariant todo <= device.sums.Keys
        invariant forall key :: key !in todo ==> ReportsKey(sample, device.latest, Readings(samples, key), key)
        invariant forall key :: key in todo ==>
                  (key in sample <==> key in device.latest) && (key in sample ==> sample[key] == device.latest[key])
        decreases todo
      {
        var key :| key in todo;
        todo := todo - {key};
        var sum, count := device.sums[key], device.counts[key];
        assert Tallies(device, TallyOf(samples, key), key);
        if count > 0 {
          sample := sample[key := Num(sum / count as real)];
        }
      }
    }

    /** Reports every device that was sampled since the last drain, by the means of
        exactly its samples, and forgets them. Without devices it reports the last
        failure instead. */
    method Drain() returns (result: map<string, Fields>, error: bool)
      requires Valid()
      modifies this`devices, this`history
      ensures Valid() && history == [] && devices == map[]
      ensures ReportsAll(result, old(history), show)
      ensures error == (old(devices) == map[] && failed)
    {
      if |devices| == 0 {
        history := [];
        return map[], failed;
      }
      result := map[];
      var todo := devices.Keys;
      while todo != {}
        invariant todo <= devices.Keys && devices == old(devices) && history == old(history) && Valid()
        invariant result.Keys == devices.Keys - todo
        invariant forall id :: id in result ==> Reports(result[id], SamplesOf(history, id, show))
        decreases todo
      {
        var id :| id in todo;
        todo := todo - {id};
        var sample := Averaged(devices[id], SamplesOf(history, id, show));
        result := result[id := sample];
      }
      assert forall id :: id in devices <==> SamplesOf(history, id, show) != [];
      devices, history, error := map[], [], false;
    }
  }

  // ---------- What is taken up ----------

  /** Exactly the samples with an id are taken up, each as often as it was sampled; the id
      is the text of the id field, or of its absence. */
  lemma {:induction false} AcceptedExact(samples: seq<Fields>, show: ShowId, x: Fields)
    ensures multiset(Accepted(samples, show))[x]
            == if show(if IdField in x then Some(x[IdField]) else None) != "" then multiset(samples)[x] else 0
  {
    if samples != [] {
      var n := |samples| - 1;
      AcceptedExact(samples[..n], show, x);
      assert samples == samples[..n] + [samples[n]];
    }
  }

  /** Accepting keeps the order: what is taken up of two lists in a row is what is taken up
      of each. */
  lemma {:induction false} AcceptedConcat(a: seq<Fields>, b: seq<Fields>, show: ShowId)
    ensures Accepted(a + b, show) == Accepted(a, show) + Accepted(b, show)
  {
    if b == [] {
      assert a + b == a;
    } else {
      var n := |b| - 1;
      AcceptedConcat(a, b[..n], show);
      assert (a + b)[..|a + b| - 1] == a + b[..n];
    }
  }

  /** A device's samples are exactly those with its id. */
  lemma {:induction false} SamplesExact(history: seq<Fields>, id: string, show: ShowId, x: Fields)
    ensures multiset(SamplesOf(history, id, show))[x] == if IdOf(x, show) == id then multiset(history)[x] else 0
  {
    if history != [] {
      var n := |history| - 1;
      SamplesExact(history[..n], id, show, x);
      assert history == history[..n] + [history[n]];
    }
  }

  /** The readings of a metric are the numbers under its name. */
  lemma {:induction false} ReadingsExact(samples: seq<Fields>, key: FieldName, x: real)
    ensures x in Readings(samples, key)
            <==> exists i :: 0 <= i < |samples| && key in samples[i] && samples[i][key] == Num(x)
    ensures |Readings(samples, key)| <= |samples|
  {
    if samples != [] {
      var n := |samples| - 1;
      ReadingsExact(samples[..n], key, x);
      if i :| 0 <= i < |samples| && key in samples[i] && samples[i][key] == Num(x) {
        assert i < n ==> samples[..n][i] == samples[i];
      }
      if i :| 0 <= i < n && key in samples[..n][i] && samples[..n][i][key] == Num(x) {
        assert samples[i] == samples[..n][i];
      }
    }
  }

  // ---------- What a drain means ----------

  /** A drained metric lies between any bounds of the device's readings of it. */
  lemma DrainedBetween(sample: Fields, samples: seq<Fields>, key: FieldName, lo: real, hi: real)
    requires Reports(sample, samples) && Readings(samples, key) != []
    requires forall x :: x in Readings(samples, key) ==> lo <= x <= hi
    ensures key in sample && sample[key].Num? && lo <= sample[key].value <= hi
  {
    assert ReportsKey(sample, samples[|samples| - 1], Readings(samples, key), key);
    MeanBounds(Readings(samples, key), lo, hi);
  }

  /** Two reports of the same samples are the same: the samples determine the report,
      whatever the order in which maps were iterated. */
  lemma ReportUnique(a: Fields, b: Fields, samples: seq<Fields>)
    requires Reports(a, samples) && Reports(b, samples)
    ensures a == b
  {
    forall key ensures key in a <==> key in b
               ensures key in a ==> a[key] == b[key] {
      assert ReportsKey(a, samples[|samples| - 1], Readings(samples, key), key);
      assert ReportsKey(b, samples[|samples| - 1], Readings(samples, key), key);
    }
  }

  datatype Op = AddOp(samples: Option<seq<Fields>>) | DrainOp

  function Flatten(parts: seq<seq<Fields>>): seq<Fields> {
    if parts == [] then [] else Flatten(parts[..|parts| - 1]) + parts[|parts| - 1]
  }

  function TakenUp(op: Op, show: ShowId): seq<Fields> {
    match op case AddOp(Some(samples)) => Accepted(samples, show) case _ => []
  }

  /** All samples that successful additions took up, in order. */
  function AllAccepted(ops: seq<Op>, show: ShowId): seq<Fields> {
    if ops == [] then [] else AllAccepted(ops[..|ops| - 1], show) + TakenUp(ops[|ops| - 1], show)
  }

  lemma AcceptedNext(ops: seq<Op>, i: nat, show: ShowId)
    requires i < |ops|
    ensures AllAccepted(ops[..i + 1], show) == AllAccepted(ops[..i], show) + TakenUp(ops[i], show)
  {
    assert ops[..i + 1][..i] == ops[..i];
  }

  /** The drain reports exactly the devices of these samples, each by its own. */
  ghost predicate ReportsAll(result: map<string, Fields>, samples: seq<Fields>, show: ShowId) {
    forall id :: if SamplesOf(samples, id, show) == [] then id !in result
                 else id in result && Reports(result[id], SamplesOf(samples, id, show))
  }

  /** What was drained, then what is pending, is what was pending at first and then all
      that was taken up. */
  ghost predicate Accounted(drained: seq<seq<Fields>>, pending: seq<Fields>, was: seq<Fields>, taken: seq<Fields>) {
    Flatten(drained) + pending == was + taken
  }

  lemma AccountedAdd(drained: seq<seq<Fields>>, pending: seq<Fields>, was: seq<Fields>, taken: seq<Fields>,
                     more: seq<Fields>)
    requires Accounted(drained, pending, was, taken)
    ensures Accounted(drained, pending + more, was, taken + more)
  {
    assert Flatten(drained) + (pending + more) == Flatten(drained) + pending + more;
    assert was + (taken + more) == was + taken + more;
  }

  lemma AccountedDrain(drained: seq<seq<Fields>>, pending: seq<Fields>, was: seq<Fields>, taken: seq<Fields>)
    requires Accounted(drained, pending, was, taken)
    ensures Accounted(drained + [pending], [], was, taken)
  {
    assert (drained + [pending])[..|drained|] == drained;
  }

  /** Samplings and drains in any order: every sample taken up is reported by exactly one
      drain or still pending, and the order is kept. `drained` are the samples that each
      drain reports. */
  method Perform(a: Aggregation, ops: seq<Op>)
    returns (results: seq<map<string, Fields>>, ghost drained: seq<seq<Fields>>)
    requires a.Valid()
    modifies a
    ensures a.Valid() && |results| == |drained|
    ensures forall i :: 0 <= i < |results| ==> ReportsAll(results[i], drained[i], a.show)
    ensures Accounted(drained, a.history, old(a.history), AllAccepted(ops, a.show))
  {
    results, drained := [], [];
    for i := 0 to |ops|
      invariant a.Valid() && |results| == |drained|
      invariant forall k :: 0 <= k < |results| ==> ReportsAll(results[k], drained[k], a.show)
      invariant Accounted(drained, a.history, old(a.history), AllAccepted(ops[..i], a.show))
    {
      ghost var pending, taken := a.history, AllAccepted(ops[..i], a.show);
      AcceptedNext(ops, i, a.show);
      match ops[i]
      case AddOp(samples) =>
        AccountedAdd(drained, pending, old(a.history), taken, TakenUp(ops[i], a.show));
        a.Add(samples);
      case DrainOp =>
        AccountedDrain(drained, pending, old(a.history), taken);
        var result, _ := a.Drain();
        results, drained := results + [result], drained + [pending];
    }
    assert ops[..|ops|] == ops;
  }
}
