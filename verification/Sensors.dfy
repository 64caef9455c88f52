/**
 Metric maps, the keys families are filed under, and the reduction of raw sensor
 readings to one CPU average and the NVMe drives.
 */
module Sensors {
  import opened Prelude
  import opened Strings
  import opened Averages
  import opened Protocol
  import opened Delta

  // ---------- Keys ----------

  /** The trimmed text of the first candidate field that is not blank, or "". */
  function MapKey(fields: Fields, candidates: seq<FieldName>): (key: string)
    ensures Trimmed(key)
  {
    if candidates == [] then ""
    else
      var c := candidates[0];
      if c in fields && fields[c].Text? && TrimSpace(fields[c].text) != "" then TrimSpace(fields[c].text)
      else MapKey(fields, candidates[1..])
  }

  function Number(fields: Fields, name: FieldName): Option<real> {
    if name in fields && fields[name].Num? then Some(fields[name].value) else None
  }

  // ---------- Patterns ----------

  /** Simple case folding of the letters the patterns use: ASCII capitals, the
      Kelvin sign and the long s. */
  function Fold(c: char): char {
    if 'A' <= c <= 'Z' then c + 32 as char
    else if c == '\U{212A}' then 'k'
    else if c == '\U{17F}' then 's'
    else c
  }

  function FoldAll(s: string): string {
    seq(|s|, i requires 0 <= i < |s| => Fold(s[i]))
  }

  predicate MatchesCpu(identity: string) {
    var s := FoldAll(identity);
    || Contains(s, "cpu") || Contains(s, "package") || Contains(s, "coretemp") || Contains(s, "k10temp")
    || (exists c | c in {'\t', '\n', '\U{0C}', '\r', ' '} :: Contains(s, "core" + [c]))
  }

  predicate MatchesNvme(identity: string) {
    var s := FoldAll(identity);
    Contains(s, "nvme") || Contains(s, "composite")
  }

  function Lower(c: char): char {
    if 'A' <= c <= 'Z' then c + 32 as char else c
  }

  /** `strings.HasPrefix(strings.ToLower(key), "nvme:")`. Only ASCII letters lower
      to the letters of this prefix. */
  predicate HasNvmePrefix(key: string) {
    |key| >= 5 && forall i :: 0 <= i < 5 ==> Lower(key[i]) == "nvme:"[i]
  }

  // ---------- One sensor ----------

  function Temperature(sensor: Fields): Option<real> {
    var celsius := Number(sensor, TemperatureCField);
    if celsius.Some? then celsius else Number(sensor, TemperatureCelsiusField)
  }

  function Identity(sensor: Fields): string {
    MapKey(sensor, [KeyField]) + " " + MapKey(sensor, [IdField]) + " " + MapKey(sensor,
            [NameField]) + " " + MapKey(sensor, [SourceField])
  }

  /** What one sensor contributes: a temperature, whether it counts as a CPU
      reading, and the key it is filed under as an NVMe reading ("" if it is none). */
  datatype Reading = Reading(temperature: real, cpu: bool, nvmeKey: string)

  predicate NvmeFiled(key: string) {
    HasNvmePrefix(key) && Trimmed(key)
  }

  function NvmeKeyFor(key: string): (filed: string)
    requires key != "" && Trimmed(key)
    ensures NvmeFiled(filed)
  {
    if HasNvmePrefix(key) then key
    else
      var filed := "nvme:" + key;
      assert filed[|filed| - 1] == key[|key| - 1];
      filed
  }

  function Classify(sensor: Fields): (r: Option<Reading>)
    ensures r.Some? && r.value.nvmeKey != "" ==> NvmeFiled(r.value.nvmeKey)
  {
    var temperature := Temperature(sensor);
    var key := MapKey(sensor, [SourceField, IdField, NameField, KeyField]);
    if temperature.None? then None
    else
      Some(Reading(temperature.value, MatchesCpu(Identity(sensor)),
                   if MatchesNvme(Identity(sensor)) && key != "" then NvmeKeyFor(key) else ""))
  }

  function NvmeRecord(key: string, temperature: real): Fields {
    map[KeyField := Text(key), KindField := Text("nvme"), TemperatureCField := Num(temperature)]
  }

  function CpuRecord(average: real): Fields {
    map[KeyField := Text("cpu:average"), KindField := Text("cpu-average"), TemperatureCField := Num(average)]
  }

  // ---------- Specification ----------

  /** The readings of the sensors that report a temperature, in order. */
  function Readings(input: seq<Fields>): seq<Reading> {
    ReadingsBy(input, Classify)
  }

  function ReadingsBy(input: seq<Fields>, classify: Fields -> Option<Reading>): seq<Reading> {
    if input == [] then []
    else
      var last := classify(input[|input| - 1]);
      ReadingsBy(input[..|input| - 1], classify) + (if last.Some? then [last.value] else [])
  }

  function CpuReadings(readings: seq<Reading>): seq<real> {
    if readings == [] then []
    else
      var last := readings[|readings| - 1];
      CpuReadings(readings[..|readings| - 1]) + (if last.cpu then [last.temperature] else [])
  }

  function NvmeReadings(readings: seq<Reading>): map<string, real> {
    if readings == [] then map[]
    else
      var last := readings[|readings| - 1];
      var before := NvmeReadings(readings[..|readings| - 1]);
      if last.nvmeKey != "" then before[last.nvmeKey := last.temperature] else before
  }

  function NvmeRecords(keys: seq<string>, readings: map<string, real>): seq<Fields>
    requires forall k :: k in keys ==> k in readings
  {
    seq(|keys|, i requires 0 <= i < |keys| => NvmeRecord(keys[i], readings[keys[i]]))
  }

  function CpuRecords(cpu: seq<real>): seq<Fields> {
    if cpu == [] then [] else [CpuRecord(Mean(cpu))]
  }

  ghost function CompactedSensors(input: seq<Fields>): seq<Fields> {
    var nvme := NvmeReadings(Readings(input));
    CpuRecords(CpuReadings(Readings(input))) + NvmeRecords(SortedKeys(nvme.Keys), nvme)
  }

  lemma ReadingsAppend(readings: seq<Reading>, r: Reading)
    ensures CpuReadings(readings + [r]) == CpuReadings(readings) + (if r.cpu then [r.temperature] else [])
    ensures NvmeReadings(readings + [r])
            == if r.nvmeKey != "" then NvmeReadings(readings)[r.nvmeKey := r.temperature] else NvmeReadings(readings)
  {
    assert (readings + [r])[..|readings|] == readings;
  }

  // ---------- The source's loops ----------

  method CompactSensors(input: seq<Fields>) returns (result: seq<Fields>)
    ensures result == CompactedSensors(input)
  {
    var cpu, nvme := ScanSensors(input);
    result := [];
    if |cpu| > 0 {
      var average := Average(cpu);
      result := [CpuRecord(average)];
    }
    var keys := KeysOf(nvme);
    ghost var first := result;
    for i := 0 to |keys|
      invariant result == first + NvmeRecords(keys, nvme)[..i]
    {
      var record := NvmeRecord(keys[i], nvme[keys[i]]);
      AppendNext(first, NvmeRecords(keys, nvme), i);
      result := result + [record];
    }
  }

  lemma AppendNext(first: seq<Fields>, records: seq<Fields>, i: nat)
    requires i < |records|
    ensures first + records[..i] + [records[i]] == first + records[..i + 1]
  {
  }

  method ScanSensors(input: seq<Fields>) returns (cpu: seq<real>, nvme: map<string, real>)
    ensures cpu == CpuReadings(Readings(input))
    ensures nvme == NvmeReadings(Readings(input))
  {
    cpu, nvme := [], map[];
    for i := 0 to |input|
      invariant cpu == CpuReadings(Readings(input[..i]))
      invariant nvme == NvmeReadings(Readings(input[..i]))
    {
      assert input[..i + 1][..i] == input[..i];
      var reading := Classify(input[i]);
      if reading.None? {
        assert Readings(input[..i + 1]) == Readings(input[..i]);
        continue;
      }
      ReadingsAppend(Readings(input[..i]), reading.value);
      if reading.value.cpu {
        cpu := cpu + [reading.value.temperature];
      }
      if reading.value.nvmeKey != "" {
        nvme := nvme[reading.value.nvmeKey := reading.value.temperature];
      }
    }
    assert input[..|input|] == input;
  }

  method Average(cpu: seq<real>) returns (average: real)
    requires cpu != []
    ensures average == Mean(cpu)
  {
    var total := 0.0;
    for i := 0 to |cpu|
      invariant total == Sum(cpu[..i])
    {
      SumAppend(cpu[..i], cpu[i]);
      assert cpu[..i + 1] == cpu[..i] + [cpu[i]];
      total := total + cpu[i];
    }
    assert cpu[..|cpu|] == cpu;
    average := total / |cpu| as real;
  }

  method KeysOf(nvme: map<string, real>) returns (keys: seq<string>)
    ensures keys == SortedKeys(nvme.Keys)
  {
    keys := [];
    var todo := nvme.Keys;
    while todo != {}
      invariant todo <= nvme.Keys
      invariant forall k :: k in keys <==> k in nvme.Keys - todo
      decreases todo
    {
      var key :| key in todo;
      keys := keys + [key];
      todo := todo - {key};
    }
    keys := SortStrings(keys);
    ListingUnique(keys, SortedKeys(nvme.Keys), nvme.Keys);
  }

  /** `keyedMaps`: metric maps without a key are skipped. */
  function KeyedMetrics(values: seq<Fields>, candidates: seq<FieldName>): seq<Keyed> {
    MetricsKeyedBy(values, fields => MapKey(fields, candidates))
  }

  function MetricsKeyedBy(values: seq<Fields>, keyOf: Fields -> string): seq<Keyed> {
    if values == [] then []
    else
      var last := values[|values| - 1];
      var key := keyOf(last);
      MetricsKeyedBy(values[..|values| - 1], keyOf) + (if |key| > 0 then [Keyed(key, Metric(last))] else [])
  }

  method KeyedMaps(values: seq<Fields>, candidates: seq<FieldName>) returns (result: seq<Keyed>)
    ensures result == KeyedMetrics(values, candidates)
  {
    result := [];
    var keyOf := fields => MapKey(fields, candidates);
    for i := 0 to |values|
      invariant result == MetricsKeyedBy(values[..i], keyOf)
    {
      assert values[..i + 1][..i] == values[..i];
      var key := keyOf(values[i]);
      if |key| > 0 {
        result := result + [Keyed(key, Metric(values[i]))];
      }
    }
    assert values[..|values|] == values;
  }

  // ---------- What compaction guarantees ----------

  /** Every reading comes from a sensor that has one. */
  lemma {:induction false} ReadingsAre(input: seq<Fields>, classify: Fields -> Option<Reading>)
    ensures forall r :: r in ReadingsBy(input, classify) <==> exists s :: s in input && classify(s) == Some(r)
  {
    if input != [] {
      var n := |input| - 1;
      ReadingsAre(input[..n], classify);
      assert input == input[..n] + [input[n]];
    }
  }

  lemma {:induction false} NvmeKeysFiled(readings: seq<Reading>)
    requires forall r :: r in readings && r.nvmeKey != "" ==> NvmeFiled(r.nvmeKey)
    ensures forall k :: k in NvmeReadings(readings) ==> NvmeFiled(k)
  {
    if readings != [] {
      assert forall r :: r in readings[..|readings| - 1] ==> r in readings;
      NvmeKeysFiled(readings[..|readings| - 1]);
      assert readings[|readings| - 1] in readings;
    }
  }

  /** The record carries `key` as its key field. */
  predicate Carries(fields: Fields, key: string) {
    KeyField in fields && fields[KeyField] == Text(key) && key != "" && Trimmed(key)
  }

  /** A compacted record is filed under the key it carries. */
  lemma FiledAsCarried(fields: Fields, key: string, candidates: seq<FieldName>)
    requires Carries(fields, key) && candidates == [KeyField]
    ensures MapKey(fields, candidates) == key
  {
    TrimmedFixed(key);
  }

  lemma {:induction false} FiledAll(values: seq<Fields>, keys: seq<string>, keyOf: Fields -> string)
    requires |values| == |keys|
    requires forall i :: 0 <= i < |keys| ==> |keys[i]| > 0 && keyOf(values[i]) == keys[i]
    ensures |MetricsKeyedBy(values, keyOf)| == |keys|
    ensures forall i :: 0 <= i < |keys| ==> MetricsKeyedBy(values, keyOf)[i] == Keyed(keys[i], Metric(values[i]))
  {
    if values != [] {
      var n := |values| - 1;
      assert forall i :: 0 <= i < n ==> values[..n][i] == values[i] && keys[..n][i] == keys[i];
      FiledAll(values[..n], keys[..n], keyOf);
    }
  }

  lemma DistinctWhenFiled(values: seq<Fields>, keys: seq<string>, keyOf: Fields -> string)
    requires |values| == |keys|
    requires forall i :: 0 <= i < |keys| ==> |keys[i]| > 0 && keyOf(values[i]) == keys[i]
    requires forall i, j :: 0 <= i < j < |keys| ==> keys[i] != keys[j]
    ensures DistinctKeys(MetricsKeyedBy(values, keyOf))
    ensures |MetricsKeyedBy(values, keyOf)| == |values|
  {
    FiledAll(values, keys, keyOf);
  }

  lemma CpuKeys(cpu: seq<real>) returns (keys: seq<string>)
    ensures CarryAll(CpuRecords(cpu), keys)
    ensures forall k :: k in keys ==> !HasNvmePrefix(k)
  {
    keys := if cpu == [] then [] else ["cpu:average"];
    assert Lower("cpu:average"[0]) != "nvme:"[0];
  }

  lemma NvmeRecordsCarry(keys: seq<string>, nvme: map<string, real>)
    requires forall k :: k in keys ==> k in nvme && NvmeFiled(k)
    ensures CarryAll(NvmeRecords(keys, nvme), keys)
  {
    forall i | 0 <= i < |keys| ensures Carries(NvmeRecords(keys, nvme)[i], keys[i]) {
      assert keys[i] in keys;
    }
  }

  predicate CarryAll(records: seq<Fields>, keys: seq<string>) {
    |records| == |keys| && forall i :: 0 <= i < |keys| ==> Carries(records[i], keys[i])
  }

  lemma FiledEach(records: seq<Fields>, keys: seq<string>, candidates: seq<FieldName>)
    requires CarryAll(records, keys) && candidates == [KeyField]
    ensures forall i :: 0 <= i < |keys| ==> |keys[i]| > 0 && MapKey(records[i], candidates) == keys[i]
  {
    forall i | 0 <= i < |keys| ensures |keys[i]| > 0 && MapKey(records[i], candidates) == keys[i] {
      FiledAsCarried(records[i], keys[i], candidates);
    }
  }

  /** A record that is not filed as NVMe followed by ascending NVMe records. */
  lemma ConcatCarries(first: seq<Fields>, firstKeys: seq<string>, rest: seq<Fields>, restKeys: seq<string>,
                      isNvme: string -> bool)
    requires CarryAll(first, firstKeys) && CarryAll(rest, restKeys) && |first| <= 1
    requires forall k :: k in firstKeys ==> !isNvme(k)
    requires forall k :: k in restKeys ==> isNvme(k)
    requires Ascending(restKeys)
    ensures CarryAll(first + rest, firstKeys + restKeys)
    ensures var keys := firstKeys + restKeys;
            forall i, j :: 0 <= i < j < |keys| ==> keys[i] != keys[j]
  {
    var keys := firstKeys + restKeys;
    forall i, j | 0 <= i < j < |keys| ensures keys[i] != keys[j] {
      assert keys[j] == restKeys[j - |first|] && keys[j] in restKeys;
      if i >= |first| {
        assert keys[i] == restKeys[i - |first|];
        LexAntisymmetric(keys[i], keys[j]);
      } else {
        assert keys[i] in firstKeys;
      }
    }
  }

  lemma SensorRecordsCarry(input: seq<Fields>) returns (keys: seq<string>)
    ensures CarryAll(CompactedSensors(input), keys)
    ensures forall i, j :: 0 <= i < j < |keys| ==> keys[i] != keys[j]
  {
    var cpu, nvme := CpuReadings(Readings(input)), NvmeReadings(Readings(input));
    var sorted := SortedKeys(nvme.Keys);
    ReadingsAre(input, Classify);
    NvmeKeysFiled(Readings(input));
    NvmeRecordsCarry(sorted, nvme);
    var first := CpuKeys(cpu);
    ConcatCarries(CpuRecords(cpu), first, NvmeRecords(sorted, nvme), sorted, k => HasNvmePrefix(k));
    keys := first + sorted;
  }

  /** Whatever the input, the compacted sensors have pairwise distinct keys, so
      the distinct-keys precondition of an exact delta holds for this family. */
  lemma SensorKeysDistinct(input: seq<Fields>, candidates: seq<FieldName>)
    requires candidates == [KeyField]
    ensures DistinctKeys(KeyedMetrics(CompactedSensors(input), candidates))
    ensures |KeyedMetrics(CompactedSensors(input), candidates)| == |CompactedSensors(input)|
  {
    var keys := SensorRecordsCarry(input);
    FiledEach(CompactedSensors(input), keys, candidates);
    DistinctWhenFiled(CompactedSensors(input), keys, fields => MapKey(fields, candidates));
  }

  /** Each NVMe key holds the last reading filed under it, and no other key is held. */
  lemma {:induction false} NvmeLastReading(readings: seq<Reading>, i: nat)
    requires i < |readings| && readings[i].nvmeKey != ""
    requires forall j :: i < j < |readings| ==> readings[j].nvmeKey != readings[i].nvmeKey
    ensures readings[i].nvmeKey in NvmeReadings(readings)
    ensures NvmeReadings(readings)[readings[i].nvmeKey] == readings[i].temperature
  {
    var n := |readings| - 1;
    if i < n {
      assert readings[..n][i] == readings[i];
      NvmeLastReading(readings[..n], i);
      assert readings[n].nvmeKey != readings[i].nvmeKey;
    }
  }

  lemma {:induction false} NvmeKeysRead(readings: seq<Reading>, k: string)
    requires k in NvmeReadings(readings)
    ensures exists r :: r in readings && r.nvmeKey == k
  {
    var n := |readings| - 1;
    if readings[n].nvmeKey != k {
      NvmeKeysRead(readings[..n], k);
    } else {
      assert readings[n] in readings;
    }
  }

  lemma {:induction false} CpuReadingsAre(readings: seq<Reading>)
    ensures forall x :: x in CpuReadings(readings) <==> exists r :: r in readings && r.cpu && r.temperature == x
  {
    if readings != [] {
      var n := |readings| - 1;
      CpuReadingsAre(readings[..n]);
      assert readings == readings[..n] + [readings[n]];
    }
  }

  /** The CPU record is present exactly when some sensor is a CPU sensor, and its
      average lies between any bounds of those sensors' readings. */
  lemma CpuAverageBounded(input: seq<Fields>, lo: real, hi: real)
    requires forall r :: r in Readings(input) && r.cpu ==> lo <= r.temperature <= hi
    ensures (exists s :: s in input && Classify(s).Some? && Classify(s).value.cpu)
            <==> CpuReadings(Readings(input)) != []
    ensures var cpu := CpuReadings(Readings(input));
            cpu != [] ==> CompactedSensors(input)[0] == CpuRecord(Mean(cpu)) && lo <= Mean(cpu) <= hi
  {
    ReadingsAre(input, Classify);
    CpuReadingsAre(Readings(input));
    var cpu := CpuReadings(Readings(input));
    if s :| s in input && Classify(s).Some? && Classify(s).value.cpu {
      assert Classify(s).value in Readings(input);
      assert Classify(s).value.temperature in cpu;
    }
    if cpu != [] {
      assert cpu[0] in cpu;
      MeanBounds(cpu, lo, hi);
    }
  }
}
