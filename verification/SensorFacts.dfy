/**
 What the compacted sensors say about the sensors that were read: which count for the
 CPU average, which as NVMe devices and under what key, and that nothing else is there.
 */
module SensorFacts {
  import opened Prelude
  import opened Strings
  import opened Protocol
  import opened Averages
  import opened Sensors
  import Keys

  ghost predicate Mentions(text: string, word: string) {
    exists i :: StandsAt(text, word, i)
  }

  function TextOr(fields: Fields, name: FieldName): string {
    if Keys.TextOf(fields, name).Some? then Keys.TextOf(fields, name).value else ""
  }

  /** Key, id, name and source, each trimmed or blank, in this order. */
  function Described(sensor: Fields): string {
    TextOr(sensor, KeyField) + " " + TextOr(sensor, IdField) + " " + TextOr(sensor, NameField) + " " + TextOr(sensor,
            SourceField)
  }

  /** The first of source, id, name and key that is a text and not blank. */
  function Filed(sensor: Fields): Option<string> {
    if Keys.TextOf(sensor, SourceField).Some? then Keys.TextOf(sensor, SourceField)
    else if Keys.TextOf(sensor, IdField).Some? then Keys.TextOf(sensor, IdField)
    else if Keys.TextOf(sensor, NameField).Some? then Keys.TextOf(sensor, NameField)
    else Keys.TextOf(sensor, KeyField)
  }

  ghost predicate NamesCpu(text: string) {
    || Mentions(text, "cpu") || Mentions(text, "package") || Mentions(text, "coretemp") || Mentions(text, "k10temp")
    || Mentions(text, "core ") || Mentions(text, "core\t") || Mentions(text, "core\n") || Mentions(text, "core\r")
    || Mentions(text, "core" + ['\U{0C}'])
  }

  ghost predicate NamesNvme(text: string) {
    Mentions(text, "nvme") || Mentions(text, "composite")
  }

  lemma DescribedIs(sensor: Fields)
    ensures Identity(sensor) == Described(sensor)
  {
    SingleCandidate(sensor, KeyField);
    SingleCandidate(sensor, IdField);
    SingleCandidate(sensor, NameField);
    SingleCandidate(sensor, SourceField);
  }

  lemma SingleCandidate(fields: Fields, name: FieldName)
    ensures MapKey(fields, [name]) == TextOr(fields, name)
  {
    assert [name][1..] == [];
  }

  lemma FiledIs(sensor: Fields)
    ensures MapKey(sensor, [SourceField, IdField, NameField, KeyField])
            == if Filed(sensor).Some? then Filed(sensor).value else ""
  {
    var c := [SourceField, IdField, NameField, KeyField];
    Keys.CandidateNext(sensor, c);
    Keys.CandidateNext(sensor, c[1..]);
    Keys.CandidateNext(sensor, c[2..]);
    Keys.CandidateNext(sensor, c[3..]);
    assert c[1..][1..] == c[2..] && c[2..][1..] == c[3..] && c[3..][1..] == [];
  }

  lemma CpuExact(identity: string)
    ensures MatchesCpu(identity) <==> NamesCpu(FoldAll(identity))
  {
    forall word ensures Contains(FoldAll(identity), word) <==> Mentions(FoldAll(identity), word) {
      ContainsExact(FoldAll(identity), word);
    }
    var text := FoldAll(identity);
    assert "core" + [' '] == "core " && "core" + ['\t'] == "core\t" && "core" + ['\n'] == "core\n"
           && "core" + ['\r'] == "core\r";
    if c :| c in {'\t', '\n', '\U{0C}', '\r', ' '} && Contains(text, "core" + [c]) {
      assert Mentions(text, "core" + [c]);
    }
    assert Contains(text, "core" + [' ']) <==> Mentions(text, "core ");
    assert Contains(text, "core" + ['\t']) <==> Mentions(text, "core\t");
    assert Contains(text, "core" + ['\n']) <==> Mentions(text, "core\n");
    assert Contains(text, "core" + ['\r']) <==> Mentions(text, "core\r");
  }

  lemma NvmeExact(identity: string)
    ensures MatchesNvme(identity) <==> NamesNvme(FoldAll(identity))
  {
    forall word ensures Contains(FoldAll(identity), word) <==> Mentions(FoldAll(identity), word) {
      ContainsExact(FoldAll(identity), word);
    }
  }

  /** A sensor counts when it has a numeric temperature, in Celsius under either name; for
      the CPU when it describes itself by a CPU word; as an NVMe device when it does so by
      an NVMe word and has a text to be filed under, prefixed unless it already is. */
  lemma ClassifyExact(sensor: Fields)
    ensures Classify(sensor).Some?
            <==> Number(sensor, TemperatureCField).Some? || Number(sensor, TemperatureCelsiusField).Some?
    ensures Classify(sensor).Some? ==>
              var r := Classify(sensor).value;
              && Some(r.temperature)
              == (if Number(sensor, TemperatureCField).Some? then Number(sensor, TemperatureCField)
                                         else Number(sensor, TemperatureCelsiusField))
              && (r.cpu <==> NamesCpu(FoldAll(Described(sensor))))
              && (r.nvmeKey != "" <==> NamesNvme(FoldAll(Described(sensor))) && Filed(sensor).Some?)
              && (r.nvmeKey != "" ==>
                    r.nvmeKey == if HasNvmePrefix(Filed(sensor).value) then Filed(sensor).value
                      else "nvme:" + Filed(sensor).value)
  {
    DescribedIs(sensor);
    FiledIs(sensor);
    CpuExact(Described(sensor));
    NvmeExact(Described(sensor));
  }

  /** The compacted sensors are the CPU average, if there are CPU readings, and one record
      for each NVMe key with its reading; nothing else. */
  lemma RecordsExact(input: seq<Fields>, record: Fields)
    ensures var cpu, nvme := CpuReadings(Readings(input)), NvmeReadings(Readings(input));
            record in CompactedSensors(input)
            <==> || (cpu != [] && record == map[KeyField := Text("cpu:average"), KindField := Text("cpu-average"),
                                                TemperatureCField := Num(Mean(cpu))])
                 || exists k :: k in nvme && record == map[KeyField := Text(k), KindField := Text("nvme"),
                                                           TemperatureCField := Num(nvme[k])]
  {
    var cpu, nvme := CpuReadings(Readings(input)), NvmeReadings(Readings(input));
    var keys := SortedKeys(nvme.Keys);
    if k :| k in nvme && record == NvmeRecord(k, nvme[k]) {
      assert k in keys;
      var i :| 0 <= i < |keys| && keys[i] == k;
      assert NvmeRecords(keys, nvme)[i] == record;
    }
    if record in NvmeRecords(keys, nvme) {
      var i :| 0 <= i < |keys| && NvmeRecords(keys, nvme)[i] == record;
      assert keys[i] in keys && record == NvmeRecord(keys[i], nvme[keys[i]]);
    }
  }
}
