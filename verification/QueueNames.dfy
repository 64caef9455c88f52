/**
 The names of the files in the queue directory.
 */
module QueueNames {
  import opened Prelude
  import opened Strings
  import opened Decimal

  const Suffix := ".heartbeat.gz"

  /** `%020d.heartbeat.gz`. */
  function FileName(sequence: nat): string {
    Padded(sequence, 20) + Suffix
  }

  function ParseSequence(name: string): Option<nat> {
    if !HasSuffix(name, Suffix) then None
    else
      var parsed := ParseUint(name[..|name| - |Suffix|]);
      if parsed.Some? && parsed.value > 0 then parsed else None
  }

  lemma TwentyDigits()
    ensures MaxUint64 < Pow10(20)
  {
    assert Pow10(5) == 100_000;
    assert Pow10(10) == 100_000 * Pow10(5);
    assert Pow10(15) == 100_000 * Pow10(10);
    assert Pow10(20) == 100_000 * Pow10(15);
  }

  /** Reading the name of a positive sequence gives the sequence back. */
  lemma NameRoundTrip(sequence: nat)
    requires 0 < sequence <= MaxUint64
    ensures ParseSequence(FileName(sequence)) == Some(sequence)
  {
    TwentyDigits();
    PaddedValue(sequence, 20);
    assert FileName(sequence)[..20] == Padded(sequence, 20);
    assert FileName(sequence)[20..] == Suffix;
  }

  /** A name of the printed length that parses is the name of what it parses to; a
      shorter or longer one may parse to the same sequence, but is not the name the
      queue writes. */
  lemma NameIffPrinted(name: string, sequence: nat)
    requires 0 < sequence <= MaxUint64
    ensures name == FileName(sequence) <==> |name| == 20 + |Suffix| && ParseSequence(name) == Some(sequence)
  {
    TwentyDigits();
    NameRoundTrip(sequence);
    PaddedValue(sequence, 20);
    if |name| == 20 + |Suffix| && ParseSequence(name) == Some(sequence) {
      EqualLengthOrder(name[..20], Padded(sequence, 20));
      assert name == name[..20] + name[20..];
    }
  }

  lemma {:induction false} SuffixOrder(a: string, b: string, tail: string)
    requires |a| == |b|
    ensures LexLess(a + tail, b + tail) <==> LexLess(a, b)
  {
    if a == [] {
      assert a + tail == b + tail;
      LexAntisymmetric(b + tail, b + tail);
    } else {
      assert (a + tail)[1..] == a[1..] + tail && (b + tail)[1..] == b[1..] + tail;
      SuffixOrder(a[1..], b[1..], tail);
    }
  }

  /** Names are ordered like sequences, so that distinct sequences have distinct names
      and a directory listed by name is a queue listed by sequence. */
  lemma NameOrder(a: nat, b: nat)
    requires a <= MaxUint64 && b <= MaxUint64
    ensures LexLess(FileName(a), FileName(b)) <==> a < b
    ensures FileName(a) == FileName(b) <==> a == b
  {
    TwentyDigits();
    PaddedValue(a, 20);
    PaddedValue(b, 20);
    EqualLengthOrder(Padded(a, 20), Padded(b, 20));
    SuffixOrder(Padded(a, 20), Padded(b, 20), Suffix);
    assert FileName(a)[..20] == Padded(a, 20) && FileName(b)[..20] == Padded(b, 20);
  }
}
