/**
 The canonical form of a signed request.
 */
module Requests {
  import opened Decimal
  import SemVer

  const SignaturePrefix := "homelab-inventory-agent-v1"

  predicate SingleLine(s: string) {
    '\n' !in s
  }

  /** Joins two parts with a newline. */
  function Then(a: string, b: string): string {
    a + ['\n'] + b
  }

  /** The bytes that are signed; `upper` is the upper-casing of text. */
  function CanonicalRequest(verb: string, path: string, timestamp: string, sequence: nat, bodyDigest: string,
                            upper: string -> string): string {
    Then(Then(Then(Then(Then(SignaturePrefix, upper(verb)), path), timestamp), Print(sequence)), bodyDigest)
  }

  lemma NotLater(a: string, b: string, a': string, b': string)
    requires SingleLine(b') && Then(a, b) == Then(a', b')
    ensures |a| <= |a'|
  {
    var s := Then(a, b);
    forall i | |a'| < i < |s| ensures s[i] != '\n' {
      assert s[i] == b'[i - |a'| - 1];
    }
    assert s[|a|] == '\n';
  }

  /** The last newline separates uniquely. */
  lemma LastLine(a: string, b: string, a': string, b': string)
    requires SingleLine(b) && SingleLine(b') && Then(a, b) == Then(a', b')
    ensures a == a' && b == b'
  {
    NotLater(a, b, a', b');
    NotLater(a', b', a, b);
    var s := Then(a, b);
    assert s[..|a|] == a && s[|a| + 1..] == b && s[..|a'|] == a' && s[|a'| + 1..] == b';
  }

  lemma PrintSingleLine(n: nat)
    ensures SingleLine(Print(n))
  {
  }

  /** A signature covers one request only: equal canonical bytes come from the same
      method, up to case, path, time, sequence and body digest. */
  lemma CanonicalInjective(m: string, path: string, timestamp: string, sequence: nat, digest: string,
                           m': string, path': string, timestamp': string, sequence': nat, digest': string,
                             upper: string -> string)
    requires SingleLine(path) && SingleLine(timestamp) && SingleLine(digest)
    requires SingleLine(path') && SingleLine(timestamp') && SingleLine(digest')
    requires CanonicalRequest(m, path, timestamp, sequence, digest, upper)
             == CanonicalRequest(m', path', timestamp', sequence', digest', upper)
    ensures upper(m) == upper(m') && path == path' && timestamp == timestamp' && sequence == sequence'
            && digest == digest'
  {
    var a, a' := Then(SignaturePrefix, upper(m)), Then(SignaturePrefix, upper(m'));
    PrintSingleLine(sequence);
    PrintSingleLine(sequence');
    LastLine(Then(Then(Then(a, path), timestamp), Print(sequence)), digest,
             Then(Then(Then(a', path'), timestamp'), Print(sequence')), digest');
    LastLine(Then(Then(a, path), timestamp), Print(sequence), Then(Then(a', path'), timestamp'), Print(sequence'));
    LastLine(Then(a, path), timestamp, Then(a', path'), timestamp');
    LastLine(a, path, a', path');
    PrintValue(sequence);
    PrintValue(sequence');
    assert a[|SignaturePrefix| + 1..] == upper(m) && a'[|SignaturePrefix| + 1..] == upper(m');
  }

  /** Without the condition it is not: a newline may move between two parts. */
  lemma NewlineCollides(m: string, a: string, b: string, c: string, sequence: nat, digest: string,
                        upper: string -> string)
    ensures CanonicalRequest(m, Then(a, b), c, sequence, digest, upper)
            == CanonicalRequest(m, a, Then(b, c), sequence, digest, upper)
  {
    var p := Then(SignaturePrefix, upper(m));
    assert Then(Then(p, Then(a, b)), c) == Then(Then(p, a), Then(b, c));
  }

  /** Line by line the signed text is the prefix, the method in capitals, the path, the time,
      the sequence in decimal and the body digest. */
  lemma CanonicalLines(verb: string, path: string, timestamp: string, sequence: nat, digest: string,
                       upper: string -> string)
    requires SingleLine(upper(verb)) && SingleLine(path) && SingleLine(timestamp) && SingleLine(digest)
    ensures SemVer.Split(CanonicalRequest(verb, path, timestamp, sequence, digest, upper), '\n')
            == [SignaturePrefix, upper(verb), path, timestamp, Print(sequence), digest]
  {
    var a := [SignaturePrefix, upper(verb)];
    PrintSingleLine(sequence);
    JoinNext([SignaturePrefix], upper(verb));
    JoinNext(a, path);
    JoinNext(a + [path], timestamp);
    JoinNext(a + [path] + [timestamp], Print(sequence));
    JoinNext(a + [path] + [timestamp] + [Print(sequence)], digest);
    assert [SignaturePrefix] + [upper(verb)] == a;
    var lines := a + [path] + [timestamp] + [Print(sequence)] + [digest];
    assert '\n' !in SignaturePrefix;
    SemVer.SplitJoin(lines, '\n');
  }

  lemma {:induction false} JoinNext(parts: seq<string>, part: string)
    requires parts != []
    ensures SemVer.Join(parts + [part], '\n') == Then(SemVer.Join(parts, '\n'), part)
  {
    var all := parts + [part];
    if |parts| == 1 {
      assert all[1..] == [part];
    } else {
      assert all[1..] == parts[1..] + [part];
      JoinNext(parts[1..], part);
    }
  }
}
