/**
 Release versions: reading them, comparing them, and how the comparison relates
 to precedence as section 11 of Semantic Versioning 2.0.0 defines it.
 */
module SemVer {
  import opened Prelude
  import opened Strings
  import opened Decimal

  /** Build metadata is not kept. */
  datatype Version = Version(major: nat, minor: nat, patch: nat, pre: seq<string>)

  const MaxInt: nat := 0x7FFF_FFFF_FFFF_FFFF

  // ---------- The library calls ----------

  /** `strings.SplitN(s, c, 2)`: the part before the first `c`, and what follows it. */
  function Cut(s: string, c: char): (r: (string, Option<string>))
    ensures c !in r.0
    ensures s == r.0 + (if r.1.Some? then [c] + r.1.value else [])
  {
    if s == [] then ([], None)
    else if s[0] == c then ([], Some(s[1..]))
    else
      var rest := Cut(s[1..], c);
      assert s == [s[0]] + s[1..];
      ([s[0]] + rest.0, rest.1)
  }

  /** `strings.Split` on one character. */
  function Split(s: string, c: char): (parts: seq<string>)
    ensures parts != []
    ensures forall i :: 0 <= i < |parts| ==> c !in parts[i]
    decreases |s|
  {
    var cut := Cut(s, c);
    if cut.1.None? then [cut.0] else [cut.0] + Split(cut.1.value, c)
  }

  /** `strconv.Atoi`: an optional sign and digits, within 64 bits. */
  function Atoi(s: string): Option<int> {
    var signed := s != [] && (s[0] == '+' || s[0] == '-');
    var digits := if signed then s[1..] else s;
    if digits == [] || !AllDigits(digits) then None
    else
      var n: int := if signed && s[0] == '-' then 0 - Value(digits) else Value(digits);
      if 0 - MaxInt - 1 <= n <= MaxInt then Some(n) else None
  }

  // ---------- Reading a version ----------

  predicate IdentifierChar(c: char) {
    c == '-' || IsDigit(c) || 'A' <= c <= 'Z' || 'a' <= c <= 'z'
  }

  predicate ValidIdentifier(s: string) {
    s != [] && forall i :: 0 <= i < |s| ==> IdentifierChar(s[i])
  }

  function CoreNumber(item: string): Option<nat> {
    if item == [] || (|item| > 1 && item[0] == '0') then None
    else
      var parsed := Atoi(item);
      if parsed.Some? && parsed.value >= 0 then Some(parsed.value) else None
  }

  function Stripped(input: string): string {
    var s := TrimSpace(input);
    if s != [] && s[0] == 'v' then s[1..] else s
  }

  predicate ValidPre(pre: Option<string>) {
    pre.Some? ==> pre.value != [] && forall id :: id in Split(pre.value, '.') ==> ValidIdentifier(id)
  }

  /** The core and the pre-release part. */
  function ParseParts(core: seq<string>, pre: Option<string>): Option<Version> {
    if |core| != 3 || !ValidPre(pre) || exists i :: 0 <= i < 3 && CoreNumber(core[i]).None? then None
    else
      Some(Version(CoreNumber(core[0]).value, CoreNumber(core[1]).value, CoreNumber(core[2]).value,
                   if pre.Some? then Split(pre.value, '.') else []))
  }

  /** A version without its build metadata. */
  function ParseMain(main: string): Option<Version> {
    var (front, pre) := Cut(main, '-');
    ParseParts(Split(front, '.'), pre)
  }

  function ParseOf(input: string): Option<Version> {
    ParseMain(Cut(Stripped(input), '+').0)
  }

  method ReadCore(core: seq<string>) returns (numbers: Option<seq<nat>>)
    requires |core| == 3
    ensures numbers.None? <==> exists i :: 0 <= i < 3 && CoreNumber(core[i]).None?
    ensures numbers.Some? ==> |numbers.value| == 3 && forall i :: 0 <= i < 3 ==>
            CoreNumber(core[i]) == Some(numbers.value[i])
  {
    var read: seq<nat> := [];
    for index := 0 to 3
      invariant |read| == index && forall i :: 0 <= i < index ==> CoreNumber(core[i]) == Some(read[i])
    {
      var item := core[index];
      if item == [] || (|item| > 1 && item[0] == '0') {
        return None;
      }
      var parsed := Atoi(item);
      if parsed.None? || parsed.value < 0 {
        return None;
      }
      read := read + [parsed.value];
    }
    numbers := Some(read);
  }

  method CheckIdentifiers(identifiers: seq<string>) returns (ok: bool)
    ensures ok <==> forall id :: id in identifiers ==> ValidIdentifier(id)
  {
    for i := 0 to |identifiers|
      invariant forall j :: 0 <= j < i ==> ValidIdentifier(identifiers[j])
    {
      assert identifiers[i] in identifiers;
      if identifiers[i] == [] {
        assert !ValidIdentifier(identifiers[i]);
        return false;
      }
      for k := 0 to |identifiers[i]|
        invariant forall j :: 0 <= j < k ==> IdentifierChar(identifiers[i][j])
      {
        if !IdentifierChar(identifiers[i][k]) {
          return false;
        }
      }
    }
    ok := true;
  }

  method ParseVersion(input: string) returns (result: Option<Version>)
    ensures result == ParseOf(input)
  {
    var main := Cut(Stripped(input), '+').0;
    var (front, pre) := Cut(main, '-');
    var core := Split(front, '.');
    if |core| != 3 {
      return None;
    }
    var numbers := ReadCore(core);
    if numbers.None? {
      return None;
    }
    var identifiers: seq<string> := [];
    if pre.Some? {
      if pre.value == [] {
        return None;
      }
      identifiers := Split(pre.value, '.');
      var ok := CheckIdentifiers(identifiers);
      if !ok {
        return None;
      }
    }
    result := Some(Version(numbers.value[0], numbers.value[1], numbers.value[2], identifiers));
  }

  // ---------- What is read ----------

  function Join(parts: seq<string>, c: char): string
    requires parts != []
  {
    if |parts| == 1 then parts[0] else parts[0] + [c] + Join(parts[1..], c)
  }

  /** The text of a version, without build metadata. */
  function Render(v: Version): string {
    Join(CoreOf(v), '.') + (if v.pre == [] then [] else ['-'] + Join(v.pre, '.'))
  }

  predicate WellFormed(v: Version) {
    && v.major <= MaxInt && v.minor <= MaxInt && v.patch <= MaxInt
    && forall i :: 0 <= i < |v.pre| ==> ValidIdentifier(v.pre[i])
  }

  lemma {:induction false} CutUnique(a: string, rest: Option<string>, c: char)
    requires c !in a
    ensures Cut(a + (if rest.Some? then [c] + rest.value else []), c) == (a, rest)
  {
    var s := a + (if rest.Some? then [c] + rest.value else []);
    if a == [] {
      assert rest.Some? ==> s[1..] == rest.value;
    } else {
      assert s[1..] == a[1..] + (if rest.Some? then [c] + rest.value else []);
      CutUnique(a[1..], rest, c);
      assert a == [a[0]] + a[1..];
    }
  }

  lemma {:induction false} JoinSplit(s: string, c: char)
    ensures Join(Split(s, c), c) == s
    ensures forall i :: 0 <= i < |Split(s, c)| ==> forall x :: x in Split(s, c)[i] ==> x in s
    decreases |s|
  {
    var cut := Cut(s, c);
    if cut.1.Some? {
      JoinSplit(cut.1.value, c);
      assert Split(s, c)[1..] == Split(cut.1.value, c);
    }
  }

  lemma {:induction false} SplitJoin(parts: seq<string>, c: char)
    requires parts != [] && forall i :: 0 <= i < |parts| ==> c !in parts[i]
    ensures Split(Join(parts, c), c) == parts
  {
    if |parts| == 1 {
      CutUnique(parts[0], None, c);
      assert parts[0] + [] == parts[0];
    } else {
      SplitJoin(parts[1..], c);
      CutUnique(parts[0], Some(Join(parts[1..], c)), c);
      assert Join(parts, c) == parts[0] + ([c] + Join(parts[1..], c));
    }
  }

  lemma {:induction false} JoinChars(parts: seq<string>, c: char, x: char)
    requires parts != [] && x in Join(parts, c)
    ensures x == c || exists i :: 0 <= i < |parts| && x in parts[i]
  {
    if |parts| > 1 && x !in parts[0] && x != c {
      JoinChars(parts[1..], c, x);
      var i :| 0 <= i < |parts[1..]| && x in parts[1..][i];
      assert x in parts[i + 1];
    }
  }

  /** Without a sign, a core number is exactly a shortest numeral within range. */
  lemma CoreNumberPrinted(item: string, n: nat)
    requires '+' !in item && '-' !in item
    ensures CoreNumber(item) == Some(n) <==> n <= MaxInt && item == Print(n)
  {
    PrintValue(n);
    if item != [] {
      assert item[0] in item;
    }
    if CoreNumber(item) == Some(n) {
      ShortestUnique(item);
    }
  }

  /** The forms of a version: white space around, a `v` before, build metadata behind. */
  ghost predicate Denotes(input: string, v: Version, build: string) {
    && (build != [] ==> build[0] == '+')
    && (TrimSpace(input) == Render(v) + build || TrimSpace(input) == ['v'] + (Render(v) + build))
  }

  lemma RenderChars(v: Version)
    requires WellFormed(v)
    ensures '+' !in Render(v) && '-' !in Join(CoreOf(v), '.')
    ensures Render(v) != [] && Render(v)[0] != 'v'
    ensures v.pre != [] ==> Join(v.pre, '.') != []
  {
    var core := CoreOf(v);
    forall x | x in Join(core, '.') ensures IsDigit(x) || x == '.' {
      JoinChars(core, '.', x);
    }
    if v.pre != [] {
      forall x | x in Join(v.pre, '.') ensures x != '+' {
        JoinChars(v.pre, '.', x);
      }
    }
    assert Join(core, '.')[0] == Print(v.major)[0];
  }

  function CoreOf(v: Version): seq<string> {
    [Print(v.major), Print(v.minor), Print(v.patch)]
  }

  lemma PrintedParts(core: seq<string>, v: Version)
    requires |core| == 3 && forall i :: 0 <= i < 3 ==> '+' !in core[i] && '-' !in core[i]
    ensures (CoreNumber(core[0]) == Some(v.major) && CoreNumber(core[1]) == Some(v.minor)
             && CoreNumber(core[2]) == Some(v.patch))
            <==> v.major <= MaxInt && v.minor <= MaxInt && v.patch <= MaxInt && core == CoreOf(v)
  {
    CoreNumberPrinted(core[0], v.major);
    CoreNumberPrinted(core[1], v.minor);
    CoreNumberPrinted(core[2], v.patch);
  }

  lemma RenderParts(v: Version)
    requires WellFormed(v)
    ensures ParseParts(CoreOf(v), if v.pre == [] then None else Some(Join(v.pre, '.'))) == Some(v)
  {
    PrintedParts(CoreOf(v), v);
    if v.pre != [] {
      SplitJoin(v.pre, '.');
      RenderChars(v);
    }
  }

  lemma RenderMain(v: Version)
    requires WellFormed(v)
    ensures ParseMain(Render(v)) == Some(v)
  {
    RenderChars(v);
    CutUnique(Join(CoreOf(v), '.'), if v.pre == [] then None else Some(Join(v.pre, '.')), '-');
    SplitJoin(CoreOf(v), '.');
    RenderParts(v);
  }

  lemma ParseForms(input: string, text: string, build: string)
    requires text != [] && text[0] != 'v' && '+' !in text && (build != [] ==> build[0] == '+')
    requires TrimSpace(input) == text + build || TrimSpace(input) == ['v'] + (text + build)
    ensures ParseOf(input) == ParseMain(text)
  {
    StrippedForms(input, text + build);
    assert build != [] ==> build == ['+'] + build[1..];
    CutUnique(text, if build == [] then None else Some(build[1..]), '+');
  }

  /** Every form of a well-formed version is read as that version. */
  lemma RenderParse(input: string, v: Version, build: string)
    requires WellFormed(v) && Denotes(input, v, build)
    ensures ParseOf(input) == Some(v)
  {
    RenderChars(v);
    RenderMain(v);
    ParseForms(input, Render(v), build);
  }

  lemma PartsRender(core: seq<string>, pre: Option<string>, v: Version)
    requires forall i :: 0 <= i < |core| ==> '+' !in core[i] && '-' !in core[i]
    requires ParseParts(core, pre) == Some(v)
    ensures WellFormed(v) && core == CoreOf(v) && pre == if v.pre == [] then None else Some(Join(v.pre, '.'))
  {
    PrintedParts(core, v);
    if pre.Some? {
      JoinSplit(pre.value, '.');
      assert forall i :: 0 <= i < |v.pre| ==> v.pre[i] in Split(pre.value, '.');
    }
  }

  lemma MainRender(main: string, v: Version)
    requires '+' !in main && ParseMain(main) == Some(v)
    ensures WellFormed(v) && main == Render(v)
  {
    var (front, pre) := Cut(main, '-');
    JoinSplit(front, '.');
    PartsRender(Split(front, '.'), pre, v);
  }

  /** Whatever is read as a version is a form of it. */
  lemma ParseRender(input: string, v: Version) returns (build: string)
    requires ParseOf(input) == Some(v)
    ensures WellFormed(v) && Denotes(input, v, build)
  {
    var (main, rest) := Cut(Stripped(input), '+');
    build := if rest.Some? then ['+'] + rest.value else [];
    MainRender(main, v);
    RenderChars(v);
    StrippedForms(input, Render(v) + build);
  }

  lemma StrippedForms(input: string, value: string)
    requires value != [] && value[0] != 'v'
    ensures Stripped(input) == value <==> TrimSpace(input) == value || TrimSpace(input) == ['v'] + value
  {
  }

  // ---------- Comparing ----------

  /** For two different identifiers. */
  function CompareIds(x: string, y: string): int {
    var m, n := Atoi(x), Atoi(y);
    if m.Some? && n.Some? then if m.value < n.value then -1 else 1
    else if m.Some? then -1
    else if n.Some? then 1
    else if LexLess(x, y) then -1
    else 1
  }

  function ComparePre(p: seq<string>, q: seq<string>): int {
    if p == [] then if q == [] then 0 else -1
    else if q == [] then 1
    else if p[0] == q[0] then ComparePre(p[1..], q[1..])
    else CompareIds(p[0], q[0])
  }

  function CompareOf(a: Version, b: Version): int {
    if a.major != b.major then if a.major < b.major then -1 else 1
    else if a.minor != b.minor then if a.minor < b.minor then -1 else 1
    else if a.patch != b.patch then if a.patch < b.patch then -1 else 1
    else if a.pre == [] || b.pre == [] then ComparePre(b.pre, a.pre)
    else ComparePre(a.pre, b.pre)
  }

  /** The comparison of two parsed versions, as the source's loops make it. */
  method Compare(a: Version, b: Version) returns (result: int)
    ensures result == CompareOf(a, b)
  {
    var pairs := [(a.major, b.major), (a.minor, b.minor), (a.patch, b.patch)];
    for i := 0 to |pairs|
      invariant forall j :: 0 <= j < i ==> pairs[j].0 == pairs[j].1
    {
      assert i == 0 || i == 1 || i == 2;
      assert i > 0 ==> pairs[0].0 == pairs[0].1;
      assert i > 1 ==> pairs[1].0 == pairs[1].1;
      if pairs[i].0 < pairs[i].1 {
        return -1;
      }
      if pairs[i].0 > pairs[i].1 {
        return 1;
      }
    }
    assert pairs[0].0 == pairs[0].1 && pairs[1].0 == pairs[1].1 && pairs[2].0 == pairs[2].1;
    if |a.pre| == 0 && |b.pre| == 0 {
      return 0;
    }
    if |a.pre| == 0 {
      return 1;
    }
    if |b.pre| == 0 {
      return -1;
    }
    result := CompareLists(a.pre, b.pre);
  }

  method CompareLists(p: seq<string>, q: seq<string>) returns (result: int)
    ensures result == ComparePre(p, q)
  {
    var limit := if |p| < |q| then |p| else |q|;
    for index := 0 to limit
      invariant ComparePre(p, q) == ComparePre(p[index..], q[index..])
    {
      var left, right := p[index], q[index];
      if left == right {
        continue;
      }
      var leftNumber, rightNumber := Atoi(left), Atoi(right);
      if leftNumber.Some? && rightNumber.Some? {
        if leftNumber.value < rightNumber.value {
          return -1;
        }
        return 1;
      }
      if leftNumber.Some? {
        return -1;
      }
      if rightNumber.Some? {
        return 1;
      }
      if LexLess(left, right) {
        return -1;
      }
      return 1;
    }
    if |p| < |q| {
      return -1;
    }
    if |p| > |q| {
      return 1;
    }
    result := 0;
  }

  /** `None` when one of the two is not a version. */
  function OrderOf(first: string, second: string): Option<int> {
    if ParseOf(first).Some? && ParseOf(second).Some?
    then Some(CompareOf(ParseOf(first).value, ParseOf(second).value)) else None
  }

  method CompareVersions(first: string, second: string) returns (result: Option<int>)
    ensures result == OrderOf(first, second)
  {
    var a := ParseVersion(first);
    if a.None? {
      return None;
    }
    var b := ParseVersion(second);
    if b.None? {
      return None;
    }
    var order := Compare(a.value, b.value);
    result := Some(order);
  }

  /** Does the text parse? A failure makes every comparison fail. */
  method CheckVersion(input: string) returns (ok: bool)
    ensures !ok ==> forall other :: OrderOf(input, other).None?
    ensures ok <==> ParseOf(input).Some?
  {
    var parsed := ParseVersion(input);
    ok := parsed.Some?;
  }

  // ---------- Precedence ----------

  /** Section 11: numeric identifiers by value, others in ASCII order, numeric ones first. */
  predicate IdPrecedes(x: string, y: string) {
    if AllDigits(x) && AllDigits(y) then Value(x) < Value(y)
    else if AllDigits(x) || AllDigits(y) then AllDigits(x)
    else LexLess(x, y)
  }

  /** The first difference decides; without one the longer list is greater. */
  ghost predicate PrePrecedes(p: seq<string>, q: seq<string>) {
    exists k :: 0 <= k <= |p| && DecidedAt(p, q, k)
  }

  predicate DecidedAt(p: seq<string>, q: seq<string>, k: nat) {
    && k <= |p| && k < |q| && p[..k] == q[..k]
    && (k == |p| || (p[k] != q[k] && IdPrecedes(p[k], q[k])))
  }

  ghost predicate Precedes(a: Version, b: Version) {
    if a.major != b.major then a.major < b.major
    else if a.minor != b.minor then a.minor < b.minor
    else if a.patch != b.patch then a.patch < b.patch
    else if b.pre == [] then a.pre != []
    else a.pre != [] && PrePrecedes(a.pre, b.pre)
  }

  /** Identifiers as section 9 has them, whose numbers fit, and none of which is a
      minus sign with digits. */
  predicate ConformingId(s: string) {
    && ValidIdentifier(s)
    && (AllDigits(s) ==> Shortest(s) && Value(s) <= MaxInt)
    && !(s[0] == '-' && |s| > 1 && AllDigits(s[1..]))
  }

  predicate Conforming(v: Version) {
    forall i :: 0 <= i < |v.pre| ==> ConformingId(v.pre[i])
  }

  lemma AtoiConforming(s: string)
    requires ConformingId(s)
    ensures Atoi(s) == if AllDigits(s) then Some(Value(s)) else None
  {
  }

  /** On different conforming identifiers the comparison is precedence, both ways. */
  lemma IdsAgree(x: string, y: string)
    requires ConformingId(x) && ConformingId(y) && x != y
    ensures CompareIds(x, y) == (if IdPrecedes(x, y) then -1 else 1)
    ensures IdPrecedes(x, y) <==> !IdPrecedes(y, x)
  {
    AtoiConforming(x);
    AtoiConforming(y);
    LexAntisymmetric(x, y);
    if AllDigits(x) && AllDigits(y) {
      ShortestUnique(x);
      ShortestUnique(y);
    }
  }

  lemma DecidedShift(p: seq<string>, q: seq<string>, k: nat)
    requires p != [] && q != [] && p[0] == q[0]
    ensures DecidedAt(p, q, k + 1) <==> DecidedAt(p[1..], q[1..], k)
  {
    if k + 1 <= |p| && k + 1 <= |q| {
      var u, v := p[1..][..k], q[1..][..k];
      assert p[..k + 1] == [p[0]] + u && q[..k + 1] == [q[0]] + v;
      assert ([p[0]] + u)[1..] == u && ([q[0]] + v)[1..] == v;
    }
  }

  lemma {:induction false} PreAgrees(p: seq<string>, q: seq<string>)
    requires forall i :: 0 <= i < |p| ==> ConformingId(p[i])
    requires forall i :: 0 <= i < |q| ==> ConformingId(q[i])
    ensures ComparePre(p, q) == -1 <==> PrePrecedes(p, q)
    ensures ComparePre(p, q) == 1 <==> PrePrecedes(q, p)
    ensures ComparePre(p, q) == 0 <==> p == q
  {
    if p == [] || q == [] {
      assert q != [] ==> (DecidedAt(p, q, 0) <==> p == []);
      assert p != [] ==> (DecidedAt(q, p, 0) <==> q == []);
    } else if p[0] == q[0] {
      PreAgrees(p[1..], q[1..]);
      PrecedesShift(p, q);
      PrecedesShift(q, p);
      assert p == [p[0]] + p[1..] && q == [q[0]] + q[1..];
    } else {
      IdsAgree(p[0], q[0]);
      FirstDecides(p, q);
      FirstDecides(q, p);
    }
  }

  lemma PrecedesShift(p: seq<string>, q: seq<string>)
    requires p != [] && q != [] && p[0] == q[0]
    ensures PrePrecedes(p, q) <==> PrePrecedes(p[1..], q[1..])
  {
    if PrePrecedes(p, q) {
      var k :| 0 <= k <= |p| && DecidedAt(p, q, k);
      DecidedShift(p, q, k - 1);
    }
    if PrePrecedes(p[1..], q[1..]) {
      var k :| 0 <= k <= |p[1..]| && DecidedAt(p[1..], q[1..], k);
      DecidedShift(p, q, k);
    }
  }

  lemma FirstDiffers(p: seq<string>, q: seq<string>)
    requires p != [] && q != [] && p[0] != q[0]
    ensures forall k :: 0 < k <= |p| && k <= |q| ==> p[..k] != q[..k]
  {
    forall k | 0 < k <= |p| && k <= |q| ensures p[..k] != q[..k] {
      assert p[..k][0] == p[0] && q[..k][0] == q[0];
    }
  }

  lemma FirstDecides(p: seq<string>, q: seq<string>)
    requires p != [] && q != [] && p[0] != q[0]
    ensures PrePrecedes(p, q) <==> IdPrecedes(p[0], q[0])
  {
    assert p[..0] == q[..0];
    assert DecidedAt(p, q, 0) <==> IdPrecedes(p[0], q[0]);
    FirstDiffers(p, q);
  }

  /** On conforming versions the comparison is precedence, and it is zero exactly for
      the same core and the same pre-release identifiers. */
  lemma ComparisonIsPrecedence(a: Version, b: Version)
    requires Conforming(a) && Conforming(b)
    ensures CompareOf(a, b) == -1 <==> Precedes(a, b)
    ensures CompareOf(a, b) == 1 <==> Precedes(b, a)
    ensures CompareOf(a, b) == 0 <==> a == b
  {
    PreAgrees(a.pre, b.pre);
  }

  lemma IdTransitive(x: string, y: string, z: string)
    requires IdPrecedes(x, y) && IdPrecedes(y, z)
    ensures IdPrecedes(x, z)
  {
    if !AllDigits(x) {
      LexTransitive(x, y, z);
    }
  }

  lemma {:induction false} PreTransitive(p: seq<string>, q: seq<string>, r: seq<string>)
    requires forall i :: 0 <= i < |p| ==> ConformingId(p[i])
    requires forall i :: 0 <= i < |q| ==> ConformingId(q[i])
    requires forall i :: 0 <= i < |r| ==> ConformingId(r[i])
    requires ComparePre(p, q) == -1 && ComparePre(q, r) == -1
    ensures ComparePre(p, r) == -1
  {
    if p != [] {
      if p[0] != q[0] {
        IdsAgree(p[0], q[0]);
      }
      if q[0] != r[0] {
        IdsAgree(q[0], r[0]);
      }
      if p[0] == q[0] == r[0] {
        PreTransitive(p[1..], q[1..], r[1..]);
      } else {
        if p[0] != q[0] && q[0] != r[0] {
          IdTransitive(p[0], q[0], r[0]);
        }
        if p[0] != r[0] {
          IdsAgree(p[0], r[0]);
        }
      }
    }
  }

  /** Smaller is transitive on conforming versions. */
  lemma ComparisonTransitive(a: Version, b: Version, c: Version)
    requires Conforming(a) && Conforming(b) && Conforming(c)
    requires CompareOf(a, b) == -1 && CompareOf(b, c) == -1
    ensures CompareOf(a, c) == -1
  {
    if a.major == b.major == c.major && a.minor == b.minor == c.minor && a.patch == b.patch == c.patch
       && a.pre != [] && b.pre != [] && c.pre != [] {
      PreTransitive(a.pre, b.pre, c.pre);
    }
  }

  lemma CompareRange(a: Version, b: Version)
    ensures -1 <= CompareOf(a, b) <= 1
  {
    PreRange(a.pre, b.pre);
    PreRange(b.pre, a.pre);
  }

  lemma {:induction false} PreRange(p: seq<string>, q: seq<string>)
    ensures -1 <= ComparePre(p, q) <= 1
  {
    if p != [] && q != [] && p[0] == q[0] {
      PreRange(p[1..], q[1..]);
    }
  }

  /** On conforming versions a negative comparison is precedence. */
  lemma NegativeIsPrecedence(a: Version, b: Version)
    requires Conforming(a) && Conforming(b)
    ensures CompareOf(a, b) < 0 <==> Precedes(a, b)
  {
    CompareRange(a, b);
    ComparisonIsPrecedence(a, b);
  }

  // ---------- Where the comparison is not an order ----------

  /** The first differing identifiers are numerals of the same value. */
  ghost predicate Clash(p: seq<string>, q: seq<string>) {
    exists k :: 0 <= k < |p| && ClashAt(p, q, k)
  }

  predicate ClashAt(p: seq<string>, q: seq<string>, k: nat) {
    && k < |p| && k < |q| && p[..k] == q[..k] && p[k] != q[k]
    && Atoi(p[k]).Some? && Atoi(p[k]) == Atoi(q[k])
  }

  lemma {:induction false} PreAntisymmetric(p: seq<string>, q: seq<string>)
    ensures ComparePre(p, q) == -ComparePre(q, p) <==> !Clash(p, q)
  {
    if p != [] && q != [] {
      if p[0] == q[0] {
        PreAntisymmetric(p[1..], q[1..]);
        ClashShift(p, q);
      } else {
        LexAntisymmetric(p[0], q[0]);
        ClashHead(p, q);
      }
    }
  }

  lemma ClashAtShift(p: seq<string>, q: seq<string>, k: nat)
    requires p != [] && q != [] && p[0] == q[0]
    ensures ClashAt(p, q, k + 1) <==> ClashAt(p[1..], q[1..], k)
  {
    if k + 1 <= |p| && k + 1 <= |q| {
      assert p[..k + 1] == [p[0]] + p[1..][..k] && q[..k + 1] == [q[0]] + q[1..][..k];
    }
  }

  lemma ClashShift(p: seq<string>, q: seq<string>)
    requires p != [] && q != [] && p[0] == q[0]
    ensures Clash(p, q) <==> Clash(p[1..], q[1..])
  {
    if Clash(p, q) {
      var k :| 0 <= k < |p| && ClashAt(p, q, k);
      ClashAtShift(p, q, k - 1);
    }
    if Clash(p[1..], q[1..]) {
      var k :| 0 <= k < |p[1..]| && ClashAt(p[1..], q[1..], k);
      ClashAtShift(p, q, k);
    }
  }

  lemma ClashHead(p: seq<string>, q: seq<string>)
    requires p != [] && q != [] && p[0] != q[0]
    ensures Clash(p, q) <==> Atoi(p[0]).Some? && Atoi(p[0]) == Atoi(q[0])
  {
    assert p[..0] == q[..0];
    assert ClashAt(p, q, 0) <==> Atoi(p[0]).Some? && Atoi(p[0]) == Atoi(q[0]);
    FirstDiffers(p, q);
  }

  /** On all versions: swapping the arguments flips the sign, unless the cores are the
      same and the first differing identifiers are different numerals of one value. */
  lemma AntisymmetryExact(a: Version, b: Version)
    ensures var sameCore := a.major == b.major && a.minor == b.minor && a.patch == b.patch;
            CompareOf(a, b) == -CompareOf(b, a) <==> !(sameCore && Clash(a.pre, b.pre))
  {
    PreAntisymmetric(a.pre, b.pre);
    PreAntisymmetric(b.pre, a.pre);
  }

  /** Such numerals exist: `01` and `1` are each greater than the other. */
  lemma LeadingZeroClash(major: nat, minor: nat, patch: nat)
    ensures var a, b := Version(major, minor, patch, ["01"]), Version(major, minor, patch, ["1"]);
            CompareOf(a, b) == 1 && CompareOf(b, a) == 1
  {
    assert "01"[..1][..0] == [] && "1"[..0] == [];
    assert Value("01"[..1]) == 0;
    assert Value("01") == 1 && Value("1") == 1;
  }
}
