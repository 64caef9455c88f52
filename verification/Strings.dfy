/**
 Strings as the agent uses them: code-point order (the order Go gives UTF-8
 strings), sorted key lists, and whitespace trimming.
 */
module Strings {

  // ---------- Code-point order ----------

  function LexCompare(a: string, b: string): (r: int)
    ensures -1 <= r <= 1
  {
    if a == [] && b == [] then 0
    else if a == [] then -1
    else if b == [] then 1
    else if a[0] < b[0] then -1
    else if b[0] < a[0] then 1
    else LexCompare(a[1..], b[1..])
  }

  predicate LexLess(a: string, b: string) {
    LexCompare(a, b) < 0
  }

  lemma {:induction false} LexAntisymmetric(a: string, b: string)
    ensures LexCompare(a, b) == -LexCompare(b, a)
    ensures LexCompare(a, b) == 0 <==> a == b
  {
    if a != [] && b != [] && a[0] == b[0] {
      LexAntisymmetric(a[1..], b[1..]);
      assert a == [a[0]] + a[1..] && b == [b[0]] + b[1..];
    }
  }

  lemma {:induction false} LexTransitive(a: string, b: string, c: string)
    requires LexLess(a, b) && LexLess(b, c)
    ensures LexLess(a, c)
  {
    if a != [] && a[0] == b[0] == c[0] {
      LexTransitive(a[1..], b[1..], c[1..]);
    }
  }

  // ---------- Sorted key lists ----------

  predicate Ascending(keys: seq<string>) {
    forall i, j :: 0 <= i < j < |keys| ==> LexLess(keys[i], keys[j])
  }

  /** `keys` lists the set `s` in ascending order, each member once. */
  ghost predicate Lists(keys: seq<string>, s: set<string>) {
    Ascending(keys) && forall k :: k in keys <==> k in s
  }

  /** Puts one key in its place; equal keys are kept once. */
  function InsertKey(keys: seq<string>, k: string): (r: seq<string>)
    requires Ascending(keys)
    ensures Ascending(r)
    ensures forall x :: x in r <==> x in keys || x == k
  {
    if keys == [] then [k]
    else if k == keys[0] then keys
    else if LexLess(k, keys[0]) then
      assert forall j :: 0 <= j < |keys| ==> LexLess(k, keys[j]) by {
        forall j | 0 < j < |keys| ensures LexLess(k, keys[j]) { LexTransitive(k, keys[0], keys[j]); }
      }
      [k] + keys
    else
      assert LexLess(keys[0], k) by { LexAntisymmetric(k, keys[0]); }
      var rest := InsertKey(keys[1..], k);
      assert forall x :: x in rest ==> LexLess(keys[0], x);
      assert forall x :: x in keys <==> x == keys[0] || x in keys[1..];
      [keys[0]] + rest
  }

  /** Sorts a list of keys, as `sort.Strings` does for pairwise distinct ones. */
  function SortStrings(keys: seq<string>): (r: seq<string>)
    ensures Ascending(r)
    ensures forall x :: x in r <==> x in keys
  {
    if keys == [] then []
    else
      assert forall x :: x in keys <==> x == keys[0] || x in keys[1..];
      InsertKey(SortStrings(keys[1..]), keys[0])
  }

  /** Sorting is canonical: a set has one ascending listing, so the result of
      collecting keys from a Go map and sorting them cannot depend on the
      iteration order. */
  lemma {:induction false} ListingUnique(a: seq<string>, b: seq<string>, s: set<string>)
    requires Lists(a, s) && Lists(b, s)
    ensures a == b
  {
    assert b == [] || b[0] in b;
    if a != [] {
      assert a[0] in b && b != [];
      assert b[0] in a;
      var i :| 0 <= i < |a| && a[i] == b[0];
      var j :| 0 <= j < |b| && b[j] == a[0];
      assert i > 0 ==> LexLess(a[0], a[i]);
      assert j > 0 ==> LexLess(b[0], b[j]);
      LexAntisymmetric(a[0], b[0]);
      assert a[0] == b[0];
      TailLists(a, s);
      TailLists(b, s);
      ListingUnique(a[1..], b[1..], s - {a[0]});
      assert a == [a[0]] + a[1..] && b == [b[0]] + b[1..];
    }
  }

  lemma TailLists(a: seq<string>, s: set<string>)
    requires Lists(a, s) && a != []
    ensures Lists(a[1..], s - {a[0]})
  {
    forall k ensures k in a[1..] <==> k in s - {a[0]} {
      LexAntisymmetric(a[0], a[0]);
      if k in a[1..] {
        var i :| 0 <= i < |a[1..]| && a[1..][i] == k;
        assert LexLess(a[0], a[i + 1]);
      }
      assert k in a <==> k == a[0] || k in a[1..];
    }
  }

  /** The ascending listing of a finite set. */
  ghost function SortedKeys(s: set<string>): (keys: seq<string>)
    ensures Lists(keys, s)
  {
    if s == {} then []
    else
      var k :| k in s;
      InsertKey(SortedKeys(s - {k}), k)
  }

  // ---------- Trimming ----------

  /** `unicode.IsSpace`. */
  predicate IsSpace(c: char) {
    c in {' ', '\t', '\n', '\U{0B}', '\U{0C}', '\r', '\U{85}', '\U{A0}', '\U{1680}',
          '\U{2028}', '\U{2029}', '\U{202F}', '\U{205F}', '\U{3000}'}
    || '\U{2000}' <= c <= '\U{200A}'
  }

  function TrimLeft(s: string): (r: string)
    ensures r != [] ==> !IsSpace(r[0])
    ensures |r| <= |s| && r == s[|s| - |r|..]
  {
    if s != [] && IsSpace(s[0]) then TrimLeft(s[1..]) else s
  }

  function TrimRight(s: string): (r: string)
    ensures r != [] ==> !IsSpace(r[|r| - 1])
    ensures r <= s
  {
    if s != [] && IsSpace(s[|s| - 1]) then TrimRight(s[..|s| - 1]) else s
  }

  function TrimSpace(s: string): (r: string)
    ensures Trimmed(r)
  {
    TrimRight(TrimLeft(s))
  }

  /** Neither end is white space. */
  predicate Trimmed(s: string) {
    s != [] ==> !IsSpace(s[0]) && !IsSpace(s[|s| - 1])
  }

  lemma TrimmedFixed(s: string)
    requires Trimmed(s)
    ensures TrimSpace(s) == s
  {
  }

  predicate HasPrefix(s: string, p: string) {
    p <= s
  }

  predicate HasSuffix(s: string, p: string) {
    |p| <= |s| && s[|s| - |p|..] == p
  }

  /** `p` occurs somewhere in `s`. */
  predicate Contains(s: string, p: string) {
    HasPrefix(s, p) || (s != [] && Contains(s[1..], p))
  }

  /** `p` stands at position `i` of `s`. */
  predicate StandsAt(s: string, p: string, i: nat) {
    i + |p| <= |s| && s[i..i + |p|] == p
  }

  lemma {:induction false} ContainsExact(s: string, p: string)
    ensures Contains(s, p) <==> exists i :: StandsAt(s, p, i)
  {
    if HasPrefix(s, p) {
      assert StandsAt(s, p, 0);
    } else if s != [] {
      ContainsExact(s[1..], p);
      if i: nat :| StandsAt(s[1..], p, i) {
        assert StandsAt(s, p, i + 1);
      }
      if i: nat :| StandsAt(s, p, i) {
        assert i == 0 ==> p <= s;
        assert s[1..][i - 1..i - 1 + |p|] == s[i..i + |p|];
        assert StandsAt(s[1..], p, i - 1);
      }
    }
  }
}
