/**
 The string operations the process manager leans on: trimming, affix stripping, the first
 split, ASCII lower case, and the order in which sorted strings come out.
 A string is a sequence of Unicode scalar values, so the order below is code point order,
 which is also the byte order of the UTF-8 encoding.
 */
module Text {
  import opened Wrappers

  /** The Unicode White_Space property. */
  predicate IsWhitespace(c: char) {
    var u := c as int;
    || 0x9 <= u <= 0xD || u == 0x20 || u == 0x85 || u == 0xA0 || u == 0x1680
    || 0x2000 <= u <= 0x200A || u == 0x2028 || u == 0x2029 || u == 0x202F || u == 0x205F || u == 0x3000
  }

  /** The one-character pattern of a trim. */
  function Only(c: char): char -> bool {
    x => x == c
  }

  predicate All(s: string, p: char -> bool) {
    forall i :: 0 <= i < |s| ==> p(s[i])
  }

  /** No leading and no trailing character matches the pattern. */
  predicate Bare(s: string, p: char -> bool) {
    s != "" ==> !p(s[0]) && !p(s[|s| - 1])
  }

  // ---------- Trimming ----------

  function TrimStart(s: string, p: char -> bool): string {
    if s != "" && p(s[0]) then TrimStart(s[1..], p) else s
  }

  function TrimEnd(s: string, p: char -> bool): string {
    if s != "" && p(s[|s| - 1]) then TrimEnd(s[..|s| - 1], p) else s
  }

  function TrimBy(s: string, p: char -> bool): string {
    TrimEnd(TrimStart(s, p), p)
  }

  function Trim(s: string): string {
    TrimBy(s, IsWhitespace)
  }

  lemma {:induction false} TrimStartSplits(s: string, p: char -> bool) returns (w: string)
    ensures s == w + TrimStart(s, p) && All(w, p)
    ensures TrimStart(s, p) != "" ==> !p(TrimStart(s, p)[0])
  {
    if s != "" && p(s[0]) {
      var rest := TrimStartSplits(s[1..], p);
      w := [s[0]] + rest;
      assert s == [s[0]] + s[1..];
    } else {
      w := "";
    }
  }

  lemma {:induction false} TrimEndSplits(s: string, p: char -> bool) returns (w: string)
    ensures s == TrimEnd(s, p) + w && All(w, p)
    ensures TrimEnd(s, p) != "" ==> !p(TrimEnd(s, p)[|TrimEnd(s, p)| - 1])
  {
    if s != "" && p(s[|s| - 1]) {
      var rest := TrimEndSplits(s[..|s| - 1], p);
      w := rest + [s[|s| - 1]];
      assert s == s[..|s| - 1] + [s[|s| - 1]];
    } else {
      w := "";
    }
  }

  /** Trimming removes matching characters from both ends and leaves a bare middle. */
  lemma TrimSplits(s: string, p: char -> bool) returns (left: string, right: string)
    ensures s == left + TrimBy(s, p) + right
    ensures All(left, p) && All(right, p) && Bare(TrimBy(s, p), p)
  {
    left := TrimStartSplits(s, p);
    right := TrimEndSplits(TrimStart(s, p), p);
    assert s == left + (TrimBy(s, p) + right);
    if TrimBy(s, p) != "" {
      assert TrimBy(s, p)[0] == TrimStart(s, p)[0];
    }
  }

  lemma {:induction false} TrimStartPadded(left: string, s: string, p: char -> bool)
    requires All(left, p) && (s != "" ==> !p(s[0]))
    ensures TrimStart(left + s, p) == s
  {
    if left == "" {
      assert left + s == s;
    } else {
      assert (left + s)[1..] == left[1..] + s;
      TrimStartPadded(left[1..], s, p);
    }
  }

  lemma {:induction false} TrimEndPadded(s: string, right: string, p: char -> bool)
    requires All(right, p) && (s != "" ==> !p(s[|s| - 1]))
    ensures TrimEnd(s + right, p) == s
  {
    if right == "" {
      assert s + right == s;
    } else {
      var n := |s + right|;
      assert (s + right)[..n - 1] == s + right[..|right| - 1];
      TrimEndPadded(s, right[..|right| - 1], p);
    }
  }

  /** Padding around a bare middle is exactly what trimming takes away. */
  lemma TrimPadded(left: string, s: string, right: string, p: char -> bool)
    requires All(left, p) && All(right, p) && Bare(s, p)
    ensures TrimBy(left + s + right, p) == s
  {
    if s == "" {
      TrimStartPadded(left + right, "", p);
      assert left + s + right == left + right + "";
    } else {
      assert left + s + right == left + (s + right);
      TrimStartPadded(left, s + right, p);
      TrimEndPadded(s, right, p);
    }
  }

  // ---------- Affixes and splitting ----------

  function StripPrefix(s: string, prefix: string): Option<string> {
    if prefix <= s then Some(s[|prefix|..]) else None
  }

  predicate EndsWith(s: string, suffix: string) {
    |suffix| <= |s| && s[|s| - |suffix|..] == suffix
  }

  function StripSuffix(s: string, suffix: string): Option<string> {
    if EndsWith(s, suffix) then Some(s[..|s| - |suffix|]) else None
  }

  predicate OccursAt(s: string, sep: string, i: nat) {
    i + |sep| <= |s| && s[i..i + |sep|] == sep
  }

  /** Splits at the first occurrence of the separator. */
  function SplitOnce(s: string, sep: string): (r: Option<(string, string)>)
    requires sep != ""
    ensures r.None? ==> forall i: nat :: !OccursAt(s, sep, i)
    ensures r.Some? ==> s == r.value.0 + sep + r.value.1
    ensures r.Some? ==> forall i: nat :: i < |r.value.0| ==> !OccursAt(s, sep, i)
  {
    SplitFrom(s, sep, 0)
  }

  function SplitFrom(s: string, sep: string, k: nat): (r: Option<(string, string)>)
    requires sep != "" && k <= |s|
    requires forall i: nat :: i < k ==> !OccursAt(s, sep, i)
    ensures r.None? ==> forall i: nat :: !OccursAt(s, sep, i)
    ensures r.Some? ==> s == r.value.0 + sep + r.value.1
    ensures r.Some? ==> forall i: nat :: i < |r.value.0| ==> !OccursAt(s, sep, i)
    decreases |s| - k
  {
    if OccursAt(s, sep, k) then Some((s[..k], s[k + |sep|..]))
    else if k == |s| then None
    else SplitFrom(s, sep, k + 1)
  }

  /** A separator with no earlier occurrence is where the first split happens. */
  lemma SplitOnceAt(s: string, sep: string, k: nat)
    requires sep != "" && OccursAt(s, sep, k)
    requires forall i: nat :: i < k ==> !OccursAt(s, sep, i)
    ensures SplitOnce(s, sep) == Some((s[..k], s[k + |sep|..]))
  {
    var r := SplitOnce(s, sep);
    assert r.Some?;
    var n := |r.value.0|;
    assert s[n..n + |sep|] == sep;
    assert OccursAt(s, sep, n);
    assert n == k;
    assert r.value.0 == s[..k] && r.value.1 == s[k + |sep|..];
  }

  // ---------- ASCII lower case ----------

  function Lower(c: char): char {
    if 'A' <= c <= 'Z' then (c as int + 32) as char else c
  }

  function ToAsciiLowercase(s: string): (r: string)
    ensures |r| == |s| && forall i :: 0 <= i < |s| ==> r[i] == Lower(s[i])
  {
    seq(|s|, i requires 0 <= i < |s| => Lower(s[i]))
  }

  // ---------- Order ----------

  predicate StrLess(a: string, b: string) {
    if b == "" then false
    else if a == "" then true
    else if a[0] != b[0] then a[0] < b[0]
    else StrLess(a[1..], b[1..])
  }

  lemma {:induction false} StrLessTotal(a: string, b: string)
    ensures StrLess(a, b) || a == b || StrLess(b, a)
  {
    if a != "" && b != "" && a[0] == b[0] {
      StrLessTotal(a[1..], b[1..]);
      assert a == [a[0]] + a[1..] && b == [b[0]] + b[1..];
    }
  }

  lemma {:induction false} StrLessIrreflexive(a: string)
    ensures !StrLess(a, a)
  {
    if a != "" { StrLessIrreflexive(a[1..]); }
  }

  lemma {:induction false} StrLessTransitive(a: string, b: string, c: string)
    requires StrLess(a, b) && StrLess(b, c)
    ensures StrLess(a, c)
  {
    if a != "" && a[0] == b[0] && b[0] == c[0] {
      StrLessTransitive(a[1..], b[1..], c[1..]);
    }
  }

  ghost predicate Ascending(xs: seq<string>) {
    forall i, j :: 0 <= i < j < |xs| ==> StrLess(xs[i], xs[j])
  }

  /** Places a string into an ascending sequence, once. */
  function Insert(xs: seq<string>, x: string): (r: seq<string>)
    requires Ascending(xs)
    ensures Ascending(r)
    ensures forall y :: y in r <==> y == x || y in xs
  {
    if xs == [] then [x]
    else if x == xs[0] then xs
    else if StrLess(x, xs[0]) then
      assert forall j :: 0 <= j < |xs| ==> StrLess(x, xs[j]) by {
        forall j | 0 < j < |xs| ensures StrLess(x, xs[j]) { StrLessTransitive(x, xs[0], xs[j]); }
      }
      [x] + xs
    else
      StrLessTotal(x, xs[0]);
      var rest := Insert(xs[1..], x);
      assert forall j :: 0 <= j < |rest| ==> StrLess(xs[0], rest[j]) by {
        forall j | 0 <= j < |rest| ensures StrLess(xs[0], rest[j]) {
          assert rest[j] == x || rest[j] in xs[1..];
        }
      }
      [xs[0]] + rest
  }

  /** Sorting followed by removal of adjacent duplicates. */
  function SortDedup(xs: seq<string>): (r: seq<string>)
    ensures Ascending(r)
    ensures forall y :: y in r <==> y in xs
  {
    if xs == [] then [] else
      assert xs == xs[..|xs| - 1] + [xs[|xs| - 1]];
      Insert(SortDedup(xs[..|xs| - 1]), xs[|xs| - 1])
  }

  /** An ascending sequence is determined by its elements. */
  lemma {:induction false} AscendingUnique(a: seq<string>, b: seq<string>)
    requires Ascending(a) && Ascending(b)
    requires forall y :: y in a <==> y in b
    ensures a == b
  {
    assert a != [] ==> a[0] in b;
    assert b != [] ==> b[0] in a;
    if a != [] && b != [] {
      FirstIsLeast(a, b[0]);
      FirstIsLeast(b, a[0]);
      if a[0] != b[0] {
        StrLessTransitive(a[0], b[0], a[0]);
        StrLessIrreflexive(a[0]);
      }
      forall y ensures y in a[1..] <==> y in b[1..] {
        TailExcludesFirst(a, y);
        TailExcludesFirst(b, y);
      }
      AscendingUnique(a[1..], b[1..]);
      assert a == [a[0]] + a[1..] && b == [b[0]] + b[1..];
    }
  }

  lemma FirstIsLeast(a: seq<string>, y: string)
    requires Ascending(a) && y in a
    ensures a[0] == y || StrLess(a[0], y)
  {
    var i :| 0 <= i < |a| && a[i] == y;
  }

  lemma TailExcludesFirst(a: seq<string>, y: string)
    requires Ascending(a) && a != []
    ensures y in a[1..] <==> y in a && y != a[0]
  {
    StrLessIrreflexive(a[0]);
    assert a == [a[0]] + a[1..];
    if y in a[1..] {
      var i :| 0 <= i < |a[1..]| && a[1..][i] == y;
      assert StrLess(a[0], a[i + 1]);
    }
  }

  // ---------- Numbers in decimal ----------

  predicate IsDigit(c: char) {
    '0' <= c <= '9'
  }

  function DigitValue(c: char): nat
    requires IsDigit(c)
  {
    c as int - '0' as int
  }

  /** The number written by a string of digits. */
  function ValueOf(digits: string): nat
    requires All(digits, IsDigit)
  {
    if digits == "" then 0
    else 10 * ValueOf(digits[..|digits| - 1]) + DigitValue(digits[|digits| - 1])
  }

  function Decimal(n: nat): (s: string)
    ensures s != "" && All(s, IsDigit) && ValueOf(s) == n
  {
    var last := ('0' as int + n % 10) as char;
    if n < 10 then
      assert [last][..0] == "";
      [last]
    else
      var s := Decimal(n / 10) + [last];
      assert s[..|s| - 1] == Decimal(n / 10);
      s
  }

  // ---------- The definitions, told otherwise ----------

  /** White space, character by character. */
  lemma WhitespaceIs(c: char)
    ensures IsWhitespace(c) <==> c as int in {
              9, 10, 11, 12, 13, 32, 133, 160, 5760, 8192, 8193, 8194, 8195, 8196, 8197, 8198, 8199, 8200, 8201, 8202,
              8232, 8233, 8239, 8287, 12288}
  {
  }

  /** Lower case maps the capital letters one by one, and nothing else. */
  lemma LowerIs(c: char, i: nat)
    requires i < 26
    ensures c == "ABCDEFGHIJKLMNOPQRSTUVWXYZ"[i] ==> Lower(c) == "abcdefghijklmnopqrstuvwxyz"[i]
    ensures c !in "ABCDEFGHIJKLMNOPQRSTUVWXYZ" ==> Lower(c) == c
  {
    if 'A' <= c <= 'Z' {
      assert "ABCDEFGHIJKLMNOPQRSTUVWXYZ"[c as int - 'A' as int] == c;
    }
  }

  /** The first n characters agree, and then a ends, or has the smaller character. */
  predicate LessAt(a: string, b: string, n: nat) {
    && n <= |a| && n < |b| && a[..n] == b[..n]
    && (n == |a| || a[n] < b[n])
  }

  lemma FrontAgrees(a: string, b: string, n: nat)
    ensures LessAt(a, b, n) && n > 0 ==> a != "" && b != "" && a[0] == b[0]
  {
    if LessAt(a, b, n) && n > 0 { assert a[..n][0] == b[..n][0]; }
  }

  /** The order is decided at the first difference. */
  lemma {:induction false} StrLessMeans(a: string, b: string)
    ensures StrLess(a, b) <==> exists n: nat :: LessAt(a, b, n)
    decreases |a|
  {
    if a == "" || b == "" || a[0] != b[0] {
      if StrLess(a, b) { assert LessAt(a, b, 0); }
      if n: nat :| LessAt(a, b, n) {
        FrontAgrees(a, b, n);
      }
    } else {
      StrLessMeans(a[1..], b[1..]);
      if StrLess(a, b) {
        var n: nat :| LessAt(a[1..], b[1..], n);
        assert a[..n + 1] == [a[0]] + a[1..][..n] && b[..n + 1] == [b[0]] + b[1..][..n];
        assert LessAt(a, b, n + 1);
      }
      if n: nat :| LessAt(a, b, n) {
        assert n > 0;
        assert a[1..][..n - 1] == a[..n][1..] && b[1..][..n - 1] == b[..n][1..];
        assert LessAt(a[1..], b[1..], n - 1);
      }
    }
  }
}
