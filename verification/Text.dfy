/** String scanning in the manner of Rust's `str`: find, trim, case-insensitive comparison. */
module Text {

  /** `char::is_ascii_whitespace`. */
  predicate AsciiWhite(c: char) {
    c == ' ' || c == '\t' || c == '\n' || c == '\r' || c == '\U{0C}'
  }

  /** `char::is_whitespace`: the Unicode White_Space property. */
  predicate White(c: char) {
    var n := c as int;
    9 <= n <= 13 || n == 0x20 || n == 0x85 || n == 0xA0 || n == 0x1680 || 0x2000 <= n <= 0x200A
    || n == 0x2028 || n == 0x2029 || n == 0x202F || n == 0x205F || n == 0x3000
  }

  /** Index of the first character that satisfies `p`, or the length. */
  function Find(s: string, p: char -> bool): (i: nat)
    ensures i <= |s|
    ensures forall k :: 0 <= k < i ==> !p(s[k])
    ensures i < |s| ==> p(s[i])
  {
    if |s| == 0 || p(s[0]) then 0 else 1 + Find(s[1..], p)
  }

  /** Drop the leading characters that satisfy `p`. */
  function TrimStart(s: string, p: char -> bool): (t: string)
    ensures |t| <= |s|
    ensures t != "" ==> !p(t[0])
  {
    if |s| > 0 && p(s[0]) then TrimStart(s[1..], p) else s
  }

  function TrimEnd(s: string, p: char -> bool): (t: string)
    ensures t <= s
    ensures t != "" ==> !p(t[|t| - 1])
  {
    if |s| > 0 && p(s[|s| - 1]) then TrimEnd(s[..|s| - 1], p) else s
  }

  predicate All(s: string, p: char -> bool) {
    forall i :: 0 <= i < |s| ==> p(s[i])
  }

  lemma FindAt(a: string, b: string, p: char -> bool)
    requires forall i :: 0 <= i < |a| ==> !p(a[i])
    requires b == "" || p(b[0])
    ensures Find(a + b, p) == |a|
  {
    assert forall k :: 0 <= k < |a| ==> (a + b)[k] == a[k];
    assert b != "" ==> (a + b)[|a|] == b[0];
  }

  lemma {:induction false} TrimStartAt(a: string, b: string, p: char -> bool)
    requires All(a, p)
    requires b == "" || !p(b[0])
    ensures TrimStart(a + b, p) == b
  {
    if a == "" {
      assert a + b == b;
    } else {
      assert (a + b)[1..] == a[1..] + b;
      TrimStartAt(a[1..], b, p);
    }
  }

  lemma {:induction false} TrimEndAt(a: string, b: string, p: char -> bool)
    requires a == "" || !p(a[|a| - 1])
    requires All(b, p)
    ensures TrimEnd(a + b, p) == a
  {
    if b == "" {
      assert a + b == a;
    } else {
      assert (a + b)[..|a + b| - 1] == a + b[..|b| - 1];
      TrimEndAt(a, b[..|b| - 1], p);
    }
  }

  function Lower(c: char): char {
    if 'A' <= c <= 'Z' then (c as int + 32) as char else c
  }

  /** `eq_ignore_ascii_case`. */
  predicate SameIgnoringCase(a: string, b: string) {
    |a| == |b| && forall i :: 0 <= i < |a| ==> Lower(a[i]) == Lower(b[i])
  }
}
