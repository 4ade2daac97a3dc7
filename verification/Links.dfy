/**
 `Link` header lookup (section 3 of RFC 8288): splitting a list outside angle brackets and
 quotes, and finding the first target that carries a relation.
 */
module Links {
  import opened Prelude
  import opened Text

  // -- Splitting ------------------------------------------------------------

  /** Whether the scanner is inside `<...>` or a quoted string. */
  datatype Scan = Scan(angle: bool, quote: bool)

  const OUTSIDE := Scan(false, false)

  predicate IsSeparator(sep: char) {
    sep == ',' || sep == ';'
  }

  function Next(at: Scan, c: char): Scan {
    if c == '<' && !at.quote then at.(angle := true)
    else if c == '>' && !at.quote then at.(angle := false)
    else if c == '"' && !at.angle then at.(quote := !at.quote)
    else at
  }

  /** The scanner after all of `s`. */
  function After(at: Scan, s: string): Scan
    decreases |s|
  {
    if s == "" then at else After(Next(at, s[0]), s[1..])
  }

  /** Position `i` of `s` is a separator outside brackets and quotes. */
  predicate CutAt(s: string, sep: char, at: Scan, i: nat)
    requires i < |s|
  {
    s[i] == sep && After(at, s[..i]) == OUTSIDE
  }

  function Split(s: string, sep: char, at: Scan): (parts: seq<string>)
    ensures |parts| >= 1
    decreases |s|
  {
    if s == "" then [""]
    else if s[0] == sep && at == OUTSIDE then [""] + Split(s[1..], sep, at)
    else
      var rest := Split(s[1..], sep, Next(at, s[0]));
      [[s[0]] + rest[0]] + rest[1..]
  }

  lemma {:induction false} AfterAppend(at: Scan, a: string, b: string)
    ensures After(at, a + b) == After(After(at, a), b)
    decreases |a|
  {
    if a == "" {
      assert a + b == b;
    } else {
      assert (a + b)[1..] == a[1..] + b;
      AfterAppend(Next(at, a[0]), a[1..], b);
    }
  }

  /** Text without a cut goes whole into the piece that the next text continues. */
  lemma {:induction false} SplitUncut(a: string, b: string, sep: char, at: Scan)
    requires Uncut(a, sep, at)
    ensures var rest := Split(b, sep, After(at, a));
            Split(a + b, sep, at) == [a + rest[0]] + rest[1..]
    decreases |a|
  {
    var rest := Split(b, sep, After(at, a));
    if a == "" {
      assert a + b == b;
      assert a + rest[0] == rest[0];
    } else {
      assert (a + b)[1..] == a[1..] + b;
      assert !CutAt(a, sep, at, 0);
      forall i | 0 <= i < |a[1..]| ensures !CutAt(a[1..], sep, Next(at, a[0]), i) {
        assert a[..i + 1][1..] == a[1..][..i];
        assert !CutAt(a, sep, at, i + 1);
      }
      SplitUncut(a[1..], b, sep, Next(at, a[0]));
      assert [a[0]] + (a[1..] + rest[0]) == a + rest[0];
    }
  }

  predicate Uncut(s: string, sep: char, at: Scan) {
    forall i :: 0 <= i < |s| ==> !CutAt(s, sep, at, i)
  }

  lemma UncutExtends(s: string, c: char, sep: char, at: Scan)
    requires Uncut(s, sep, at) && !(c == sep && After(at, s) == OUTSIDE)
    ensures Uncut(s + [c], sep, at)
    ensures After(at, s + [c]) == Next(After(at, s), c)
  {
    AfterAppend(at, s, [c]);
    assert [c][1..] == "";
    forall i | 0 <= i < |s + [c]| ensures !CutAt(s + [c], sep, at, i) {
      assert (s + [c])[..i] == s[..i];
      if i < |s| {
        assert !CutAt(s, sep, at, i);
      } else {
        assert s[..i] == s;
      }
    }
  }

  /** A separator met outside ends the piece. */
  lemma SplitAtCut(a: string, b: string, sep: char)
    requires Uncut(a, sep, OUTSIDE) && After(OUTSIDE, a) == OUTSIDE
    ensures Split(a + ([sep] + b), sep, OUTSIDE) == [a] + Split(b, sep, OUTSIDE)
  {
    SplitUncut(a, [sep] + b, sep, OUTSIDE);
    assert ([sep] + b)[1..] == b;
    assert a + "" == a;
  }

  lemma SplitAtEnd(a: string, sep: char)
    requires Uncut(a, sep, OUTSIDE)
    ensures Split(a, sep, OUTSIDE) == [a]
  {
    SplitUncut(a, "", sep, OUTSIDE);
    assert a + "" == a;
  }

  /** The pass at `i`: `parts` are done, the piece under way starts at `start`. */
  ghost predicate Splitting(s: string, sep: char, parts: seq<string>, start: int, i: int, at: Scan) {
    0 <= start <= i <= |s|
    && Uncut(s[start..i], sep, OUTSIDE)
    && After(OUTSIDE, s[start..i]) == at
    && Split(s, sep, OUTSIDE) == parts + Split(s[start..], sep, OUTSIDE)
  }

  lemma CutHere(s: string, sep: char, parts: seq<string>, start: int, i: int)
    requires Splitting(s, sep, parts, start, i, OUTSIDE) && i < |s| && s[i] == sep
    ensures Splitting(s, sep, parts + [s[start..i]], i + 1, i + 1, OUTSIDE)
  {
    SplitAtCut(s[start..i], s[i + 1..], sep);
    assert s[start..] == s[start..i] + ([sep] + s[i + 1..]);
  }

  lemma CarryOn(s: string, sep: char, parts: seq<string>, start: int, i: int, at: Scan)
    requires Splitting(s, sep, parts, start, i, at) && i < |s| && !(s[i] == sep && at == OUTSIDE)
    ensures Splitting(s, sep, parts, start, i + 1, Next(at, s[i]))
  {
    UncutExtends(s[start..i], s[i], sep, OUTSIDE);
    assert s[start..i] + [s[i]] == s[start..i + 1];
  }

  /** `split_outside`: one pass that remembers where the current piece starts. */
  method SplitOutside(s: string, sep: char) returns (parts: seq<string>)
    requires IsSeparator(sep)
    ensures parts == Split(s, sep, OUTSIDE)
  {
    parts := [];
    var start, i, angle, quote := 0, 0, false, false;
    assert s[0..] == s;
    while i < |s|
      invariant Splitting(s, sep, parts, start, i, Scan(angle, quote))
    {
      var c := s[i];
      if c == sep && !angle && !quote {
        CutHere(s, sep, parts, start, i);
      } else {
        CarryOn(s, sep, parts, start, i, Scan(angle, quote));
      }
      if c == '<' && !quote {
        angle := true;
      } else if c == '>' && !quote {
        angle := false;
      } else if c == '"' && !angle {
        quote := !quote;
      } else if c == sep && !angle && !quote {
        parts := parts + [s[start..i]];
        start := i + 1;
      }
      i := i + 1;
    }
    assert s[start..i] == s[start..];
    SplitAtEnd(s[start..], sep);
    parts := parts + [s[start..]];
  }

  function Join(parts: seq<string>, sep: char): string {
    if |parts| == 0 then ""
    else if |parts| == 1 then parts[0]
    else parts[0] + [sep] + Join(parts[1..], sep)
  }

  /** Where piece `k` ends in the joined string. */
  function EndOf(parts: seq<string>, k: nat): nat
    requires k < |parts|
  {
    if k == 0 then |parts[0]| else |parts[0]| + 1 + EndOf(parts[1..], k - 1)
  }

  /** Joining the pieces gives the string back. */
  lemma {:induction false} SplitJoin(s: string, sep: char, at: Scan)
    ensures Join(Split(s, sep, at), sep) == s
    decreases |s|
  {
    if s != "" {
      if s[0] == sep && at == OUTSIDE {
        SplitJoin(s[1..], sep, at);
        assert Split(s, sep, at)[1..] == Split(s[1..], sep, at);
      } else {
        var rest := Split(s[1..], sep, Next(at, s[0]));
        SplitJoin(s[1..], sep, Next(at, s[0]));
        assert Split(s, sep, at)[1..] == rest[1..];
        if |rest| > 1 {
          assert Join(Split(s, sep, at), sep) == [s[0]] + rest[0] + [sep] + Join(rest[1..], sep);
          assert [s[0]] + (rest[0] + [sep] + Join(rest[1..], sep)) == s;
        }
      }
    }
  }

  /** Position `i` ends a piece that is not the last. */
  ghost predicate EndsPiece(parts: seq<string>, i: nat) {
    exists k :: 0 <= k < |parts| - 1 && i == EndOf(parts, k)
  }

  /** A cut in front shifts the piece ends by one piece. */
  lemma CutShifts(rest: seq<string>, i: nat)
    requires i > 0 && |rest| >= 1
    ensures EndsPiece([""] + rest, i) <==> EndsPiece(rest, i - 1)
  {
    var parts := [""] + rest;
    assert parts[1..] == rest;
    forall k | 0 <= k < |rest| ensures EndOf(parts, k + 1) == EndOf(rest, k) + 1 {}
    if EndsPiece(rest, i - 1) {
      var k :| 0 <= k < |rest| - 1 && i - 1 == EndOf(rest, k);
      assert i == EndOf(parts, k + 1);
    }
    if EndsPiece(parts, i) {
      var k :| 0 <= k < |parts| - 1 && i == EndOf(parts, k);
      assert k > 0 && i - 1 == EndOf(rest, k - 1);
    }
  }

  /** A character in front of the first piece shifts the piece ends by one. */
  lemma CharShifts(c: char, rest: seq<string>, i: nat)
    requires |rest| >= 1
    ensures EndsPiece([[c] + rest[0]] + rest[1..], i) <==> i > 0 && EndsPiece(rest, i - 1)
  {
    var parts := [[c] + rest[0]] + rest[1..];
    assert parts[1..] == rest[1..];
    forall k | 0 <= k < |rest| ensures EndOf(parts, k) == EndOf(rest, k) + 1 {}
    if i > 0 && EndsPiece(rest, i - 1) {
      var k :| 0 <= k < |rest| - 1 && i - 1 == EndOf(rest, k);
      assert i == EndOf(parts, k);
    }
    if EndsPiece(parts, i) {
      var k :| 0 <= k < |parts| - 1 && i == EndOf(parts, k);
      assert i - 1 == EndOf(rest, k);
    }
  }

  /** The cuts fall exactly at the separators outside angle brackets and quotes. */
  lemma {:induction false} CutsExact(s: string, sep: char, at: Scan, i: nat)
    requires i < |s| && IsSeparator(sep)
    ensures EndsPiece(Split(s, sep, at), i) <==> CutAt(s, sep, at, i)
    decreases |s|
  {
    hide EndsPiece, EndOf;
    var cut := s[0] == sep && at == OUTSIDE;
    var next := Next(at, s[0]);
    var rest := Split(s[1..], sep, next);
    assert cut ==> next == at;
    assert s[..0] == "";
    if i > 0 {
      assert s[..i][1..] == s[1..][..i - 1];
      CutsExact(s[1..], sep, next, i - 1);
    }
    if !cut {
      CharShifts(s[0], rest, i);
    } else if i > 0 {
      CutShifts(rest, i);
    } else {
      CutFirst(rest);
    }
  }

  lemma CutFirst(rest: seq<string>)
    requires |rest| >= 1
    ensures EndsPiece([""] + rest, 0)
  {
    assert EndOf([""] + rest, 0) == 0;
  }

  // -- Lookup ---------------------------------------------------------------

  function Trim(s: string): string {
    TrimEnd(TrimStart(s, White), White)
  }

  predicate IsQuote(c: char) {
    c == '"'
  }

  predicate IsEquals(c: char) {
    c == '='
  }

  predicate ClosesTarget(c: char) {
    c == '>'
  }

  function TrimQuotes(s: string): string {
    TrimEnd(TrimStart(s, IsQuote), IsQuote)
  }

  /** One of the words of `s`, split at ASCII whitespace, is `word` ignoring case. */
  predicate HasWord(s: string, word: string)
    decreases |s|
  {
    var from := TrimStart(s, AsciiWhite);
    var end := Find(from, AsciiWhite);
    from != "" && (SameIgnoringCase(from[..end], word) || HasWord(from[end..], word))
  }

  /** `s[i..j]` is one of the words of `s`: no white character in it, and none missing at its ends. */
  predicate IsWord(s: string, i: int, j: int) {
    0 <= i < j <= |s|
    && (forall k :: i <= k < j ==> !AsciiWhite(s[k]))
    && (i > 0 ==> AsciiWhite(s[i - 1])) && (j < |s| ==> AsciiWhite(s[j]))
  }

  ghost predicate ListsWord(s: string, word: string) {
    exists i, j :: IsWord(s, i, j) && SameIgnoringCase(s[i..j], word)
  }

  /** The words are the maximal runs of other characters than white ones. */
  lemma {:induction false} HasWordExactly(s: string, word: string)
    ensures HasWord(s, word) <==> ListsWord(s, word)
    decreases |s|
  {
    hide SameIgnoringCase, TrimStart, Find, ListsWord;
    var from := TrimStart(s, AsciiWhite);
    var end := Find(from, AsciiWhite);
    var lead := |s| - |from|;
    TrimmedLead(s);
    if from == "" {
      NoWord(s, word);
    } else {
      HasWordExactly(from[end..], word);
      forall k | lead <= k < lead + end ensures !AsciiWhite(s[k]) {
        assert s[k] == from[k - lead];
      }
      assert lead + end < |s| ==> s[lead + end] == from[end];
      assert StartsWord(s, lead, end);
      ListsStep(s, lead, end, word);
      assert s[lead..lead + end] == from[..end] && s[lead + end..] == from[end..];
    }
  }

  lemma NoWord(s: string, word: string)
    requires All(s, AsciiWhite)
    ensures !ListsWord(s, word)
  {
    hide AsciiWhite, SameIgnoringCase;
    forall i, j ensures !IsWord(s, i, j) {
      assert 0 <= i < |s| ==> AsciiWhite(s[i]);
    }
  }

  lemma ListsStep(s: string, lead: nat, end: nat, word: string)
    requires StartsWord(s, lead, end)
    ensures ListsWord(s, word) <==> SameIgnoringCase(s[lead..lead + end], word) || ListsWord(s[lead + end..], word)
  {
    hide SameIgnoringCase, ListsWord, StartsWord;
    StartIsWord(s, lead, end);
    if SameIgnoringCase(s[lead..lead + end], word) {
      ListsAt(s, lead, lead + end, word);
    }
    if ListsWord(s[lead + end..], word) {
      ListedLater(s, lead, end, word);
    }
    if ListsWord(s, word) {
      ListedWhere(s, lead, end, word);
    }
  }

  lemma ListedLater(s: string, lead: nat, end: nat, word: string)
    requires StartsWord(s, lead, end) && ListsWord(s[lead + end..], word)
    ensures ListsWord(s, word)
  {
    hide SameIgnoringCase, IsWord, ListsWord, StartsWord;
    StartIsWord(s, lead, end);
    var rest, off := s[lead + end..], lead + end;
    var i, j := WordOf(rest, word);
    SliceOf(s, off, i, j);
    RestWord(s, lead, end, i, j);
    ListsAt(s, off + i, off + j, word);
  }

  lemma ListedWhere(s: string, lead: nat, end: nat, word: string)
    requires StartsWord(s, lead, end) && ListsWord(s, word)
    ensures SameIgnoringCase(s[lead..lead + end], word) || ListsWord(s[lead + end..], word)
  {
    hide SameIgnoringCase, IsWord, ListsWord, StartsWord;
    StartIsWord(s, lead, end);
    var rest, off := s[lead + end..], lead + end;
    var i, j := WordOf(s, word);
    FirstWord(s, lead, end, i, j);
    if !(i == lead && j == off) {
      WordInside(rest, i - off, j - off);
      SliceOf(s, off, i - off, j - off);
      ListsAt(rest, i - off, j - off, word);
    }
  }

  lemma StartIsWord(s: string, lead: nat, end: nat)
    requires StartsWord(s, lead, end)
    ensures IsWord(s, lead, lead + end) && lead < lead + end <= |s|
  {
  }

  lemma SliceOf(s: string, off: nat, i: nat, j: nat)
    requires off + i <= off + j <= |s|
    ensures s[off..][i..j] == s[off + i..off + j]
  {
  }

  lemma WordOf(s: string, word: string) returns (i: nat, j: nat)
    requires ListsWord(s, word)
    ensures i < j <= |s| && IsWord(s, i, j) && SameIgnoringCase(s[i..j], word)
  {
    i, j :| IsWord(s, i, j) && SameIgnoringCase(s[i..j], word);
  }

  lemma WordInside(s: string, i: int, j: int)
    requires IsWord(s, i, j)
    ensures 0 <= i < j <= |s|
  {
  }

  lemma ListsAt(s: string, i: nat, j: nat, word: string)
    requires i < j <= |s| && IsWord(s, i, j) && SameIgnoringCase(s[i..j], word)
    ensures ListsWord(s, word)
  {
  }

  lemma {:induction false} TrimmedLead(s: string)
    ensures var from := TrimStart(s, AsciiWhite);
            var lead := |s| - |from|;
            s[lead..] == from && forall k :: 0 <= k < lead ==> AsciiWhite(s[k])
  {
    if |s| > 0 && AsciiWhite(s[0]) {
      TrimmedLead(s[1..]);
      var lead := |s| - |TrimStart(s, AsciiWhite)|;
      assert s[lead..] == s[1..][lead - 1..];
      forall k | 0 <= k < lead ensures AsciiWhite(s[k]) {
        assert k > 0 ==> s[k] == s[1..][k - 1];
      }
    }
  }

  /** White characters, then the first word, which ends the text or is followed by another white one. */
  predicate StartsWord(s: string, lead: nat, end: nat) {
    lead < |s| && 0 < end <= |s| - lead
    && (forall k :: 0 <= k < lead ==> AsciiWhite(s[k]))
    && (forall k :: lead <= k < lead + end ==> !AsciiWhite(s[k]))
    && (lead + end < |s| ==> AsciiWhite(s[lead + end]))
  }

  lemma RestWord(s: string, lead: nat, end: nat, i: int, j: int)
    requires StartsWord(s, lead, end) && IsWord(s[lead + end..], i, j)
    ensures IsWord(s, lead + end + i, lead + end + j)
  {
    hide AsciiWhite;
    assert !AsciiWhite(s[lead + end..][i]);
  }

  /** A word is the first one or comes after it. */
  lemma FirstWord(s: string, lead: nat, end: nat, i: int, j: int)
    requires StartsWord(s, lead, end) && IsWord(s, i, j)
    ensures (i == lead && j == lead + end)
            || (i >= lead + end && IsWord(s[lead + end..], i - lead - end, j - lead - end))
  {
    hide AsciiWhite;
    var off := lead + end;
    assert !AsciiWhite(s[i]) && !AsciiWhite(s[j - 1]);
    assert (i > 0 ==> AsciiWhite(s[i - 1])) && (j < |s| ==> AsciiWhite(s[j]));
    assert i >= lead && (off < |s| ==> i != off && AsciiWhite(s[off]));
  }

  /** The parameter declares relation `rel`. */
  predicate IsRel(param: string, rel: string) {
    var eq := Find(param, IsEquals);
    eq < |param|
    && SameIgnoringCase(Trim(param[..eq]), "rel")
    && HasWord(TrimQuotes(Trim(param[eq + 1..])), rel)
  }

  predicate AnyRel(params: seq<string>, rel: string) {
    exists i :: 0 <= i < |params| && IsRel(params[i], rel)
  }

  /** The target of one link value, if it parses and carries `rel`. */
  function TargetOf(link: string, rel: string): Option<string> {
    var l := Trim(link);
    if l == "" || l[0] != '<' then None
    else
      var close := Find(l[1..], ClosesTarget);
      if close == |l[1..]| then None
      else if AnyRel(Split(l[1..][close + 1..], ';', OUTSIDE), rel) then Some(l[1..][..close])
      else None
  }

  function FirstTarget(links: seq<string>, rel: string): Option<string> {
    if |links| == 0 then None
    else if TargetOf(links[0], rel).Some? then TargetOf(links[0], rel)
    else FirstTarget(links[1..], rel)
  }

  function Found(lines: seq<string>, rel: string): Option<string> {
    if |lines| == 0 then None
    else
      var here := FirstTarget(Split(lines[0], ',', OUTSIDE), rel);
      if here.Some? then here else Found(lines[1..], rel)
  }

  /** `link`: every header line, every link value in it. */
  method Lookup(lines: seq<string>, rel: string) returns (target: Option<string>)
    ensures target == Found(lines, rel)
  {
    assert lines[0..] == lines;
    for i := 0 to |lines|
      invariant Found(lines, rel) == Found(lines[i..], rel)
    {
      var links := SplitOutside(lines[i], ',');
      assert lines[i..][1..] == lines[i + 1..];
      assert links[0..] == links;
      for j := 0 to |links|
        invariant FirstTarget(links, rel) == FirstTarget(links[j..], rel)
      {
        assert links[j..][1..] == links[j + 1..];
        var here := TargetOf(links[j], rel);
        if here.Some? {
          return here;
        }
      }
    }
    target := None;
  }

  // -- The printer ----------------------------------------------------------

  /** A parameter: bare name, `name=value`, or `name="value"`, with the space around each part. */
  datatype LinkParam = LinkParam(
    lead: string, name: string, gap: string, after: string, value: Option<string>, quoted: bool, trail: string)

  datatype LinkValue = LinkValue(lead: string, target: string, gap: string, params: seq<LinkParam>)

  /** Neither a bracket, a quote, a list separator nor whitespace. */
  predicate Plain(c: char) {
    c != '<' && c != '>' && c != '"' && c != ',' && c != ';' && c != '=' && !White(c)
  }

  predicate NotQuote(c: char) {
    c != '"'
  }

  predicate NotClose(c: char) {
    c != '>'
  }

  predicate LegalLinkParam(p: LinkParam) {
    All(p.lead, AsciiWhite) && All(p.gap, AsciiWhite) && All(p.after, AsciiWhite) && All(p.trail, AsciiWhite)
    && p.name != "" && All(p.name, Plain)
    && match p.value
       case None => true
       case Some(v) => if p.quoted then All(v, NotQuote) else v != "" && All(v, Plain)
  }

  predicate LegalLink(l: LinkValue) {
    All(l.lead, AsciiWhite) && All(l.gap, AsciiWhite) && All(l.target, NotClose)
    && forall i :: 0 <= i < |l.params| ==> LegalLinkParam(l.params[i])
  }

  /** The value as written. */
  function Shown(p: LinkParam): string {
    if p.value.None? then "" else if p.quoted then ['"'] + p.value.value + ['"'] else p.value.value
  }

  function ValueText(p: LinkParam): string {
    if p.value.None? then "" else ['='] + (p.after + Shown(p))
  }

  function FrontText(p: LinkParam): string {
    p.lead + (p.name + p.gap)
  }

  function LinkParamText(p: LinkParam): string {
    FrontText(p) + (ValueText(p) + p.trail)
  }

  function LinkParamsText(params: seq<LinkParam>): string {
    if |params| == 0 then "" else [';'] + (LinkParamText(params[0]) + LinkParamsText(params[1..]))
  }

  function LinkText(l: LinkValue): string {
    l.lead + (['<'] + (l.target + (['>'] + (l.gap + LinkParamsText(l.params)))))
  }

  function ListText(links: seq<LinkValue>): string {
    if |links| == 0 then ""
    else if |links| == 1 then LinkText(links[0])
    else LinkText(links[0]) + ([','] + ListText(links[1..]))
  }

  predicate LegalLinks(links: seq<LinkValue>) {
    forall i :: 0 <= i < |links| ==> LegalLink(links[i])
  }

  /** The link declares the relation: some `rel` parameter lists it. */
  predicate Declares(l: LinkValue, rel: string) {
    exists i :: 0 <= i < |l.params| && DeclaresRel(l.params[i], rel)
  }

  predicate DeclaresRel(p: LinkParam, rel: string) {
    SameIgnoringCase(p.name, "rel") && p.value.Some? && HasWord(p.value.value, rel)
  }

  function FirstDeclaring(links: seq<LinkValue>, rel: string): Option<string> {
    if |links| == 0 then None
    else if Declares(links[0], rel) then Some(links[0].target)
    else FirstDeclaring(links[1..], rel)
  }

  // -- Looking up what was printed ------------------------------------------

  /** Scanning `s` from outside meets no cut and ends outside. */
  ghost predicate Sealed(s: string, sep: char) {
    Uncut(s, sep, OUTSIDE) && After(OUTSIDE, s) == OUTSIDE
  }

  lemma UncutAppend(a: string, b: string, sep: char, at: Scan)
    requires Uncut(a, sep, at) && Uncut(b, sep, After(at, a))
    ensures Uncut(a + b, sep, at) && After(at, a + b) == After(After(at, a), b)
  {
    AfterAppend(at, a, b);
    forall i | 0 <= i < |a + b| ensures !CutAt(a + b, sep, at, i) {
      if i < |a| {
        assert (a + b)[..i] == a[..i];
        assert !CutAt(a, sep, at, i);
      } else {
        assert (a + b)[..i] == a + b[..i - |a|];
        AfterAppend(at, a, b[..i - |a|]);
        assert !CutAt(b, sep, After(at, a), i - |a|);
      }
    }
  }

  /** Text the scanner passes without changing state, starting from `at`. */
  lemma {:induction false} Steady(s: string, sep: char, at: Scan)
    requires forall i :: 0 <= i < |s| ==> Next(at, s[i]) == at && (s[i] == sep ==> at != OUTSIDE)
    ensures Uncut(s, sep, at) && After(at, s) == at
  {
    forall n | 0 <= n <= |s| ensures After(at, s[..n]) == at {
      SteadyAfter(s[..n], at);
    }
    assert s[..|s|] == s;
  }

  lemma {:induction false} SteadyAfter(s: string, at: Scan)
    requires forall i :: 0 <= i < |s| ==> Next(at, s[i]) == at
    ensures After(at, s) == at
    decreases |s|
  {
    if s != "" {
      SteadyAfter(s[1..], at);
    }
  }

  lemma PlainSealed(s: string, sep: char)
    requires IsSeparator(sep) && forall i :: 0 <= i < |s| ==> Plain(s[i]) || AsciiWhite(s[i]) || s[i] == '='
    ensures Sealed(s, sep)
  {
    Steady(s, sep, OUTSIDE);
  }

  lemma OneChar(c: char, sep: char, at: Scan)
    requires !(c == sep && at == OUTSIDE)
    ensures Uncut([c], sep, at) && After(at, [c]) == Next(at, c)
  {
    assert [c][1..] == "";
  }

  lemma QuotedSealed(v: string, sep: char)
    requires All(v, NotQuote) && IsSeparator(sep)
    ensures Sealed(['"'] + v + ['"'], sep)
  {
    var inside := Scan(false, true);
    OneChar('"', sep, OUTSIDE);
    Steady(v, sep, inside);
    OneChar('"', sep, inside);
    UncutAppend(['"'], v, sep, OUTSIDE);
    UncutAppend(['"'] + v, ['"'], sep, OUTSIDE);
  }

  lemma ValueSealed(p: LinkParam, sep: char)
    requires LegalLinkParam(p) && IsSeparator(sep)
    ensures Sealed(ValueText(p), sep)
  {
    if p.value.Some? {
      PlainSealed(p.after, sep);
      PlainSealed(['='], sep);
      if p.quoted {
        QuotedSealed(p.value.value, sep);
      } else {
        PlainSealed(p.value.value, sep);
      }
      UncutAppend(p.after, Shown(p), sep, OUTSIDE);
      UncutAppend(['='], p.after + Shown(p), sep, OUTSIDE);
    }
  }

  lemma ParamSealed(p: LinkParam, sep: char)
    requires LegalLinkParam(p) && IsSeparator(sep)
    ensures Sealed(LinkParamText(p), sep)
  {
    PlainSealed(FrontText(p), sep);
    ValueSealed(p, sep);
    PlainSealed(p.trail, sep);
    UncutAppend(ValueText(p), p.trail, sep, OUTSIDE);
    UncutAppend(FrontText(p), ValueText(p) + p.trail, sep, OUTSIDE);
  }

  /** In a list, parameters do not split the link; within a link, they split at each `;`. */
  lemma {:induction false} ParamsSealed(params: seq<LinkParam>)
    requires forall i :: 0 <= i < |params| ==> LegalLinkParam(params[i])
    ensures Sealed(LinkParamsText(params), ',')
  {
    if |params| > 0 {
      OneChar(';', ',', OUTSIDE);
      ParamSealed(params[0], ',');
      ParamsSealed(params[1..]);
      UncutAppend(LinkParamText(params[0]), LinkParamsText(params[1..]), ',', OUTSIDE);
      UncutAppend([';'], LinkParamText(params[0]) + LinkParamsText(params[1..]), ',', OUTSIDE);
    }
  }

  lemma LinkSealed(l: LinkValue)
    requires LegalLink(l)
    ensures Sealed(LinkText(l), ',')
  {
    var inside := Scan(true, false);
    PlainSealed(l.lead, ',');
    OneChar('<', ',', OUTSIDE);
    Steady(l.target, ',', inside);
    OneChar('>', ',', inside);
    PlainSealed(l.gap, ',');
    ParamsSealed(l.params);
    UncutAppend(l.gap, LinkParamsText(l.params), ',', OUTSIDE);
    UncutAppend(['>'], l.gap + LinkParamsText(l.params), ',', inside);
    UncutAppend(l.target, ['>'] + (l.gap + LinkParamsText(l.params)), ',', inside);
    UncutAppend(['<'], l.target + (['>'] + (l.gap + LinkParamsText(l.params))), ',', OUTSIDE);
    UncutAppend(l.lead, ['<'] + (l.target + (['>'] + (l.gap + LinkParamsText(l.params)))), ',', OUTSIDE);
  }

  function LinkTexts(links: seq<LinkValue>): seq<string> {
    if |links| == 0 then [] else [LinkText(links[0])] + LinkTexts(links[1..])
  }

  lemma {:induction false} ListSplits(links: seq<LinkValue>)
    requires LegalLinks(links) && |links| > 0
    ensures Split(ListText(links), ',', OUTSIDE) == LinkTexts(links)
  {
    LinkSealed(links[0]);
    if |links| == 1 {
      SplitAtEnd(LinkText(links[0]), ',');
    } else {
      SplitAtCut(LinkText(links[0]), ListText(links[1..]), ',');
      ListSplits(links[1..]);
    }
  }

  function ParamTexts(params: seq<LinkParam>): seq<string> {
    if |params| == 0 then [] else [LinkParamText(params[0])] + ParamTexts(params[1..])
  }

  /** What follows the target: the gap, then one piece per parameter. */
  lemma {:induction false} ParamsSplit(front: string, params: seq<LinkParam>)
    requires Sealed(front, ';')
    requires forall i :: 0 <= i < |params| ==> LegalLinkParam(params[i])
    ensures Split(front + LinkParamsText(params), ';', OUTSIDE) == [front] + ParamTexts(params)
    decreases |params|
  {
    if |params| == 0 {
      assert front + "" == front;
      SplitAtEnd(front, ';');
    } else {
      ParamSealed(params[0], ';');
      var rest := LinkParamText(params[0]) + LinkParamsText(params[1..]);
      SplitAtCut(front, rest, ';');
      ParamsSplit(LinkParamText(params[0]), params[1..]);
    }
  }

  lemma TrimMiddle(lead: string, middle: string, trail: string)
    requires All(lead, AsciiWhite) && All(trail, AsciiWhite)
    requires middle != "" ==> !White(middle[0]) && !White(middle[|middle| - 1])
    ensures Trim(lead + (middle + trail)) == middle
  {
    SpacesAreWhite(lead);
    SpacesAreWhite(trail);
    if middle == "" {
      var all := lead + trail;
      assert lead + (middle + trail) == all + "";
      forall i | 0 <= i < |all| ensures White(all[i]) {}
      TrimStartAt(all, "", White);
    } else {
      assert (middle + trail)[0] == middle[0];
      TrimStartAt(lead, middle + trail, White);
      TrimEndAt(middle, trail, White);
    }
  }

  lemma TrimQuotesPrinted(v: string, quoted: bool)
    requires All(v, NotQuote)
    ensures TrimQuotes(if quoted then "\"" + v + "\"" else v) == v
  {
    var q := if quoted then "\"" else "";
    assert v != "" ==> NotQuote(v[0]) && NotQuote(v[|v| - 1]);
    if v == "" && quoted {
      assert "\"" + v + "\"" == "\"\"" + "";
      TrimStartAt("\"\"", "", IsQuote);
    } else {
      TrimStartAt(q, v + q, IsQuote);
      assert q + (v + q) == if quoted then "\"" + v + "\"" else v;
      TrimEndAt(v, q, IsQuote);
    }
  }

  lemma Assoc(a: string, b: string, c: string)
    ensures a + (b + c) == (a + b) + c
  {
  }

  lemma NoEquals(s: string, rel: string)
    requires forall i :: 0 <= i < |s| ==> s[i] != '='
    ensures !IsRel(s, rel)
    ensures forall after: string :: IsRel(s + (['='] + after), rel) <==>
              SameIgnoringCase(Trim(s), "rel") && HasWord(TrimQuotes(Trim(after)), rel)
  {
    FindAt(s, "", IsEquals);
    assert s + "" == s;
    forall after: string
      ensures IsRel(s + (['='] + after), rel) <==>
                SameIgnoringCase(Trim(s), "rel") && HasWord(TrimQuotes(Trim(after)), rel)
    {
      var text := s + (['='] + after);
      FindAt(s, ['='] + after, IsEquals);
      assert text[..|s|] == s && text[|s| + 1..] == after;
    }
  }

  lemma FrontHasNoEquals(p: LinkParam)
    requires LegalLinkParam(p)
    ensures var front := FrontText(p);
            Trim(front) == p.name && forall i :: 0 <= i < |front| ==> front[i] != '='
  {
    var front := FrontText(p);
    assert Plain(p.name[0]) && Plain(p.name[|p.name| - 1]);
    TrimMiddle(p.lead, p.name, p.gap);
    forall i | 0 <= i < |front| ensures front[i] != '=' {
      if i < |p.lead| { assert AsciiWhite(p.lead[i]); }
      else if i < |p.lead| + |p.name| { assert Plain(p.name[i - |p.lead|]); }
      else { assert AsciiWhite(p.gap[i - |p.lead| - |p.name|]); }
    }
  }

  lemma ShownTrims(p: LinkParam)
    requires LegalLinkParam(p) && p.value.Some?
    ensures TrimQuotes(Trim(p.after + (Shown(p) + p.trail))) == p.value.value
  {
    var v := p.value.value;
    if !p.quoted {
      assert Plain(v[0]) && Plain(v[|v| - 1]);
      forall i | 0 <= i < |v| ensures NotQuote(v[i]) { assert Plain(v[i]); }
    }
    TrimMiddle(p.after, Shown(p), p.trail);
    TrimQuotesPrinted(v, p.quoted);
  }

  lemma ParamPrinted(p: LinkParam, rel: string)
    requires LegalLinkParam(p)
    ensures IsRel(LinkParamText(p), rel) <==> DeclaresRel(p, rel)
  {
    hide IsRel, Trim, TrimQuotes, HasWord, SameIgnoringCase;
    var front := FrontText(p);
    FrontHasNoEquals(p);
    if p.value.None? {
      assert "" + p.trail == p.trail;
      forall i | 0 <= i < |p.trail| ensures p.trail[i] != '=' { assert AsciiWhite(p.trail[i]); }
      NoEquals(front + p.trail, rel);
    } else {
      NoEquals(front, rel);
      ShownTrims(p);
      Assoc(p.after, Shown(p), p.trail);
      Assoc(['='], p.after + Shown(p), p.trail);
    }
  }

  lemma {:induction false} ParamsPrinted(params: seq<LinkParam>, rel: string)
    requires forall i :: 0 <= i < |params| ==> LegalLinkParam(params[i])
    ensures |ParamTexts(params)| == |params|
    ensures forall i :: 0 <= i < |params| ==> (IsRel(ParamTexts(params)[i], rel) <==> DeclaresRel(params[i], rel))
  {
    hide IsRel, DeclaresRel, LinkParamText, LegalLinkParam;
    if |params| > 0 {
      ParamPrinted(params[0], rel);
      ParamsPrinted(params[1..], rel);
    }
  }

  /** The parameter without the whitespace that trimming takes from its end. */
  function Tidy(p: LinkParam): LinkParam {
    if p.value.None? then p.(gap := "", trail := "") else p.(trail := "")
  }

  function TidyLast(params: seq<LinkParam>): seq<LinkParam> {
    if |params| == 0 then [] else params[..|params| - 1] + [Tidy(params[|params| - 1])]
  }

  predicate SolidEnd(s: string) {
    s != "" && !White(s[|s| - 1])
  }

  lemma SolidAppend(a: string, b: string)
    requires SolidEnd(b)
    ensures SolidEnd(a + b)
  {
  }

  lemma ValueIsSolid(p: LinkParam)
    requires LegalLinkParam(p) && p.value.Some?
    ensures SolidEnd(ValueText(p))
  {
    if !p.quoted {
      assert Plain(p.value.value[|p.value.value| - 1]);
    }
    SolidAppend(p.after, Shown(p));
  }

  lemma TidyParam(p: LinkParam) returns (space: string)
    requires LegalLinkParam(p)
    ensures LegalLinkParam(Tidy(p)) && All(space, AsciiWhite)
    ensures LinkParamText(p) == LinkParamText(Tidy(p)) + space
    ensures SolidEnd(LinkParamText(Tidy(p)))
  {
    hide White, AsciiWhite, All, LegalLinkParam, LinkParamText, Tidy, SolidEnd;
    if p.value.None? {
      space := TidyBare(p);
    } else {
      space := TidyValued(p);
    }
  }

  lemma NameIsSolid(p: LinkParam)
    requires LegalLinkParam(p)
    ensures SolidEnd(p.name)
  {
    assert Plain(p.name[|p.name| - 1]);
  }

  lemma TidyBare(p: LinkParam) returns (space: string)
    requires LegalLinkParam(p) && p.value.None?
    ensures LegalLinkParam(Tidy(p)) && All(space, AsciiWhite)
    ensures LinkParamText(p) == LinkParamText(Tidy(p)) + space
    ensures SolidEnd(LinkParamText(Tidy(p)))
  {
    hide White, AsciiWhite, Plain, SolidEnd;
    space := p.gap + p.trail;
    NameIsSolid(p);
    SolidAppend(p.lead, p.name);
    assert LinkParamText(Tidy(p)) == p.lead + p.name;
    assert LinkParamText(p) == (p.lead + p.name) + space;
  }

  lemma TidyValued(p: LinkParam) returns (space: string)
    requires LegalLinkParam(p) && p.value.Some?
    ensures LegalLinkParam(Tidy(p)) && All(space, AsciiWhite)
    ensures LinkParamText(p) == LinkParamText(Tidy(p)) + space
    ensures SolidEnd(LinkParamText(Tidy(p)))
  {
    hide White, SolidEnd;
    space := p.trail;
    ValueIsSolid(p);
    SolidAppend(FrontText(p), ValueText(p));
    assert ValueText(p) + "" == ValueText(p);
    Assoc(FrontText(p), ValueText(p), space);
  }

  lemma {:induction false} TidyParams(params: seq<LinkParam>) returns (space: string)
    requires |params| > 0 && forall i :: 0 <= i < |params| ==> LegalLinkParam(params[i])
    ensures All(space, AsciiWhite)
    ensures LinkParamsText(params) == LinkParamsText(TidyLast(params)) + space
    ensures SolidEnd(LinkParamsText(TidyLast(params)))
    ensures forall i :: 0 <= i < |params| ==> LegalLinkParam(TidyLast(params)[i])
    decreases |params|
  {
    hide White, AsciiWhite, LinkParamText, LegalLinkParam, Tidy;
    if |params| == 1 {
      space := TidyParam(params[0]);
      var text := LinkParamText(Tidy(params[0]));
      SolidAppend([';'], text);
      assert text + "" == text && LinkParamText(params[0]) + "" == LinkParamText(params[0]);
      Assoc([';'], text, space);
    } else {
      space := TidyParams(params[1..]);
      assert TidyLast(params)[1..] == TidyLast(params[1..]);
      assert TidyLast(params)[0] == params[0];
      var head, rest := LinkParamText(params[0]), LinkParamsText(TidyLast(params[1..]));
      SolidAppend(head, rest);
      SolidAppend([';'], head + rest);
      Assoc(head, rest, space);
      Assoc([';'], head + rest, space);
    }
  }

  /** Trimming a printed link removes outer whitespace only. */
  lemma LinkTrimmed(l: LinkValue)
    requires LegalLink(l)
    ensures Trim(LinkText(l)) == TrimmedText(l)
  {
    var body := ['<'] + (l.target + (['>'] + (l.gap + LinkParamsText(l.params))));
    SpacesAreWhite(l.lead);
    TrimStartAt(l.lead, body, White);
    var tail := TrimmedGap(l) + LinkParamsText(TidyLast(l.params));
    var space := l.gap;
    if |l.params| > 0 {
      space := TidyParams(l.params);
      SolidAppend(l.gap, LinkParamsText(TidyLast(l.params)));
      SolidAppend(['>'], tail);
      Assoc(l.gap, LinkParamsText(TidyLast(l.params)), space);
    } else {
      assert tail == "" && l.gap + "" == l.gap && "" + l.gap == l.gap;
    }
    assert SolidEnd(['>'] + tail);
    SolidAppend(l.target, ['>'] + tail);
    SolidAppend(['<'], l.target + (['>'] + tail));
    Assoc(['>'], tail, space);
    Assoc(l.target, ['>'] + tail, space);
    Assoc(['<'], l.target + (['>'] + tail), space);
    SpacesAreWhite(space);
    TrimEndAt(TrimmedText(l), space, White);
  }

  /** A printed link without its outer whitespace. */
  function TrimmedText(l: LinkValue): string {
    ['<'] + (l.target + (['>'] + (TrimmedGap(l) + LinkParamsText(TidyLast(l.params)))))
  }

  function TrimmedGap(l: LinkValue): string {
    if |l.params| == 0 then "" else l.gap
  }

  lemma SpacesAreWhite(s: string)
    requires All(s, AsciiWhite)
    ensures All(s, White)
  {
    forall i | 0 <= i < |s| ensures White(s[i]) { assert AsciiWhite(s[i]); }
  }

  lemma TidyKeepsRel(l: LinkValue, rel: string)
    ensures (exists i :: 0 <= i < |TidyLast(l.params)| && DeclaresRel(TidyLast(l.params)[i], rel)) <==> Declares(l, rel)
  {
    forall i | 0 <= i < |l.params| ensures DeclaresRel(TidyLast(l.params)[i], rel) <==> DeclaresRel(l.params[i], rel) {}
  }

  lemma TargetFound(target: string, tail: string, rel: string, link: string)
    requires All(target, NotClose) && Trim(link) == ['<'] + (target + (['>'] + tail))
    ensures TargetOf(link, rel) == if AnyRel(Split(tail, ';', OUTSIDE), rel) then Some(target) else None
  {
    var cut := Trim(link);
    forall i | 0 <= i < |target| ensures !ClosesTarget(target[i]) { assert NotClose(target[i]); }
    FindAt(target, ['>'] + tail, ClosesTarget);
    assert cut[1..] == target + (['>'] + tail);
    assert cut[1..][..|target|] == target;
    assert cut[1..][|target| + 1..] == tail;
  }

  lemma ParamsJudged(gap: string, params: seq<LinkParam>, rel: string)
    requires All(gap, AsciiWhite)
    requires forall i :: 0 <= i < |params| ==> LegalLinkParam(params[i])
    ensures AnyRel(Split(gap + LinkParamsText(params), ';', OUTSIDE), rel) <==>
            exists i :: 0 <= i < |params| && DeclaresRel(params[i], rel)
  {
    PlainSealed(gap, ';') by {
      forall i | 0 <= i < |gap| ensures AsciiWhite(gap[i]) {}
    }
    ParamsSplit(gap, params);
    ParamsPrinted(params, rel);
    NoRelInSpace(gap, rel);
    AnyRelCons(gap, ParamTexts(params), rel);
  }

  lemma LinkPrinted(l: LinkValue, rel: string)
    requires LegalLink(l)
    ensures TargetOf(LinkText(l), rel) == if Declares(l, rel) then Some(l.target) else None
  {
    LinkTrimmed(l);
    if |l.params| > 0 {
      var space := TidyParams(l.params);
    }
    TargetFound(l.target, TrimmedGap(l) + LinkParamsText(TidyLast(l.params)), rel, LinkText(l));
    ParamsJudged(TrimmedGap(l), TidyLast(l.params), rel);
    TidyKeepsRel(l, rel);
  }

  lemma NoRelInSpace(gap: string, rel: string)
    requires All(gap, AsciiWhite)
    ensures !IsRel(gap, rel)
  {
    forall i | 0 <= i < |gap| ensures gap[i] != '=' { assert AsciiWhite(gap[i]); }
    NoEquals(gap, rel);
  }

  lemma AnyRelCons(first: string, rest: seq<string>, rel: string)
    requires !IsRel(first, rel)
    ensures AnyRel([first] + rest, rel) <==> AnyRel(rest, rel)
  {
    var all := [first] + rest;
    forall i | 0 <= i < |rest| ensures all[i + 1] == rest[i] {}
    if AnyRel(all, rel) {
      var i :| 0 <= i < |all| && IsRel(all[i], rel);
      assert rest[i - 1] == all[i];
    }
    if AnyRel(rest, rel) {
      var i :| 0 <= i < |rest| && IsRel(rest[i], rel);
      assert IsRel(all[i + 1], rel);
    }
  }

  lemma {:induction false} ListPrinted(links: seq<LinkValue>, rel: string)
    requires LegalLinks(links)
    ensures FirstTarget(LinkTexts(links), rel) == FirstDeclaring(links, rel)
  {
    if |links| > 0 {
      LinkPrinted(links[0], rel);
      ListPrinted(links[1..], rel);
    }
  }

  function ListTexts(lines: seq<seq<LinkValue>>): seq<string> {
    if |lines| == 0 then [] else [ListText(lines[0])] + ListTexts(lines[1..])
  }

  lemma {:induction false} FirstDeclaringAppend(a: seq<LinkValue>, b: seq<LinkValue>, rel: string)
    ensures FirstDeclaring(a + b, rel) ==
            if FirstDeclaring(a, rel).Some? then FirstDeclaring(a, rel) else FirstDeclaring(b, rel)
  {
    if |a| == 0 {
      assert a + b == b;
    } else {
      assert (a + b)[1..] == a[1..] + b;
      FirstDeclaringAppend(a[1..], b, rel);
    }
  }

  /** On any printed header lines, lookup returns the first target that declares the relation. */
  lemma {:induction false} LookupPrinted(lines: seq<seq<LinkValue>>, rel: string)
    requires forall i :: 0 <= i < |lines| ==> |lines[i]| > 0 && LegalLinks(lines[i])
    ensures Found(ListTexts(lines), rel) == FirstDeclaring(Flatten(lines), rel)
  {
    if |lines| > 0 {
      ListSplits(lines[0]);
      ListPrinted(lines[0], rel);
      LookupPrinted(lines[1..], rel);
      FirstDeclaringAppend(lines[0], Flatten(lines[1..]), rel);
    }
  }
}
