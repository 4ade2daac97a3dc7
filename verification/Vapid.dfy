/**
 The `Authorization: vapid` header: the parser of section 3 of RFC 8292 over the
 `auth-param` grammar of section 2.1 of RFC 7235, proved against a printer.
 Base64url decoding is a parameter.
 */
module Vapid {
  import opened Prelude
  import opened Text

  datatype Error = NotVapid | MissingParam | InvalidKey | Malformed

  datatype Credentials = Credentials(t: string, k: Bytes)

  // -- The parser -----------------------------------------------------------

  predicate Separator(c: char) {
    c == ',' || AsciiWhite(c)
  }

  predicate EndsName(c: char) {
    c == '=' || Separator(c)
  }

  /** The rest of a quoted-string whose opening quote is consumed, and what follows it. */
  function Unquoted(s: string): (r: Result<(string, string), Error>)
    ensures r.Ok? ==> |r.value.1| <= |s|
  {
    if s == "" then Err(Malformed)
    else if s[0] == '"' then Ok(("", s[1..]))
    else if s[0] == '\\' && |s| < 2 then Err(Malformed)
    else
      var skip := if s[0] == '\\' then 1 else 0;
      match Unquoted(s[skip + 1..])
      case Err(e) => Err(e)
      case Ok((value, tail)) => Ok(([s[skip]] + value, tail))
  }

  /** Read one parameter value off `s`; what is left of `s` comes with it. */
  function ParamValue(s: string): (r: Result<(string, string), Error>)
    ensures r.Ok? ==> |r.value.1| <= |s|
  {
    if s != "" && s[0] == '"' then Unquoted(s[1..])
    else
      var end := Find(s, Separator);
      Ok((s[..end], s[end..]))
  }

  /** The last values seen under the names `t` and `k`. */
  datatype Found = Found(t: Option<string>, k: Option<string>)

  function Noted(found: Found, name: string, value: string): Found {
    if SameIgnoringCase(name, "t") then found.(t := Some(value))
    else if SameIgnoringCase(name, "k") then found.(k := Some(value))
    else found
  }

  /** The next parameter of the list, if any: its name, its value, and what follows. */
  function NextParam(rest: string): (r: Result<Option<(string, string, string)>, Error>)
    ensures r.Ok? && r.value.Some? ==> |r.value.value.2| < |rest|
  {
    var list := TrimStart(rest, Separator);
    if list == "" then Ok(None)
    else
      var end := Find(list, EndsName);
      var after := TrimStart(list[end..], White);
      if after == "" || after[0] != '=' then Err(Malformed)
      else
        match ParamValue(TrimStart(after[1..], White))
        case Err(e) => Err(e)
        case Ok((value, tail)) => Ok(Some((list[..end], value, tail)))
  }

  function Params(rest: string, found: Found): Result<Found, Error>
    decreases |rest|
  {
    match NextParam(rest)
    case Err(e) => Err(e)
    case Ok(None) => Ok(found)
    case Ok(Some((name, value, tail))) => Params(tail, Noted(found, name, value))
  }

  predicate Padding(c: char) {
    c == '='
  }

  /** What the two values collected amount to. */
  function Outcome(decode: string -> Option<Bytes>, found: Found): Result<Credentials, Error> {
    if found.t.None? || found.k.None? then Err(MissingParam)
    else
      match decode(TrimEnd(found.k.value, Padding))
      case None => Err(InvalidKey)
      case Some(key) => if |key| == 65 then Ok(Credentials(found.t.value, key)) else Err(InvalidKey)
  }

  function Parsed(decode: string -> Option<Bytes>, value: string): Result<Credentials, Error> {
    var line := TrimEnd(TrimStart(value, White), White);
    var end := Find(line, AsciiWhite);
    if !SameIgnoringCase(line[..end], "vapid") then Err(NotVapid)
    else
      match Params(if end < |line| then line[end + 1..] else "", Found(None, None))
      case Err(e) => Err(e)
      case Ok(found) => Outcome(decode, found)
  }

  /** `param_value`: the quoted form is unescaped character by character. */
  method ReadParamValue(s: string) returns (r: Result<(string, string), Error>)
    ensures r == ParamValue(s)
  {
    if s == "" || s[0] != '"' {
      var end := Find(s, Separator);
      return Ok((s[..end], s[end..]));
    }
    var quoted := s[1..];
    var out := "";
    var i := 0;
    assert quoted[0..] == quoted;
    assert forall value: string :: out + value == value;
    while i < |quoted|
      invariant 0 <= i <= |quoted|
      invariant Unquoted(quoted) ==
                match Unquoted(quoted[i..])
                case Err(e) => Err(e)
                case Ok((value, tail)) => Ok((out + value, tail))
    {
      ghost var rest, before := quoted[i..], out;
      var c := quoted[i];
      i := i + 1;
      assert quoted[i..] == rest[1..];
      if c == '"' {
        assert out + "" == out;
        return Ok((out, quoted[i..]));
      }
      if c == '\\' {
        if i == |quoted| {
          return Err(Malformed);
        }
        c := quoted[i];
        i := i + 1;
        assert quoted[i..] == rest[2..];
      }
      out := out + [c];
      assert forall value: string :: before + ([c] + value) == out + value;
    }
    r := Err(Malformed);
  }

  /** The head of the loop body: separators, a name, `=`, and a value. */
  method ReadParam(rest: string) returns (r: Result<Option<(string, string, string)>, Error>)
    ensures r == NextParam(rest)
  {
    var list := TrimStart(rest, Separator);
    if list == "" {
      return Ok(None);
    }
    var end := Find(list, EndsName);
    var after := TrimStart(list[end..], White);
    if after == "" || after[0] != '=' {
      return Err(Malformed);
    }
    var parsed := ReadParamValue(TrimStart(after[1..], White));
    if parsed.Err? {
      return Err(parsed.error);
    }
    r := Ok(Some((list[..end], parsed.value.0, parsed.value.1)));
  }

  /** The loop of `parse_authorization`. Each pass consumes an `=`, so it ends on every input. */
  method ReadParams(line: string) returns (r: Result<Found, Error>)
    ensures r == Params(line, Found(None, None))
  {
    hide NextParam, SameIgnoringCase;
    var rest := line;
    var t: Option<string>, k: Option<string> := None, None;
    while true
      invariant Params(line, Found(None, None)) == Params(rest, Found(t, k))
      decreases |rest|
    {
      var next := ReadParam(rest);
      if next.Err? {
        return Err(next.error);
      }
      if next.value.None? {
        return Ok(Found(t, k));
      }
      var (name, param, tail) := next.value.value;
      rest := tail;
      if SameIgnoringCase(name, "t") {
        t := Some(param);
      } else if SameIgnoringCase(name, "k") {
        k := Some(param);
      }
    }
  }

  /** `parse_authorization`: the scheme, the parameters, then the two values. */
  method ParseAuthorization(decode: string -> Option<Bytes>, value: string) returns (r: Result<Credentials, Error>)
    ensures r == Parsed(decode, value)
  {
    hide Params, TrimStart, TrimEnd, Find, SameIgnoringCase;
    var line := TrimEnd(TrimStart(value, White), White);
    var space := Find(line, AsciiWhite);
    var scheme, rest := line[..space], if space < |line| then line[space + 1..] else "";
    if !SameIgnoringCase(scheme, "vapid") {
      return Err(NotVapid);
    }
    var found := ReadParams(rest);
    if found.Err? {
      return Err(found.error);
    }
    var Found(t, k) := found.value;
    if t.None? || k.None? {
      return Err(MissingParam);
    }
    var key := decode(TrimEnd(k.value, Padding));
    if key.None? || |key.value| != 65 {
      return Err(InvalidKey);
    }
    r := Ok(Credentials(t.value, key.value));
  }

  // -- The printer ----------------------------------------------------------

  /** How a value is written: bare, or quoted with a backslash before the chosen characters. */
  datatype Form = Token | Quoted(escaped: seq<bool>)

  /** One parameter with everything its writer may choose. */
  datatype Param = Param(
    separator: string, name: string, before: string, after: string, value: string, form: Form)

  /** A header line with everything its writer may choose. */
  datatype Line = Line(
    lead: string, scheme: string, gap: char, params: seq<Param>, end: string, trail: string)

  function Escaped(value: string, escaped: seq<bool>): string
    requires |escaped| == |value|
  {
    if value == "" then ""
    else (if escaped[0] then ['\\', value[0]] else [value[0]]) + Escaped(value[1..], escaped[1..])
  }

  predicate LegalParam(p: Param) {
    All(p.separator, Separator)
    && p.name != "" && (forall i :: 0 <= i < |p.name| ==> !EndsName(p.name[i]))
    && All(p.before, AsciiWhite) && All(p.after, AsciiWhite)
    && match p.form
       case Token =>
         p.value != "" && p.value[0] != '"'
         && forall i :: 0 <= i < |p.value| ==> !Separator(p.value[i]) && !White(p.value[i])
       case Quoted(escaped) =>
         |escaped| == |p.value|
         && forall i :: 0 <= i < |p.value| ==> escaped[i] || (p.value[i] != '"' && p.value[i] != '\\')
  }

  function ValueText(p: Param): string
    requires LegalParam(p)
  {
    match p.form
    case Token => p.value
    case Quoted(escaped) => ['"'] + Escaped(p.value, escaped) + ['"']
  }

  function ParamText(p: Param): string
    requires LegalParam(p)
  {
    p.separator + (p.name + (p.before + (['='] + (p.after + ValueText(p)))))
  }

  /** Parameters are legal one by one, and a bare value is followed by a separator. */
  predicate LegalParams(params: seq<Param>) {
    |params| > 0 ==>
      LegalParam(params[0])
      && LegalParams(params[1..])
      && (|params| > 1 && params[0].form.Token? ==> params[1].separator != "")
  }

  function ParamsText(params: seq<Param>, end: string): string
    requires LegalParams(params)
  {
    if |params| == 0 then end else ParamText(params[0]) + ParamsText(params[1..], end)
  }

  predicate LegalLine(l: Line) {
    All(l.lead, White) && All(l.trail, White)
    && SameIgnoringCase(l.scheme, "vapid")
    && AsciiWhite(l.gap)
    && |l.params| > 0 && LegalParams(l.params)
    && All(l.end, Separator)
  }

  function LineText(l: Line): string
    requires LegalLine(l)
  {
    l.lead + ((l.scheme + ([l.gap] + ParamsText(l.params, l.end))) + l.trail)
  }

  /** The value of the last parameter with this name, whatever its letter case. */
  function LastNamed(params: seq<Param>, name: string): Option<string> {
    if |params| == 0 then None
    else if SameIgnoringCase(params[|params| - 1].name, name) then Some(params[|params| - 1].value)
    else LastNamed(params[..|params| - 1], name)
  }

  // -- Parsing what was printed ---------------------------------------------

  lemma {:induction false} UnquoteEscaped(value: string, escaped: seq<bool>, rest: string)
    requires |escaped| == |value|
    requires forall i :: 0 <= i < |value| ==> escaped[i] || (value[i] != '"' && value[i] != '\\')
    ensures Unquoted(Escaped(value, escaped) + (['"'] + rest)) == Ok((value, rest))
  {
    var text := Escaped(value, escaped) + (['"'] + rest);
    if value == "" {
      assert text == ['"'] + rest;
    } else {
      UnquoteEscaped(value[1..], escaped[1..], rest);
      var skip := if escaped[0] then 1 else 0;
      assert text[skip + 1..] == Escaped(value[1..], escaped[1..]) + (['"'] + rest);
      assert text[skip] == value[0];
      assert [value[0]] + value[1..] == value;
    }
  }

  lemma ParamValuePrinted(p: Param, rest: string)
    requires LegalParam(p)
    requires p.form.Token? && rest != "" ==> Separator(rest[0])
    ensures ParamValue(ValueText(p) + rest) == Ok((p.value, rest))
  {
    match p.form {
      case Token =>
        FindAt(p.value, rest, Separator);
        assert (p.value + rest)[..|p.value|] == p.value;
        assert (p.value + rest)[|p.value|..] == rest;
      case Quoted(escaped) =>
        UnquoteEscaped(p.value, escaped, rest);
        assert (ValueText(p) + rest)[1..] == Escaped(p.value, escaped) + (['"'] + rest);
    }
  }

  lemma AllAsciiIsWhite(s: string)
    requires All(s, AsciiWhite)
    ensures All(s, White)
  {
    forall i | 0 <= i < |s| ensures White(s[i]) {
      assert AsciiWhite(s[i]);
    }
  }

  lemma ValueStartsSolid(p: Param)
    requires LegalParam(p)
    ensures ValueText(p) != "" && !White(ValueText(p)[0])
  {
  }

  lemma OneParam(p: Param, rest: string, found: Found)
    requires LegalParam(p)
    requires p.form.Token? && rest != "" ==> Separator(rest[0])
    ensures Params(ParamText(p) + rest, found) == Params(rest, Noted(found, p.name, p.value))
  {
    hide ParamValue, ValueText, TrimStart, TrimEnd, Find, Noted;
    var value := ValueText(p) + rest;
    var fromAfter := p.after + value;
    var fromEq := ['='] + fromAfter;
    var fromBefore := p.before + fromEq;
    var list := p.name + fromBefore;
    assert ParamText(p) + rest == p.separator + list;
    TrimStartAt(p.separator, list, Separator);
    AllAsciiIsWhite(p.before);
    AllAsciiIsWhite(p.after);
    FindAt(p.name, fromBefore, EndsName) by {
      if p.before != "" {
        assert AsciiWhite(p.before[0]);
        assert fromBefore[0] == p.before[0];
      }
    }
    assert list[..|p.name|] == p.name && list[|p.name|..] == fromBefore;
    TrimStartAt(p.before, fromEq, White);
    assert fromEq[1..] == fromAfter;
    ValueStartsSolid(p);
    TrimStartAt(p.after, value, White);
    ParamValuePrinted(p, rest);
  }

  lemma {:induction false} AllParams(params: seq<Param>, end: string, found: Found)
    requires LegalParams(params) && All(end, Separator)
    ensures Params(ParamsText(params, end), found) ==
            Ok(Found(
              if LastNamed(params, "t").Some? then LastNamed(params, "t") else found.t,
              if LastNamed(params, "k").Some? then LastNamed(params, "k") else found.k))
  {
    hide ParamText, ParamValue, TrimEnd, Find, LegalParam;
    if |params| == 0 {
      TrimStartAt(end, "", Separator);
      assert end + "" == end;
    } else {
      var rest := ParamsText(params[1..], end);
      if params[0].form.Token? && rest != "" {
        FirstIsSeparator(params[1..], end);
      }
      OneParam(params[0], rest, found);
      var noted := Noted(found, params[0].name, params[0].value);
      AllParams(params[1..], end, noted);
      LastNamedCons(params, "t");
      LastNamedCons(params, "k");
      var name := params[0].name;
      if SameIgnoringCase(name, "t") {
        assert Lower(name[0]) == 't';
      }
    }
  }

  lemma FirstIsSeparator(params: seq<Param>, end: string)
    requires LegalParams(params) && All(end, Separator)
    requires |params| > 0 ==> params[0].separator != ""
    requires ParamsText(params, end) != ""
    ensures Separator(ParamsText(params, end)[0])
  {
    if |params| > 0 {
      assert ParamsText(params, end)[0] == params[0].separator[0];
    }
  }

  lemma {:induction false} LastNamedCons(params: seq<Param>, name: string)
    requires |params| > 0
    ensures LastNamed(params, name) ==
            if LastNamed(params[1..], name).Some? then LastNamed(params[1..], name)
            else if SameIgnoringCase(params[0].name, name) then Some(params[0].value)
            else None
  {
    if |params| == 1 {
      assert params[..0] == [];
    } else {
      LastNamedCons(params[..|params| - 1], name);
      assert params[..|params| - 1][1..] == params[1..][..|params| - 2];
      assert params[1..][|params| - 2] == params[|params| - 1];
    }
  }

  lemma ParamEndsSolid(p: Param)
    requires LegalParam(p)
    ensures ParamText(p) != "" && !White(ParamText(p)[|ParamText(p)| - 1])
  {
    var text, value := ParamText(p), ValueText(p);
    assert value != "" && !White(value[|value| - 1]);
    assert text[|text| - 1] == value[|value| - 1];
  }

  /** What is printed ends in a character that trimming keeps, then separators. */
  lemma {:induction false} LastPrinted(params: seq<Param>, end: string) returns (kept: string)
    requires |params| > 0 && LegalParams(params) && All(end, Separator)
    ensures ParamsText(params, end) == kept + end
    ensures kept != "" && !White(kept[|kept| - 1])
    ensures forall other: string :: ParamsText(params, other) == kept + other
  {
    hide ParamText, LegalParam, White;
    var head := ParamText(params[0]);
    if |params| == 1 {
      kept := head;
      ParamEndsSolid(params[0]);
    } else {
      var rest := LastPrinted(params[1..], end);
      kept := head + rest;
      forall other: string ensures ParamsText(params, other) == kept + other {
        assert head + (rest + other) == kept + other;
      }
    }
  }

  /** Trimming separators at the end by whitespace leaves separators. */
  lemma TrimmedSeparators(kept: string, end: string, trail: string) returns (left: string)
    requires kept != "" && !White(kept[|kept| - 1])
    requires All(end, Separator) && All(trail, White)
    ensures All(left, Separator)
    ensures TrimEnd(kept + end + trail, White) == kept + left
  {
    left := TrimEnd(end, White);
    TrimEndKeeps(end);
    var cut := end[|left|..];
    assert end == left + cut;
    assert kept + end + trail == (kept + left) + (cut + trail);
    forall i | 0 <= i < |cut + trail| ensures White((cut + trail)[i]) {
      if i < |cut| {
        assert White(cut[i]);
      }
    }
    TrimEndAt(kept + left, cut + trail, White);
  }

  lemma {:induction false} TrimEndKeeps(s: string)
    ensures var t := TrimEnd(s, White); t <= s && All(s[|t|..], White)
  {
    if |s| > 0 && White(s[|s| - 1]) {
      TrimEndKeeps(s[..|s| - 1]);
    }
  }

  lemma SchemeIsSolid(scheme: string)
    requires SameIgnoringCase(scheme, "vapid")
    ensures |scheme| == 5 && forall i :: 0 <= i < |scheme| ==> !White(scheme[i])
  {
    forall i | 0 <= i < |scheme| ensures !White(scheme[i]) {
      assert Lower(scheme[i]) == Lower("vapid"[i]);
    }
  }

  lemma SplitScheme(decode: string -> Option<Bytes>, scheme: string, gap: char, text: string, value: string)
    requires SameIgnoringCase(scheme, "vapid") && AsciiWhite(gap)
    requires TrimEnd(TrimStart(value, White), White) == scheme + ([gap] + text)
    ensures Parsed(decode, value) ==
            match Params(text, Found(None, None))
            case Err(e) => Err(e)
            case Ok(found) => Outcome(decode, found)
  {
    hide Params, Outcome, TrimStart, TrimEnd, Find;
    var line := scheme + ([gap] + text);
    SchemeIsSolid(scheme);
    forall i | 0 <= i < |scheme| ensures !AsciiWhite(scheme[i]) {
      assert !White(scheme[i]);
    }
    FindAt(scheme, [gap] + text, AsciiWhite);
    assert line[..|scheme|] == scheme;
    assert line[|scheme| + 1..] == text;
  }

  /**
   Whatever the writer chooses (letter case, parameter order, extra parameters, whitespace,
   bare or quoted values with any escaping), parsing the line gives the last `t` and the last
   `k`, judged as `Outcome` judges them.
   */
  lemma ParsePrinted(decode: string -> Option<Bytes>, l: Line)
    requires LegalLine(l)
    ensures Parsed(decode, LineText(l)) == Outcome(decode, Found(LastNamed(l.params, "t"), LastNamed(l.params, "k")))
  {
    hide Params, ParamsText, Parsed, Outcome, LegalParams, TrimStart, TrimEnd, Find, LastNamed, SameIgnoringCase;
    var kept := LastPrinted(l.params, l.end);
    var front := l.scheme + ([l.gap] + kept);
    assert front[|front| - 1] == kept[|kept| - 1];
    var left := TrimmedSeparators(front, l.end, l.trail);
    var body := (l.scheme + ([l.gap] + ParamsText(l.params, l.end))) + l.trail;
    assert body == front + l.end + l.trail;
    SchemeIsSolid(l.scheme);
    assert body[0] == l.scheme[0];
    TrimStartAt(l.lead, body, White);
    assert front + left == l.scheme + ([l.gap] + ParamsText(l.params, left));
    SplitScheme(decode, l.scheme, l.gap, ParamsText(l.params, left), LineText(l));
    AllParams(l.params, left, Found(None, None));
  }

  /** The round trip: a printed header with `t` and a 65-octet `k` gives both back. */
  lemma HeaderRoundTrip(decode: string -> Option<Bytes>, l: Line, t: string, k: string, key: Bytes)
    requires LegalLine(l)
    requires LastNamed(l.params, "t") == Some(t) && LastNamed(l.params, "k") == Some(k)
    requires decode(TrimEnd(k, Padding)) == Some(key)
    ensures Parsed(decode, LineText(l)) == if |key| == 65 then Ok(Credentials(t, key)) else Err(InvalidKey)
  {
    ParsePrinted(decode, l);
  }

  // -- What is refused ------------------------------------------------------

  /** The text is "vapid" in some letter case. */
  predicate SpellsVapid(s: string) {
    |s| == 5 && forall i :: 0 <= i < 5 ==> s[i] == "vapid"[i] || s[i] == "VAPID"[i]
  }

  lemma SchemeSpelled(s: string)
    ensures SameIgnoringCase(s, "vapid") <==> SpellsVapid(s)
  {
    if |s| == 5 {
      forall i | 0 <= i < 5 ensures Lower(s[i]) == Lower("vapid"[i]) <==> s[i] == "vapid"[i] || s[i] == "VAPID"[i] {
        LetterSpelled(s[i], "vapid"[i], "VAPID"[i]);
      }
    }
  }

  lemma LetterSpelled(c: char, lower: char, upper: char)
    requires 'a' <= lower <= 'z' && upper as int + 32 == lower as int
    ensures Lower(c) == Lower(lower) <==> c == lower || c == upper
  {
  }

  /** The value is blank space, a scheme, what follows it from a white character on, and blank space. */
  predicate Splits(value: string, lead: string, scheme: string, tail: string, trail: string) {
    value == lead + ((scheme + tail) + trail)
    && All(lead, White) && All(trail, White) && (scheme + tail == "" ==> trail == "")
    && (forall i :: 0 <= i < |scheme| ==> !AsciiWhite(scheme[i]))
    && (tail != "" ==> AsciiWhite(tail[0]))
    && (scheme + tail != "" ==> !White((scheme + tail)[0]) && !White((scheme + tail)[|scheme + tail| - 1]))
  }

  /** Every value splits in this way. */
  lemma AlwaysSplits(value: string) returns (lead: string, scheme: string, tail: string, trail: string)
    ensures Splits(value, lead, scheme, tail, trail)
  {
    hide White, AsciiWhite, Find, All, Splits;
    var line;
    lead, line, trail := Trims(value);
    var end := Find(line, AsciiWhite);
    scheme, tail := line[..end], line[end..];
    SplitsAt(value, lead, line, trail, end);
  }

  lemma Trims(value: string) returns (lead: string, line: string, trail: string)
    ensures value == lead + (line + trail) && All(lead, White) && All(trail, White) && (line == "" ==> trail == "")
    ensures line != "" ==> !White(line[0]) && !White(line[|line| - 1])
  {
    hide White, All, TrimStart, TrimEnd;
    var rest := TrimStart(value, White);
    lead := value[..|value| - |rest|];
    TrimStartKeeps(value);
    assert lead + rest == value;
    line, trail := TrimsEnd(rest);
  }

  lemma TrimsEnd(rest: string) returns (line: string, trail: string)
    requires rest != "" ==> !White(rest[0])
    ensures rest == line + trail && All(trail, White) && (line == "" ==> trail == "")
    ensures line != "" ==> !White(line[0]) && !White(line[|line| - 1])
  {
    hide White, All, TrimEnd;
    line := TrimEnd(rest, White);
    TrimEndKeeps(rest);
    trail := rest[|line|..];
    if line == "" && rest != "" {
      FirstOfAll(trail);
    }
    assert line + trail == rest;
    assert line != "" ==> line[0] == rest[0];
  }

  lemma SplitsAt(value: string, lead: string, line: string, trail: string, end: nat)
    requires value == lead + (line + trail) && All(lead, White) && All(trail, White) && (line == "" ==> trail == "")
    requires line != "" ==> !White(line[0]) && !White(line[|line| - 1])
    requires end <= |line| && (end < |line| ==> AsciiWhite(line[end]))
    requires forall i :: 0 <= i < end ==> !AsciiWhite(line[i])
    ensures Splits(value, lead, line[..end], line[end..], trail)
  {
    hide White, AsciiWhite, All;
    assert line[..end] + line[end..] == line;
  }

  lemma FirstOfAll(s: string)
    requires All(s, White) && s != ""
    ensures White(s[0])
  {
  }

  lemma {:induction false} TrimStartKeeps(s: string)
    ensures var t := TrimStart(s, White); var n := |s| - |t|; s[n..] == t && All(s[..n], White)
  {
    if |s| > 0 && White(s[0]) {
      TrimStartKeeps(s[1..]);
      var t := TrimStart(s, White);
      var n := |s| - |t|;
      assert s[n..] == s[1..][n - 1..];
      assert s[..n] == [s[0]] + s[1..][..n - 1];
    }
  }

  /** Credentials of another scheme are told apart from broken ones: exactly these give `NotVapid`. */
  lemma NotVapidExactly(
    decode: string -> Option<Bytes>, value: string, lead: string, scheme: string, tail: string, trail: string)
    requires Splits(value, lead, scheme, tail, trail)
    ensures Parsed(decode, value) == Err(NotVapid) <==> !SpellsVapid(scheme)
  {
    hide White, AsciiWhite, SameIgnoringCase, SpellsVapid, Params, Outcome;
    var line := scheme + tail;
    TrimStartAt(lead, line + trail, White) by {
      if line + trail != "" {
        assert (line + trail)[0] == line[0];
      }
    }
    TrimEndAt(line, trail, White);
    FindAt(scheme, tail, AsciiWhite);
    assert line[..|scheme|] == scheme;
    SchemeSpelled(scheme);
    var found := Params(if |scheme| < |line| then line[|scheme| + 1..] else "", Found(None, None));
    ParamsError(if |scheme| < |line| then line[|scheme| + 1..] else "", Found(None, None));
    if found.Ok? {
      OutcomeError(decode, found.value);
    }
  }

  /** The parameter list fails as malformed, or not at all. */
  lemma {:induction false} ParamsError(rest: string, found: Found)
    ensures Params(rest, found).Err? ==> Params(rest, found).error == Malformed
    decreases |rest|
  {
    hide TrimStart, Find;
    NextParamError(rest);
    var next := NextParam(rest);
    if next.Ok? && next.value.Some? {
      var (name, value, tail) := next.value.value;
      ParamsError(tail, Noted(found, name, value));
    }
  }

  lemma NextParamError(rest: string)
    ensures NextParam(rest).Err? ==> NextParam(rest).error == Malformed
  {
    hide TrimStart, Find, Unquoted;
    var list := TrimStart(rest, Separator);
    var after := TrimStart(list[Find(list, EndsName)..], White);
    if after != "" {
      var value := TrimStart(after[1..], White);
      if value != "" {
        UnquotedError(value[1..]);
      }
    }
  }

  lemma {:induction false} UnquotedError(s: string)
    ensures Unquoted(s).Err? ==> Unquoted(s).error == Malformed
    decreases |s|
  {
    if s != "" && s[0] != '"' && !(s[0] == '\\' && |s| < 2) {
      UnquotedError(s[(if s[0] == '\\' then 1 else 0) + 1..]);
    }
  }

  lemma OutcomeError(decode: string -> Option<Bytes>, found: Found)
    ensures Outcome(decode, found).Err? ==>
              Outcome(decode, found).error == (if found.t.None? || found.k.None? then MissingParam else InvalidKey)
  {
  }

  /** Some parameter has this one-letter name, in either case. */
  predicate Named(params: seq<Param>, lower: char, upper: char) {
    exists i :: 0 <= i < |params| && (params[i].name == [lower] || params[i].name == [upper])
  }

  lemma {:induction false} NamedLast(params: seq<Param>, lower: char, upper: char)
    requires 'a' <= lower <= 'z' && upper as int + 32 == lower as int
    ensures LastNamed(params, [lower]).Some? <==> Named(params, lower, upper)
  {
    if |params| > 0 {
      var front, last := params[..|params| - 1], params[|params| - 1];
      NamedLast(front, lower, upper);
      if |last.name| == 1 {
        LetterSpelled(last.name[0], lower, upper);
      }
      if Named(front, lower, upper) {
        var i :| 0 <= i < |front| && (front[i].name == [lower] || front[i].name == [upper]);
        assert params[i] == front[i];
      }
    }
  }

  /** A printed header misses a parameter exactly when no `t` or no `k` was printed; else only the key can be wrong. */
  lemma MissingExactly(decode: string -> Option<Bytes>, l: Line)
    requires LegalLine(l)
    ensures Parsed(decode, LineText(l)) == Err(MissingParam) <==>
            !Named(l.params, 't', 'T') || !Named(l.params, 'k', 'K')
    ensures Parsed(decode, LineText(l)).Err? ==> Parsed(decode, LineText(l)).error in {MissingParam, InvalidKey}
  {
    hide Parsed, LineText, LegalLine, LastNamed, Named;
    ParsePrinted(decode, l);
    NamedLast(l.params, 't', 'T');
    NamedLast(l.params, 'k', 'K');
    OutcomeError(decode, Found(LastNamed(l.params, "t"), LastNamed(l.params, "k")));
  }

  /** A name, perhaps with blank space after it, that no `=` follows. */
  predicate BareName(name: string, blank: string, rest: string) {
    name != "" && (forall i :: 0 <= i < |name| ==> !EndsName(name[i]))
    && All(blank, AsciiWhite)
    && (rest != "" ==> rest[0] != '=' && !White(rest[0]) && (blank == "" ==> EndsName(rest[0])))
  }

  /** After any printed parameters, a name that no `=` follows makes the list malformed. */
  lemma {:induction false} BareNameMalformed(
    params: seq<Param>, separator: string, name: string, blank: string, rest: string, found: Found)
    requires LegalParams(params) && All(separator, Separator) && BareName(name, blank, rest)
    requires |params| > 0 && params[|params| - 1].form.Token? ==> separator != ""
    ensures Params(ParamsText(params, separator + (name + (blank + rest))), found) == Err(Malformed)
  {
    var end := separator + (name + (blank + rest));
    if |params| == 0 {
      var list := name + (blank + rest);
      TrimStartAt(separator, list, Separator);
      FindAt(name, blank + rest, EndsName) by {
        if blank != "" {
          assert AsciiWhite(blank[0]) && (blank + rest)[0] == blank[0];
        }
      }
      assert list[|name|..] == blank + rest;
      AllAsciiIsWhite(blank);
      TrimStartAt(blank, rest, White);
    } else {
      var more := ParamsText(params[1..], end);
      if params[0].form.Token? && more != "" {
        StartsWithSeparator(params[1..], separator, name + (blank + rest));
      }
      OneParam(params[0], more, found);
      BareNameMalformed(params[1..], separator, name, blank, rest, Noted(found, params[0].name, params[0].value));
    }
  }

  lemma StartsWithSeparator(params: seq<Param>, separator: string, rest: string)
    requires LegalParams(params) && All(separator, Separator)
    requires if |params| > 0 then params[0].separator != "" else separator != ""
    ensures var text := ParamsText(params, separator + rest); text != "" && Separator(text[0])
  {
    if |params| > 0 {
      assert ParamsText(params, separator + rest)[0] == params[0].separator[0];
    } else {
      assert (separator + rest)[0] == separator[0];
    }
  }

  /** A quoted value that is not closed makes what it stands in malformed. */
  lemma {:induction false} UnclosedMalformed(value: string, escaped: seq<bool>, cut: bool)
    requires |escaped| == |value|
    requires forall i :: 0 <= i < |value| ==> escaped[i] || (value[i] != '"' && value[i] != '\\')
    ensures Unquoted(Escaped(value, escaped) + (if cut then "\\" else "")) == Err(Malformed)
  {
    var text := Escaped(value, escaped) + (if cut then "\\" else "");
    if value == "" {
      assert text == if cut then "\\" else "";
    } else {
      UnclosedMalformed(value[1..], escaped[1..], cut);
      var skip := if escaped[0] then 1 else 0;
      assert text[skip + 1..] == Escaped(value[1..], escaped[1..]) + (if cut then "\\" else "");
      assert text[skip] == value[0];
    }
  }

  /** The same for a whole header: the scheme is right and the list ends in a bare name. */
  lemma MalformedHeader(
    decode: string -> Option<Bytes>, scheme: string, gap: char, params: seq<Param>, separator: string,
    name: string, blank: string, rest: string)
    requires SpellsVapid(scheme) && AsciiWhite(gap)
    requires LegalParams(params) && All(separator, Separator) && BareName(name, blank, rest)
    requires |params| > 0 && params[|params| - 1].form.Token? ==> separator != ""
    requires rest != "" ==> !White(rest[|rest| - 1])
    requires rest == "" ==> blank == "" && !White(name[|name| - 1])
    ensures var text := ParamsText(params, separator + (name + (blank + rest)));
            Parsed(decode, scheme + ([gap] + text)) == Err(Malformed)
  {
    hide Params, TrimStart, TrimEnd, Find, White, AsciiWhite, Parsed, LegalParams, ParamsText;
    var end := separator + (name + (blank + rest));
    var text := ParamsText(params, end);
    var value := scheme + ([gap] + text);
    SchemeSpelled(scheme);
    SchemeIsSolid(scheme);
    assert "" + value == value && value + "" == value;
    TrimStartAt("", value, White);
    EndsIn(params, end);
    assert value[|value| - 1] == end[|end| - 1];
    TrimEndAt(value, "", White);
    SplitScheme(decode, scheme, gap, text, value);
    BareNameMalformed(params, separator, name, blank, rest, Found(None, None));
  }

  lemma {:induction false} EndsIn(params: seq<Param>, end: string)
    requires LegalParams(params) && end != ""
    ensures var text := ParamsText(params, end); text != "" && text[|text| - 1] == end[|end| - 1]
  {
    if |params| > 0 {
      EndsIn(params[1..], end);
    }
  }
}
