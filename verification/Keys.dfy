/**
 The Bigtable key layout: every kind of row as a structured key, its encoding as a string,
 the ranges that scans read, and the parsing of keys and cells read back.
 */
module Keys {
  import opened Prelude
  import opened Types

  /** The slot of a message row: its topic, or its acceptance time and id. */
  datatype Slot = ByTopic(channelId: string, topic: string) | ByTime(accepted: nat, id: string)

  datatype Key =
    | Ua(uaid: string)
    | Ch(uaid: string, channelId: string)
    | Push(push: string)
    | Msg(uaid: string, slot: Slot)
    | Mid(id: string)
    | Rsub(rsub: string)
    | Rq(rsub: string, n: nat)
    | Rexp(expiry: nat, id: string)
    | Route(to: Recipient)

  predicate IsRecipient(to: Recipient) {
    match to
    case UserAgentAt(uaid) => IsUaid(uaid)
    case ReceiptsOf(rsub) => IsId(rsub)
  }

  predicate GoodSlot(slot: Slot) {
    match slot
    case ByTopic(ch, topic) => IsChannel(ch) && IsTopic(topic)
    case ByTime(accepted, id) => accepted < U64 && IsId(id)
  }

  /** Keys built from identifiers of the shapes the service issues. */
  predicate Good(k: Key) {
    match k
    case Ua(uaid) => IsUaid(uaid)
    case Ch(uaid, ch) => IsUaid(uaid) && IsChannel(ch)
    case Push(p) => IsId(p)
    case Msg(uaid, slot) => IsUaid(uaid) && GoodSlot(slot)
    case Mid(id) => IsId(id)
    case Rsub(rsub) => IsId(rsub)
    case Rq(rsub, n) => IsId(rsub) && n < U64
    case Rexp(expiry, id) => expiry < U64 && IsId(id)
    case Route(to) => IsRecipient(to)
  }

  // -- Fixed-width hexadecimal ----------------------------------------------

  function HexDigit(d: nat): (c: char)
    requires d < 16
    ensures LowerHex(c)
  {
    if d < 10 then (d + 48) as char else (d + 87) as char
  }

  function HexValue(c: char): (d: nat) {
    if '0' <= c <= '9' then c as nat - 48 else if 'a' <= c <= 'f' then c as nat - 87 else 0
  }

  function Pow16(width: nat): (p: nat)
    ensures p > 0
  {
    if width == 0 then 1 else 16 * Pow16(width - 1)
  }

  /** `{:0width$x}` for a number that fits. */
  function Hex(n: nat, width: nat): (s: string)
    ensures |s| == width
    ensures forall i :: 0 <= i < |s| ==> LowerHex(s[i])
  {
    if width == 0 then "" else Hex(n / 16, width - 1) + [HexDigit(n % 16)]
  }

  /** `from_str_radix(_, 16)` on such a string. */
  function FromHex(s: string): nat {
    if s == "" then 0 else FromHex(s[..|s| - 1]) * 16 + HexValue(s[|s| - 1])
  }

  lemma {:induction false} HexRoundTrip(n: nat, width: nat)
    requires n < Pow16(width)
    ensures FromHex(Hex(n, width)) == n
  {
    if width > 0 {
      HexRoundTrip(n / 16, width - 1);
      assert Hex(n, width)[..width - 1] == Hex(n / 16, width - 1);
    }
  }

  lemma Pow16OfU64()
    ensures Pow16(16) == U64
  {
    assert Pow16(8) == 0x1_0000_0000;
    assert Pow16(16) == 0x1_0000_0000 * 0x1_0000_0000;
  }

  /** A common prefix does not matter for the order. */
  lemma {:induction false} BelowPrefix(p: string, a: string, b: string)
    ensures Below(p + a, p + b) == Below(a, b)
  {
    if p == "" {
      assert p + a == a && p + b == b;
    } else {
      BelowPrefix(p[1..], a, b);
      assert (p + a)[1..] == p[1..] + a && (p + b)[1..] == p[1..] + b;
    }
  }

  /** Fixed-width hexadecimal order is numeric order, whatever follows. */
  lemma {:induction false} HexOrder(a: nat, b: nat, width: nat, x: string, y: string)
    requires a < Pow16(width) && b < Pow16(width)
    ensures Below(Hex(a, width) + x, Hex(b, width) + y) <==> a < b || (a == b && Below(x, y))
  {
    if width == 0 {
      assert "" + x == x && "" + y == y;
    } else {
      var c, d := [HexDigit(a % 16)], [HexDigit(b % 16)];
      HexOrder(a / 16, b / 16, width - 1, c + x, d + y);
      assert Hex(a, width) + x == Hex(a / 16, width - 1) + (c + x);
      assert Hex(b, width) + y == Hex(b / 16, width - 1) + (d + y);
      assert (c + x)[1..] == x && (d + y)[1..] == y;
    }
  }

  // -- Encoding -------------------------------------------------------------

  function Tag(k: Key): string {
    match k
    case Ua(_) => "ua"
    case Ch(_, _) => "ch"
    case Push(_) => "push"
    case Msg(_, _) => "msg"
    case Mid(_) => "mid"
    case Rsub(_) => "rsub"
    case Rq(_, _) => "rq"
    case Rexp(_, _) => "rexp"
    case Route(_) => "route"
  }

  function SlotText(slot: Slot): string {
    match slot
    case ByTopic(ch, topic) => "t:" + (ch + (":" + topic))
    case ByTime(accepted, id) => Hex(accepted, 16) + id
  }

  /** What follows the tag and its `#`. */
  function Rest(k: Key): string {
    match k
    case Ua(uaid) => uaid
    case Ch(uaid, ch) => uaid + ("#" + ch)
    case Push(p) => p
    case Msg(uaid, slot) => uaid + ("#" + SlotText(slot))
    case Mid(id) => id
    case Rsub(rsub) => rsub
    case Rq(rsub, n) => rsub + ("#" + Hex(n, 16))
    case Rexp(expiry, id) => Hex(expiry, 16) + ("#" + id)
    case Route(to) =>
      match to
      case UserAgentAt(uaid) => "u:" + uaid
      case ReceiptsOf(rsub) => "r:" + rsub
  }

  function Encode(k: Key): string {
    Tag(k) + ("#" + Rest(k))
  }

  predicate Free(s: string, c: char) {
    forall i :: 0 <= i < |s| ==> s[i] != c
  }

  /** `split_once`: the text before and after the first `c`. */
  function SplitOnce(s: string, c: char): Option<(string, string)> {
    if s == "" then None
    else if s[0] == c then Some(("", s[1..]))
    else
      match SplitOnce(s[1..], c)
      case None => None
      case Some((a, b)) => Some(([s[0]] + a, b))
  }

  /** `rsplit(c).next()`: the text after the last `c`. */
  function AfterLast(s: string, c: char): string {
    if s == "" then "" else if s[|s| - 1] == c then "" else AfterLast(s[..|s| - 1], c) + [s[|s| - 1]]
  }

  function StripPrefix(s: string, p: string): Option<string> {
    if p <= s then Some(s[|p|..]) else None
  }

  lemma {:induction false} SplitOnceAt(a: string, c: char, b: string)
    requires Free(a, c)
    ensures SplitOnce(a + ([c] + b), c) == Some((a, b))
  {
    if a == "" {
      assert "" + ([c] + b) == [c] + b;
    } else {
      SplitOnceAt(a[1..], c, b);
      assert (a + ([c] + b))[1..] == a[1..] + ([c] + b);
      assert [a[0]] + a[1..] == a;
    }
  }

  lemma {:induction false} AfterLastAt(a: string, c: char, b: string)
    requires Free(b, c)
    ensures AfterLast(a + ([c] + b), c) == b
  {
    var s := a + ([c] + b);
    if b == "" {
      assert s[|s| - 1] == c;
    } else {
      assert s[..|s| - 1] == a + ([c] + b[..|b| - 1]);
      AfterLastAt(a, c, b[..|b| - 1]);
      assert b == b[..|b| - 1] + [b[|b| - 1]];
    }
  }

  /** None of the issued identifiers contains a delimiter. */
  lemma Delimiters(s: string)
    ensures IsUaid(s) ==> Free(s, '#') && Free(s, ':')
    ensures IsChannel(s) ==> Free(s, '#') && Free(s, ':')
    ensures IsId(s) ==> Free(s, '#') && Free(s, ':')
    ensures IsTopic(s) ==> Free(s, '#') && Free(s, ':')
  {
  }

  lemma HexFree(n: nat)
    ensures Free(Hex(n, 16), '#') && Free(Hex(n, 16), ':')
    ensures Hex(n, 16)[0] != 't'
  {
    assert LowerHex(Hex(n, 16)[0]);
  }

  lemma PairInjective(a: string, b: string, c: string, d: string, sep: char)
    requires Free(a, sep) && Free(c, sep) && a + ([sep] + b) == c + ([sep] + d)
    ensures a == c && b == d
  {
    SplitOnceAt(a, sep, b);
    SplitOnceAt(c, sep, d);
  }

  lemma HexInjective(a: nat, b: nat, x: string, y: string)
    requires a < U64 && b < U64 && Hex(a, 16) + x == Hex(b, 16) + y
    ensures a == b && x == y
  {
    Pow16OfU64();
    assert Hex(a, 16) == (Hex(a, 16) + x)[..16] && Hex(b, 16) == (Hex(b, 16) + y)[..16];
    assert x == (Hex(a, 16) + x)[16..] && y == (Hex(b, 16) + y)[16..];
    HexRoundTrip(a, 16);
    HexRoundTrip(b, 16);
  }

  lemma TagFree(k: Key)
    ensures Free(Tag(k), '#')
  {
    hide Rest;
  }

  lemma TagsDiffer(j: Key, k: Key)
    requires Encode(j) == Encode(k)
    ensures Tag(j) == Tag(k) && Rest(j) == Rest(k)
  {
    hide Tag, Rest, Free;
    TagFree(j);
    TagFree(k);
    PairInjective(Tag(j), Rest(j), Tag(k), Rest(k), '#');
  }

  lemma SlotInjective(a: Slot, b: Slot)
    requires GoodSlot(a) && GoodSlot(b)
    requires SlotText(a) == SlotText(b)
    ensures a == b
  {
    match (a, b) {
      case (ByTopic(ch, topic), ByTopic(ch', topic')) =>
        assert ch + (":" + topic) == SlotText(a)[2..] && ch' + (":" + topic') == SlotText(b)[2..];
        Delimiters(ch);
        Delimiters(ch');
        PairInjective(ch, topic, ch', topic', ':');
      case (ByTime(n, id), ByTime(n', id')) => HexInjective(n, n', id, id');
      case (ByTopic(_, _), ByTime(n, id)) =>
        HexFree(n);
      case (ByTime(n, id), ByTopic(_, _)) =>
        HexFree(n);
    }
  }

  /** Different rows have different keys. */
  lemma EncodeInjective(j: Key, k: Key)
    requires Good(j) && Good(k) && Encode(j) == Encode(k)
    ensures j == k
  {
    hide Encode, SlotText, Hex, IsUaid, IsChannel, IsId, IsTopic, GoodSlot;
    TagsDiffer(j, k);
    match (j, k) {
      case (Ua(_), Ua(_)) =>
      case (Push(_), Push(_)) =>
      case (Mid(_), Mid(_)) =>
      case (Rsub(_), Rsub(_)) =>
      case (Ch(u, c), Ch(u', c')) =>
        Delimiters(u);
        Delimiters(u');
        PairInjective(u, c, u', c', '#');
      case (Msg(u, s), Msg(u', s')) =>
        Delimiters(u);
        Delimiters(u');
        PairInjective(u, SlotText(s), u', SlotText(s'), '#');
        SlotInjective(s, s');
      case (Rq(r, n), Rq(r', n')) =>
        Delimiters(r);
        Delimiters(r');
        PairInjective(r, Hex(n, 16), r', Hex(n', 16), '#');
        HexInjective(n, n', "", "");
      case (Rexp(n, id), Rexp(n', id')) => HexInjective(n, n', "#" + id, "#" + id');
        assert ("#" + id)[1..] == id && ("#" + id')[1..] == id';
      case (Route(to), Route(to')) => RouteInjective(to, to');
      case _ =>
    }
  }

  lemma RouteInjective(a: Recipient, b: Recipient)
    requires Rest(Route(a)) == Rest(Route(b))
    ensures a == b
  {
    var x, y := Rest(Route(a)), Rest(Route(b));
    assert x[0] == y[0] && x[2..] == y[2..];
    assert x[2..] == if a.UserAgentAt? then a.uaid else a.rsub;
    assert y[2..] == if b.UserAgentAt? then b.uaid else b.rsub;
  }

  // -- Ranges ---------------------------------------------------------------

  /** Keys in `[start, end)`. */
  predicate InRange(key: string, start: string, end: string) {
    !Below(key, start) && Below(key, end)
  }

  /** The end `prefix` computes: the final `#` becomes `$`, the next character up. */
  function PrefixEnd(p: string): string {
    if p != "" && p[|p| - 1] == '#' then p[..|p| - 1] + "$" else p + "$"
  }

  /** The range of a prefix that ends in `#` holds exactly the keys with that prefix. */
  lemma {:induction false} PrefixRangeExact(q: string, key: string)
    ensures InRange(key, q + "#", PrefixEnd(q + "#")) <==> q + "#" <= key
    decreases |q|
  {
    assert (q + "#")[..|q + "#"| - 1] == q;
    PrefixInner(q, key);
  }

  lemma {:induction false} PrefixInner(q: string, key: string)
    ensures !Below(key, q + "#") && Below(key, q + "$") <==> q + "#" <= key
    decreases |q|
  {
    if q == "" {
      assert "" + "#" == "#" && "" + "$" == "$";
      if key != "" {
        assert "#"[1..] == "" && "$"[1..] == "";
        assert !Below(key[1..], "");
        assert "#" <= key <==> key[0] == '#';
      }
    } else if key != "" {
      assert (q + "#")[1..] == q[1..] + "#" && (q + "$")[1..] == q[1..] + "$";
      PrefixInner(q[1..], key[1..]);
      if q[0] == key[0] {
        assert key == [key[0]] + key[1..];
      }
    }
  }

  /** The scans the store makes, and the rows each is meant to read. */
  datatype Scan =
    | ScanAgents
    | ScanChannels(uaid: string)
    | ScanMessages(uaid: string)
    | ScanQueue(rsub: string)
    | ScanDue(now: nat)

  predicate GoodScan(s: Scan) {
    match s
    case ScanAgents => true
    case ScanChannels(uaid) => IsUaid(uaid)
    case ScanMessages(uaid) => IsUaid(uaid)
    case ScanQueue(rsub) => IsId(rsub)
    case ScanDue(now) => now + 1 < U64
  }

  function ScanStart(s: Scan): string {
    match s
    case ScanAgents => "ua" + "#"
    case ScanChannels(uaid) => ("ch" + ("#" + uaid)) + "#"
    case ScanMessages(uaid) => ("msg" + ("#" + uaid)) + "#"
    case ScanQueue(rsub) => ("rq" + ("#" + rsub)) + "#"
    case ScanDue(_) => "rexp#"
  }

  function ScanEnd(s: Scan): string {
    match s
    case ScanDue(now) => "rexp#" + Hex(now + 1, 16)
    case _ => PrefixEnd(ScanStart(s))
  }

  /** The rows a scan is meant to read. */
  predicate Selects(s: Scan, k: Key) {
    match s
    case ScanAgents => k.Ua?
    case ScanChannels(uaid) => k.Ch? && k.uaid == uaid
    case ScanMessages(uaid) => k.Msg? && k.uaid == uaid
    case ScanQueue(rsub) => k.Rq? && k.rsub == rsub
    case ScanDue(now) => k.Rexp? && k.expiry <= now
  }

  /** A key starts with `tag#id#` exactly when its tag is `tag` and its rest starts with `id#`. */
  lemma PrefixOfEncode(k: Key, tag: string, id: string)
    requires Free(tag, '#')
    ensures (tag + ("#" + id)) + "#" <= Encode(k) <==> Tag(k) == tag && id + "#" <= Rest(k)
  {
    hide Rest;
    var p, e := (tag + ("#" + id)) + "#", Encode(k);
    assert Free(Tag(k), '#');
    if p <= e {
      var tail := e[|p|..];
      assert e == tag + (['#'] + (id + "#" + tail));
      PairInjective(tag, id + "#" + tail, Tag(k), Rest(k), '#');
    }
    if Tag(k) == tag && id + "#" <= Rest(k) {
      assert e == p + Rest(k)[|id| + 1..];
    }
  }

  /** A pair `id#rest` starts with `other#` exactly when the ids are equal; a lone id never does. */
  lemma PrefixOfPair(id: string, other: string, rest: string)
    requires Free(id, '#') && Free(other, '#')
    ensures other + "#" <= id + ("#" + rest) <==> id == other
    ensures !(other + "#" <= id)
  {
    var whole := id + ("#" + rest);
    assert (other + "#")[|other|] == '#';
    if other + "#" <= whole {
      assert whole == other + (['#'] + whole[|other| + 1..]);
      PairInjective(id, rest, other, whole[|other| + 1..], '#');
    }
    if id == other {
      assert whole == (other + "#") + rest;
    }
  }

  /** A key between `p` and an extension of `p` starts with `p`. */
  lemma {:induction false} Between(p: string, x: string, key: string)
    requires !Below(key, p) && Below(key, p + x)
    ensures p <= key
    decreases |p|
  {
    if p != "" {
      assert (p + x)[1..] == p[1..] + x;
      Between(p[1..], x, key[1..]);
      assert key == [key[0]] + key[1..];
    }
  }

  lemma TagFromPrefix(k: Key, tag: string)
    requires Free(tag, '#') && tag + "#" <= Encode(k)
    ensures Tag(k) == tag
  {
    hide Rest;
    var tail := Encode(k)[|tag| + 1..];
    assert Encode(k) == tag + (['#'] + tail);
    assert Free(Tag(k), '#');
    PairInjective(tag, tail, Tag(k), Rest(k), '#');
  }

  lemma DueExact(now: nat, k: Key)
    requires Good(k) && now + 1 < U64
    ensures InRange(Encode(k), "rexp#", "rexp#" + Hex(now + 1, 16)) <==> k.Rexp? && k.expiry <= now
  {
    hide Hex, IsUaid, IsId, IsChannel, GoodSlot, SlotText;
    var p, end := "rexp#", Hex(now + 1, 16);
    Pow16OfU64();
    if k.Rexp? {
      var tail := Hex(k.expiry, 16) + ("#" + k.id);
      assert Encode(k) == p + tail;
      BelowPrefix(p, tail, end);
      assert p + "" == p;
      BelowPrefix(p, tail, "");
      HexOrder(k.expiry, now + 1, 16, "#" + k.id, "");
      assert end + "" == end;
    } else if InRange(Encode(k), p, p + end) {
      Between(p, end, Encode(k));
      TagFromPrefix(k, "rexp");
    }
  }

  lemma AgentsExact(k: Key)
    ensures "ua" + "#" <= Encode(k) <==> k.Ua?
  {
    hide Hex, SlotText;
    if "ua" + "#" <= Encode(k) {
      TagFromPrefix(k, "ua");
    }
    if k.Ua? {
      assert Encode(k) == ("ua" + "#") + k.uaid;
    }
  }

  lemma OwnedExact(k: Key, tag: string, id: string)
    requires Good(k) && (tag == "ch" || tag == "msg" || tag == "rq")
    requires if tag == "rq" then IsId(id) else IsUaid(id)
    ensures (tag + ("#" + id)) + "#" <= Encode(k) <==>
            Tag(k) == tag && id == (if k.Ch? then k.uaid else if k.Msg? then k.uaid else if k.Rq? then k.rsub else "")
  {
    hide Hex, SlotText, Encode, IsUaid, IsId, IsChannel, GoodSlot;
    Delimiters(id);
    PrefixOfEncode(k, tag, id);
    match k {
      case Ch(u, c) =>
        Delimiters(u);
        PrefixOfPair(u, id, c);
      case Msg(u, slot) =>
        Delimiters(u);
        PrefixOfPair(u, id, SlotText(slot));
      case Rq(r, n) =>
        Delimiters(r);
        PrefixOfPair(r, id, Hex(n, 16));
      case _ =>
    }
  }

  /** Every scan's range holds exactly the rows it is meant to read, among all keys ever written. */
  lemma ScanExact(s: Scan, k: Key)
    requires GoodScan(s) && Good(k)
    ensures InRange(Encode(k), ScanStart(s), ScanEnd(s)) <==> Selects(s, k)
  {
    hide InRange, Encode, Good, PrefixEnd, IsUaid, IsId;
    match s {
      case ScanAgents =>
        PrefixRangeExact("ua", Encode(k));
        AgentsExact(k);
      case ScanChannels(uaid) =>
        PrefixRangeExact("ch" + ("#" + uaid), Encode(k));
        OwnedExact(k, "ch", uaid);
      case ScanMessages(uaid) =>
        PrefixRangeExact("msg" + ("#" + uaid), Encode(k));
        OwnedExact(k, "msg", uaid);
      case ScanQueue(rsub) =>
        PrefixRangeExact("rq" + ("#" + rsub), Encode(k));
        OwnedExact(k, "rq", rsub);
      case ScanDue(now) => DueExact(now, k);
    }
  }

  lemma QueueKeyText(rsub: string, n: nat)
    ensures Encode(Rq(rsub, n)) == ("rq#" + (rsub + "#")) + Hex(n, 16)
  {
    hide Hex;
  }

  /** Receipts of one queue scan in sequence order. */
  lemma QueueScansInOrder(rsub: string, a: nat, b: nat)
    requires a < U64 && b < U64
    ensures Below(Encode(Rq(rsub, a)), Encode(Rq(rsub, b))) <==> a < b
  {
    assert !Below("", "");
    hide Below, Hex, Pow16, Encode;
    var p := "rq#" + (rsub + "#");
    Pow16OfU64();
    QueueKeyText(rsub, a);
    QueueKeyText(rsub, b);
    BelowPrefix(p, Hex(a, 16), Hex(b, 16));
    HexOrder(a, b, 16, "", "");
    assert Hex(a, 16) + "" == Hex(a, 16) && Hex(b, 16) + "" == Hex(b, 16);
  }

  /** What the code reads off the end of a scanned key. */
  lemma KeyTails(k: Key)
    requires Good(k)
    ensures k.Ua? ==> StripPrefix(Encode(k), "ua#") == Some(k.uaid)
    ensures k.Ch? ==> AfterLast(Encode(k), '#') == k.channelId
    ensures k.Rq? ==> AfterLast(Encode(k), '#') == Hex(k.n, 16) && FromHex(Hex(k.n, 16)) == k.n
    ensures k.Rexp? ==> AfterLast(Encode(k), '#') == k.id
  {
    hide Hex, AfterLast, IsUaid, IsChannel, IsId, Pow16;
    match k {
      case Ua(uaid) => assert Encode(k) == "ua#" + uaid;
      case Ch(u, c) =>
        Delimiters(c);
        assert Encode(k) == ("ch#" + u) + (['#'] + c);
        AfterLastAt("ch#" + u, '#', c);
      case Rq(r, n) =>
        HexFree(n);
        Pow16OfU64();
        HexRoundTrip(n, 16);
        assert Encode(k) == ("rq#" + r) + (['#'] + Hex(n, 16));
        AfterLastAt("rq#" + r, '#', Hex(n, 16));
      case Rexp(e, id) =>
        Delimiters(id);
        assert Encode(k) == ("rexp#" + Hex(e, 16)) + (['#'] + id);
        AfterLastAt("rexp#" + Hex(e, 16), '#', id);
      case _ =>
    }
  }

  // -- Decimal cells --------------------------------------------------------

  /** `to_string` of an unsigned integer. */
  function Decimal(n: nat): (s: string)
    ensures s != ""
    ensures forall i :: 0 <= i < |s| ==> '0' <= s[i] <= '9'
  {
    (if n < 10 then "" else Decimal(n / 10)) + [(n % 10 + 48) as char]
  }

  function Digits(s: string): nat
    requires forall i :: 0 <= i < |s| ==> '0' <= s[i] <= '9'
  {
    if s == "" then 0 else Digits(s[..|s| - 1]) * 10 + (s[|s| - 1] as nat - 48)
  }

  /** `parse` to an unsigned integer below `bound`: digits, perhaps after a plus sign. */
  function ParseNumber(s: string, bound: nat): Option<nat> {
    var d := if s != "" && s[0] == '+' then s[1..] else s;
    if d == "" || exists i :: 0 <= i < |d| && !('0' <= d[i] <= '9') then None
    else if Digits(d) < bound then Some(Digits(d)) else None
  }

  lemma {:induction false} DecimalRoundTrip(n: nat, bound: nat)
    requires n < bound
    ensures Digits(Decimal(n)) == n
    ensures ParseNumber(Decimal(n), bound) == Some(n)
  {
    if n >= 10 {
      DecimalRoundTrip(n / 10, bound);
    }
    assert Decimal(n)[..|Decimal(n)| - 1] == if n < 10 then "" else Decimal(n / 10);
  }

  // -- Message rows ---------------------------------------------------------

  /** The cells of one row, by column; a body is kept as a string of octets. */
  type Row = map<string, string>

  function TextCell(row: Row, col: string): Option<string> {
    if col in row then Some(row[col]) else None
  }

  function NumberCell(row: Row, col: string, bound: nat): Option<nat> {
    if col in row then ParseNumber(row[col], bound) else None
  }

  function UrgencyText(u: Urgency): string {
    match u
    case VeryLow => "very-low"
    case Low => "low"
    case Normal => "normal"
    case High => "high"
  }

  function ParseUrgency(s: string): Option<Urgency> {
    if s == "very-low" then Some(VeryLow)
    else if s == "low" then Some(Low)
    else if s == "normal" then Some(Normal)
    else if s == "high" then Some(High)
    else None
  }

  /** `message_key`: the topic places a message in its slot's row; without one it has a row of its own. */
  function MessageKey(m: Message): Key {
    Msg(m.uaid, if m.topic.Some? then ByTopic(m.channelId, m.topic.value) else ByTime(m.accepted, m.id))
  }

  function Optional(col: string, value: Option<string>): Row {
    if value.Some? then map[col := value.value] else map[]
  }

  function FixedCells(m: Message): Row {
    map["id" := m.id, "ch" := m.channelId, "push" := m.push, "body" := m.body,
        "ttl" := Decimal(m.ttl), "urgency" := UrgencyText(m.urgency),
        "accepted" := Decimal(m.accepted), "expiry" := Decimal(m.expiry)]
  }

  /** The cells `insert_message` sets after it clears the row. */
  function Cells(m: Message): Row {
    FixedCells(m) + Optional("ctype", m.ctype) + Optional("cenc", m.cenc) + Optional("rsub", m.rsub)
  }

  /** The user agent and slot of a message row key. */
  function MessageRowKey(key: string): Option<(string, string)> {
    match StripPrefix(key, "msg#")
    case None => None
    case Some(rest) => SplitOnce(rest, '#')
  }

  /** The topic of a slot. */
  function TopicOf(slot: string): Option<string> {
    match StripPrefix(slot, "t:")
    case None => None
    case Some(rest) =>
      match SplitOnce(rest, ':')
      case None => None
      case Some((_, topic)) => Some(topic)
  }

  /** `message_from_row`. */
  function MessageFromRow(key: string, row: Row): Option<Message> {
    match MessageRowKey(key)
    case None => None
    case Some((uaid, slot)) =>
      var ttl := NumberCell(row, "ttl", U32);
      var accepted, expiry := NumberCell(row, "accepted", U64), NumberCell(row, "expiry", U64);
      var urgency := if "urgency" in row then ParseUrgency(row["urgency"]) else None;
      if "id" !in row || "ch" !in row || "push" !in row || "body" !in row
         || ttl.None? || urgency.None? || accepted.None? || expiry.None?
      then None
      else Some(Message(
        row["id"], uaid, row["ch"], row["push"], TopicOf(slot), row["body"],
        TextCell(row, "ctype"), TextCell(row, "cenc"), ttl.value, urgency.value, accepted.value, expiry.value,
        TextCell(row, "rsub")))
  }

  lemma MessageKeyParses(m: Message)
    requires WellFormed(m)
    ensures MessageRowKey(Encode(MessageKey(m))) == Some((m.uaid, SlotText(MessageKey(m).slot)))
    ensures TopicOf(SlotText(MessageKey(m).slot)) == m.topic
  {
    var slot := SlotText(MessageKey(m).slot);
    assert Encode(MessageKey(m)) == "msg#" + (m.uaid + (['#'] + slot));
    SlotParses(m);
    hide SlotText, TopicOf;
    Delimiters(m.uaid);
    SplitOnceAt(m.uaid, '#', slot);
  }

  lemma SlotParses(m: Message)
    requires WellFormed(m)
    ensures TopicOf(SlotText(MessageKey(m).slot)) == m.topic
  {
    var slot := SlotText(MessageKey(m).slot);
    hide Encode, MessageRowKey;
    if m.topic.Some? {
      assert slot == "t:" + (m.channelId + ([':'] + m.topic.value));
      Delimiters(m.channelId);
      SplitOnceAt(m.channelId, ':', m.topic.value);
    } else {
      HexFree(m.accepted);
      assert slot[0] == Hex(m.accepted, 16)[0];
    }
  }

  lemma FixedCellsAt(m: Message)
    ensures var row := FixedCells(m);
            TextCell(row, "id") == Some(m.id) && TextCell(row, "ch") == Some(m.channelId)
            && TextCell(row, "push") == Some(m.push) && TextCell(row, "body") == Some(m.body)
            && TextCell(row, "ttl") == Some(Decimal(m.ttl)) && TextCell(row, "urgency") == Some(UrgencyText(m.urgency))
            && TextCell(row, "accepted") == Some(Decimal(m.accepted))
            && TextCell(row, "expiry") == Some(Decimal(m.expiry))
            && "ctype" !in row && "cenc" !in row && "rsub" !in row
  {
    hide Decimal, UrgencyText;
  }

  lemma CellsAt(m: Message)
    ensures var row := Cells(m);
            TextCell(row, "id") == Some(m.id) && TextCell(row, "ch") == Some(m.channelId)
            && TextCell(row, "push") == Some(m.push) && TextCell(row, "body") == Some(m.body)
            && TextCell(row, "ttl") == Some(Decimal(m.ttl)) && TextCell(row, "urgency") == Some(UrgencyText(m.urgency))
            && TextCell(row, "accepted") == Some(Decimal(m.accepted))
            && TextCell(row, "expiry") == Some(Decimal(m.expiry))
            && TextCell(row, "ctype") == m.ctype && TextCell(row, "cenc") == m.cenc && TextCell(row, "rsub") == m.rsub
  {
    hide FixedCells, Decimal, UrgencyText;
    FixedCellsAt(m);
  }

  lemma UrgencyRoundTrip(u: Urgency)
    ensures ParseUrgency(UrgencyText(u)) == Some(u)
  {
  }

  /** Reading a message row back gives the message that was written, for every message. */
  lemma MessageRowRoundTrip(m: Message)
    requires WellFormed(m)
    ensures MessageFromRow(Encode(MessageKey(m)), Cells(m)) == Some(m)
  {
    hide Cells, MessageRowKey, TopicOf, Encode, MessageKey, SlotText, Decimal, ParseNumber, ParseUrgency, UrgencyText;
    hide IsId, IsUaid, IsChannel, IsTopic;
    CellsAt(m);
    UrgencyRoundTrip(m.urgency);
    MessageKeyParses(m);
    DecimalRoundTrip(m.ttl, U32);
    DecimalRoundTrip(m.accepted, U64);
    DecimalRoundTrip(m.expiry, U64);
  }

  lemma MessageKeyGood(m: Message)
    requires WellFormed(m)
    ensures Good(MessageKey(m))
  {
  }

  /** Two messages share a row exactly when they share a topic slot, or are one topicless message. */
  lemma SharedRows(a: Message, b: Message)
    requires WellFormed(a) && WellFormed(b)
    ensures Encode(MessageKey(a)) == Encode(MessageKey(b)) <==>
            a.uaid == b.uaid && a.topic == b.topic
            && (if a.topic.Some? then a.channelId == b.channelId else a.accepted == b.accepted && a.id == b.id)
  {
    MessageKeyGood(a);
    MessageKeyGood(b);
    if Encode(MessageKey(a)) == Encode(MessageKey(b)) {
      EncodeInjective(MessageKey(a), MessageKey(b));
    }
  }

  // -- The exact-match filter -----------------------------------------------

  predicate Alphanumeric(c: char) {
    '0' <= c <= '9' || 'a' <= c <= 'z' || 'A' <= c <= 'Z'
  }

  /** The body of the pattern `exact` builds: everything but letters and digits is escaped. */
  function Quote(value: string): string {
    if value == "" then ""
    else (if Alphanumeric(value[0]) then [value[0]] else ['\\', value[0]]) + Quote(value[1..])
  }

  /** `exact`. */
  function Exact(value: string): string {
    "^" + (Quote(value) + "$")
  }

  /**
   Matching for patterns of literals: a letter or digit stands for itself, a backslash makes
   the next punctuation character literal, `$` matches only at the end.
   */
  predicate MatchesFrom(pattern: string, text: string)
    decreases |pattern|
  {
    if pattern == "$" then text == ""
    else if pattern == "" || text == "" then false
    else if pattern[0] == '\\' then
      |pattern| >= 2 && !Alphanumeric(pattern[1]) && text[0] == pattern[1] && MatchesFrom(pattern[2..], text[1..])
    else Alphanumeric(pattern[0]) && text[0] == pattern[0] && MatchesFrom(pattern[1..], text[1..])
  }

  predicate Matches(pattern: string, text: string) {
    pattern != "" && pattern[0] == '^' && MatchesFrom(pattern[1..], text)
  }

  lemma {:induction false} QuoteMatches(value: string, text: string)
    ensures MatchesFrom(Quote(value) + "$", text) <==> text == value
    decreases |value|
  {
    var pattern := Quote(value) + "$";
    if value == "" {
      assert pattern == "$";
    } else {
      var skip := if Alphanumeric(value[0]) then 1 else 2;
      assert pattern[skip..] == Quote(value[1..]) + "$";
      assert pattern != "$";
      if text != "" {
        QuoteMatches(value[1..], text[1..]);
        assert text == [text[0]] + text[1..] && value == [value[0]] + value[1..];
      }
    }
  }

  /** Escapes are understood before ASCII punctuation only. */
  predicate AcceptedFrom(pattern: string)
    decreases |pattern|
  {
    if pattern == "$" then true
    else if pattern == "" then false
    else if pattern[0] == '\\' then
      |pattern| >= 2 && pattern[1] as int < 128 && !Alphanumeric(pattern[1]) && AcceptedFrom(pattern[2..])
    else Alphanumeric(pattern[0]) && AcceptedFrom(pattern[1..])
  }

  /** The server accepts the pattern. */
  predicate Accepted(pattern: string) {
    pattern != "" && pattern[0] == '^' && AcceptedFrom(pattern[1..])
  }

  predicate Ascii(s: string) {
    forall i :: 0 <= i < |s| ==> s[i] as int < 128
  }

  lemma {:induction false} QuoteAccepted(value: string)
    ensures AcceptedFrom(Quote(value) + "$") <==> Ascii(value)
    decreases |value|
  {
    var pattern := Quote(value) + "$";
    if value == "" {
      assert pattern == "$";
    } else {
      var skip := if Alphanumeric(value[0]) then 1 else 2;
      assert pattern[skip..] == Quote(value[1..]) + "$";
      assert pattern != "$";
      QuoteAccepted(value[1..]);
      assert value == [value[0]] + value[1..];
    }
  }

  /** A pattern built from a value is accepted exactly when the value is ASCII. */
  lemma ExactAccepted(value: string)
    ensures Accepted(Exact(value)) <==> Ascii(value)
  {
    QuoteAccepted(value);
    assert Exact(value)[1..] == Quote(value) + "$";
  }

  /** Issued identifiers are ASCII. */
  lemma IdsAreAscii(id: string)
    requires IsId(id)
    ensures Ascii(id)
  {
  }

  /** The pattern matches exactly the value it was built from. */
  lemma ExactMatches(value: string, text: string)
    ensures Matches(Exact(value), text) <==> text == value
  {
    QuoteMatches(value, text);
    assert Exact(value)[1..] == Quote(value) + "$";
  }
}
