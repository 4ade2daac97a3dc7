/**
 The `aes128gcm` content coding of RFC 8188 and the single-record form of RFC 8291.

 The cipher, the key derivation and the curve are parameters: `Suite` and `Curve` are
 records of functions, and `Lawful` states the only facts about them that are used.
 */
module Ece {
  import opened Prelude

  datatype Error =
    | Truncated
    | InvalidRecordSize
    | Decrypt
    | InvalidPadding
    | InvalidKeyId
    | InvalidPublicKey
    | TooLarge

  /** A 96-bit AES-GCM nonce. */
  type Nonce = n: Bytes | |n| == 12 witness seq(12, _ => 0)

  /** A 128-bit salt. */
  type Salt = s: Bytes | |s| == 16 witness seq(16, _ => 0)

  datatype Header = Header(salt: Salt, rs: nat, keyid: Bytes)

  const MIN_RS: nat := 18
  const TAG_LEN: nat := 16

  /** The key derivation and the AEAD. `open` fails on anything that does not authenticate. */
  datatype Suite = Suite(
    derive: (Bytes, Salt) -> (Bytes, Nonce),
    seal: (Bytes, Nonce, Bytes) -> Bytes,
    open: (Bytes, Nonce, Bytes) -> Option<Bytes>)
  {
    ghost predicate Lawful() {
      forall key: Bytes, nonce: Nonce, text: Bytes ::
        open(key, nonce, seal(key, nonce, text)) == Some(text)
        && |seal(key, nonce, text)| == |text| + TAG_LEN
    }
  }

  // -- Integers on the wire -------------------------------------------------

  function Pow256(width: nat): (p: nat)
    ensures p > 0
  {
    if width == 0 then 1 else 256 * Pow256(width - 1)
  }

  /** The low `width` octets of `n`, most significant first. */
  function BigEndian(n: nat, width: nat): (b: Bytes)
    ensures |b| == width
  {
    if width == 0 then [] else BigEndian(n / 256, width - 1) + [n % 256]
  }

  function FromBigEndian(b: Bytes): nat {
    if |b| == 0 then 0 else FromBigEndian(b[..|b| - 1]) * 256 + b[|b| - 1]
  }

  lemma {:induction false} BigEndianRoundTrip(n: nat, width: nat)
    requires n < Pow256(width)
    ensures FromBigEndian(BigEndian(n, width)) == n
  {
    if width > 0 {
      BigEndianRoundTrip(n / 256, width - 1);
      assert BigEndian(n, width)[..width - 1] == BigEndian(n / 256, width - 1);
    }
  }

  lemma {:induction false} FromBigEndianRoundTrip(b: Bytes)
    ensures FromBigEndian(b) < Pow256(|b|)
    ensures BigEndian(FromBigEndian(b), |b|) == b
  {
    if |b| > 0 {
      FromBigEndianRoundTrip(b[..|b| - 1]);
    }
  }

  // -- Header ---------------------------------------------------------------

  function ParseHeader(body: Bytes): Result<(Header, Bytes), Error> {
    if |body| < 21 then Err(Truncated)
    else
      var idlen: int := body[20];
      var end := 21 + idlen;
      var rs := FromBigEndian(body[16..20]);
      if |body| < end then Err(Truncated)
      else if rs < MIN_RS then Err(InvalidRecordSize)
      else Ok((Header(body[..16], rs, body[21..end]), body[end..]))
  }

  predicate ValidHeader(h: Header) {
    MIN_RS <= h.rs < Pow256(4) && |h.keyid| < 256
  }

  /** The header as section 2.1 of RFC 8188 lays it out: salt, rs, idlen, keyid. */
  function HeaderBytes(h: Header): Bytes
    requires |h.keyid| < 256
  {
    h.salt + BigEndian(h.rs, 4) + [|h.keyid|] + h.keyid
  }

  lemma HeaderParts(salt: Bytes, rs: Bytes, idlen: Octet, keyid: Bytes, data: Bytes)
    requires |salt| == 16 && |rs| == 4 && |keyid| == idlen
    ensures var body := salt + rs + [idlen] + keyid + data;
            body[..16] == salt && body[16..20] == rs && body[20] == idlen
            && body[21..21 + |keyid|] == keyid && body[21 + |keyid|..] == data
  {
  }

  /** Parsing accepts exactly the printed headers, and returns what was printed. */
  lemma ParseHeaderExact(body: Bytes, h: Header, data: Bytes)
    ensures ParseHeader(body) == Ok((h, data)) <==>
            ValidHeader(h) && body == HeaderBytes(h) + data
    ensures ValidHeader(h) <==> 18 <= h.rs < 0x1_0000_0000 && |h.keyid| < 256
  {
    assert Pow256(4) == 0x1_0000_0000;
    if ValidHeader(h) && body == HeaderBytes(h) + data {
      BigEndianRoundTrip(h.rs, 4);
      HeaderParts(h.salt, BigEndian(h.rs, 4), |h.keyid|, h.keyid, data);
    }
    if ParseHeader(body) == Ok((h, data)) {
      FromBigEndianRoundTrip(body[16..20]);
      var idlen: int := body[20];
      var end := 21 + idlen;
      assert body == body[..16] + body[16..20] + [body[20]] + body[21..end] + body[end..];
    }
  }

  // -- Nonces ---------------------------------------------------------------

  /** Exclusive or of two `bits`-bit numbers. */
  function Xor(a: nat, b: nat, bits: nat): nat {
    if bits == 0 then 0 else (a + b) % 2 + 2 * Xor(a / 2, b / 2, bits - 1)
  }

  function Pow2(bits: nat): nat {
    if bits == 0 then 1 else 2 * Pow2(bits - 1)
  }

  lemma {:induction false} XorBounded(a: nat, b: nat, bits: nat)
    ensures Xor(a, b, bits) < Pow2(bits)
  {
    if bits > 0 {
      XorBounded(a / 2, b / 2, bits - 1);
    }
  }

  lemma LowBit(a: nat, b: nat, half: nat)
    ensures var c := (a + b) % 2 + 2 * half;
            c / 2 == half && (a + c) % 2 == b % 2
  {
    var k := (a + b) / 2;
    assert a + ((a + b) % 2 + 2 * half) == b + 2 * (a - k + half);
  }

  lemma {:induction false} XorInvolutive(a: nat, b: nat, bits: nat)
    requires b < Pow2(bits)
    ensures Xor(a, Xor(a, b, bits), bits) == b
  {
    if bits > 0 {
      XorInvolutive(a / 2, b / 2, bits - 1);
      var c, half := Xor(a, b, bits), Xor(a / 2, b / 2, bits - 1);
      assert c == (a + b) % 2 + 2 * half && Xor(a, c, bits) == (a + c) % 2 + 2 * Xor(a / 2, c / 2, bits - 1);
      hide Xor;
      LowBit(a, b, half);
    }
  }

  lemma {:induction false} XorZero(a: nat, bits: nat)
    requires a < Pow2(bits)
    ensures Xor(a, 0, bits) == a
  {
    if bits > 0 {
      XorZero(a / 2, bits - 1);
    }
  }

  /** Bit `k` of the result is set exactly where the two numbers differ. */
  lemma {:induction false} XorBits(a: nat, b: nat, bits: nat, k: nat)
    requires k < bits
    ensures Bit(Xor(a, b, bits), k) <==> Bit(a, k) != Bit(b, k)
  {
    var half := Xor(a / 2, b / 2, bits - 1);
    assert Xor(a, b, bits) == (a + b) % 2 + 2 * half;
    hide Xor;
    BitAbove((a + b) % 2, half, k);
    if k == 0 {
      SumParity(a, b);
    } else {
      XorBits(a / 2, b / 2, bits - 1, k - 1);
    }
  }

  lemma SumParity(a: nat, b: nat)
    ensures (a + b) % 2 == 1 <==> (a % 2 == 1) != (b % 2 == 1)
  {
  }

  lemma BitAbove(low: nat, half: nat, k: nat)
    requires low < 2
    ensures Bit(low + 2 * half, k) <==> if k == 0 then low == 1 else Bit(half, k - 1)
  {
    var n := low + 2 * half;
    assert n / 2 == half && n % 2 == low;
  }

  /** Bit `k` of `n`, counted from the least significant. */
  predicate Bit(n: nat, k: nat) {
    if k == 0 then n % 2 == 1 else Bit(n / 2, k - 1)
  }

  /** The low `width` bits do not depend on what stands above them. */
  lemma {:induction false} LowBits(r: nat, q: nat, width: nat, k: nat)
    requires k < width
    ensures Bit(r + Pow2(width) * q, k) <==> Bit(r, k)
  {
    var p := Pow2(width - 1);
    var above := p * q;
    assert Pow2(width) * q == 2 * above by {
      assert Pow2(width) == 2 * p;
      assert (2 * p) * q == 2 * (p * q);
    }
    assert (r + 2 * above) / 2 == r / 2 + above && (r + 2 * above) % 2 == r % 2;
    if k > 0 {
      LowBits(r / 2, q, width - 1, k - 1);
    }
  }

  lemma EightDown(n: nat, k: nat)
    ensures Bit(n, k + 8) <==> Bit(n / 256, k)
  {
    var a := n / 2;
    var b := a / 2;
    var c := b / 2;
    var d := c / 2;
    assert Bit(n, k + 8) == Bit(a, k + 7) == Bit(b, k + 6) == Bit(c, k + 5) == Bit(d, k + 4);
    var e := d / 2;
    var f := e / 2;
    var g := f / 2;
    assert Bit(d, k + 4) == Bit(e, k + 3) == Bit(f, k + 2) == Bit(g, k + 1) == Bit(g / 2, k);
    assert g / 2 == n / 256;
  }

  /** Octet `j` of a number written in `width` octets holds its bits from `8 * (width - 1 - j)` on. */
  lemma {:induction false} BigEndianBits(n: nat, width: nat, j: nat, k: nat)
    requires j < width && k < 8
    ensures Bit(BigEndian(n, width)[j], k) <==> Bit(n, 8 * (width - 1 - j) + k)
  {
    if j == width - 1 {
      assert Pow2(8) == 256;
      LowBits(n % 256, n / 256, 8, k);
    } else {
      BigEndianBits(n / 256, width - 1, j, k);
      EightDown(n, 8 * (width - 2 - j) + k);
    }
  }

  function XorOctet(a: Octet, b: Octet): Octet {
    XorBounded(a, b, 8);
    assert Pow2(8) == 256;
    Xor(a, b, 8)
  }

  /** The nonce of record `i`: the base nonce XOR `i` as a 96-bit number (RFC 8188, section 2.3). */
  function NonceAt(base: Nonce, i: nat): Nonce {
    seq(12, j requires 0 <= j < 12 => XorOctet(base[j], BigEndian(i, 12)[j]))
  }

  /**
   The nonce bit by bit: a bit of octet `j` differs from that of the base nonce exactly where the
   record number has the bit at its place, counting places from the end of the nonce.
   */
  lemma NonceBits(base: Nonce, i: nat, j: nat, k: nat)
    requires j < 12 && k < 8
    ensures Bit(NonceAt(base, i)[j], k) <==> Bit(base[j], k) != Bit(i, 8 * (11 - j) + k)
  {
    XorBits(base[j], BigEndian(i, 12)[j], 8, k);
    BigEndianBits(i, 12, j, k);
  }

  /** `record_nonce`: XOR the 64-bit counter into the last eight octets of a copy. */
  method RecordNonce(base: Nonce, i: nat) returns (n: array<Octet>)
    requires i < Pow256(8)
    ensures fresh(n) && n[..] == NonceAt(base, i)
  {
    n := new Octet[12](j requires 0 <= j < 12 => base[j]);
    var counter := BigEndian(i, 8);
    for j := 0 to 8
      invariant forall k :: 0 <= k < 12 ==>
        n[k] == if 4 <= k < 4 + j then XorOctet(base[k], counter[k - 4]) else base[k]
    {
      n[4 + j] := XorOctet(n[4 + j], counter[j]);
    }
    PaddedBy(i, 8, 4);
    assert Pow2(8) == 256;
    forall k | 0 <= k < 12 ensures n[k] == NonceAt(base, i)[k] {
      if k < 4 { XorZero(base[k], 8); }
    }
  }

  /** A counter that fits `width` octets only gains leading zeros when written wider. */
  lemma {:induction false} PaddedBy(i: nat, width: nat, extra: nat)
    requires i < Pow256(width)
    ensures BigEndian(i, width + extra) == seq(extra, _ => 0) + BigEndian(i, width)
  {
    if width == 0 {
      if extra > 0 {
        PaddedBy(i, 0, extra - 1);
      }
    } else {
      PaddedBy(i / 256, width - 1, extra);
    }
  }

  /** Record nonces never repeat under one key, and record 0 uses the base nonce itself. */
  lemma NonceInjective(base: Nonce, i: nat, j: nat)
    requires i < Pow256(12) && j < Pow256(12)
    ensures NonceAt(base, i) == NonceAt(base, j) <==> i == j
    ensures NonceAt(base, 0) == base
  {
    assert Pow2(8) == 256;
    if NonceAt(base, i) == NonceAt(base, j) {
      forall k | 0 <= k < 12 ensures BigEndian(i, 12)[k] == BigEndian(j, 12)[k] {
        assert NonceAt(base, i)[k] == NonceAt(base, j)[k];
        XorInvolutive(base[k], BigEndian(i, 12)[k], 8);
        XorInvolutive(base[k], BigEndian(j, 12)[k], 8);
      }
      assert BigEndian(i, 12) == BigEndian(j, 12);
      BigEndianRoundTrip(i, 12);
      BigEndianRoundTrip(j, 12);
    }
    PaddedBy(0, 0, 12);
    forall k | 0 <= k < 12 ensures NonceAt(base, 0)[k] == base[k] {
      XorZero(base[k], 8);
    }
  }

  // -- Records --------------------------------------------------------------

  function Zeros(n: nat): (z: Bytes)
    ensures |z| == n && forall i :: 0 <= i < n ==> z[i] == 0
  {
    seq(n, _ => 0)
  }

  /** Undo the padding: everything before the last non-zero octet, and that octet. */
  function StripPadding(text: Bytes): Option<(Bytes, Octet)> {
    if |text| == 0 then None
    else if text[|text| - 1] != 0 then Some((text[..|text| - 1], text[|text| - 1]))
    else StripPadding(text[..|text| - 1])
  }

  /** Stripping succeeds exactly on data, a non-zero delimiter and any run of zeros. */
  lemma {:induction false} StripPaddingInverts(content: Bytes, delimiter: Octet, padding: nat)
    requires delimiter != 0
    ensures StripPadding(content + [delimiter] + Zeros(padding)) == Some((content, delimiter))
  {
    var text := content + [delimiter] + Zeros(padding);
    if padding == 0 {
      assert text[..|text| - 1] == content;
    } else {
      assert text[|text| - 1] == Zeros(padding)[padding - 1];
      assert text[..|text| - 1] == content + [delimiter] + Zeros(padding - 1);
      StripPaddingInverts(content, delimiter, padding - 1);
    }
  }

  /** What stripping returns stands before the last octet that is not zero; it fails exactly when all are. */
  lemma {:induction false} StripPaddingSound(text: Bytes) returns (padding: nat)
    ensures StripPadding(text).None? <==> text == Zeros(|text|)
    ensures StripPadding(text).Some? ==>
              var (content, delimiter) := StripPadding(text).value;
              delimiter != 0 && text == content + [delimiter] + Zeros(padding)
  {
    if |text| == 0 || text[|text| - 1] != 0 {
      padding := 0;
    } else {
      var front := text[..|text| - 1];
      var less := StripPaddingSound(front);
      padding := less + 1;
      if front == Zeros(|front|) {
        assert text == Zeros(|text|);
      }
      if text == Zeros(|text|) {
        assert front == Zeros(|front|);
      }
    }
  }

  /** `open_record`, as a function of its inputs. */
  function OpenRecord(c: Suite, key: Bytes, nonce: Nonce, i: nat, record: Bytes): Result<(Bytes, Octet), Error> {
    match c.open(key, NonceAt(nonce, i), record)
    case None => Err(Decrypt)
    case Some(text) =>
      match StripPadding(text)
      case None => Err(InvalidPadding)
      case Some(found) => Ok(found)
  }

  /** What decrypting `data` from record number `i` on returns. */
  function DecryptFrom(c: Suite, key: Bytes, nonce: Nonce, rs: nat, i: nat, data: Bytes): Result<Bytes, Error>
    requires rs > 0
    decreases |data|
  {
    if |data| == 0 then Err(Truncated)
    else
      var n := if |data| < rs then |data| else rs;
      match OpenRecord(c, key, nonce, i, data[..n])
      case Err(e) => Err(e)
      case Ok((text, delimiter)) =>
        if delimiter == 2 && n == |data| then Ok(text)
        else if delimiter == 1 && n < |data| then
          match DecryptFrom(c, key, nonce, rs, i + 1, data[n..])
          case Err(e) => Err(e)
          case Ok(rest) => Ok(text + rest)
        else Err(InvalidPadding)
  }

  /** From some record on, `Truncated` means that there was no record at all. */
  lemma {:induction false} TruncatedFrom(c: Suite, key: Bytes, nonce: Nonce, rs: nat, i: nat, data: Bytes)
    requires rs > 0
    ensures DecryptFrom(c, key, nonce, rs, i, data) == Err(Truncated) <==> data == []
    decreases |data|
  {
    if |data| > rs {
      TruncatedFrom(c, key, nonce, rs, i + 1, data[rs..]);
    }
  }

  /** A body is reported as truncated exactly when its header is cut short or no record follows it. */
  lemma TruncatedExactly(c: Suite, ikm: Bytes, body: Bytes)
    ensures Decrypted(c, ikm, body) == Err(Truncated) <==>
            |body| < 21 || |body| - 21 < body[20] || (ParseHeader(body).Ok? && |body| - 21 == body[20])
  {
    if ParseHeader(body).Ok? {
      var (h, data) := ParseHeader(body).value;
      var (key, nonce) := c.derive(ikm, h.salt);
      TruncatedFrom(c, key, nonce, h.rs, 0, data);
    }
  }

  function Decrypted(c: Suite, ikm: Bytes, body: Bytes): Result<Bytes, Error> {
    match ParseHeader(body)
    case Err(e) => Err(e)
    case Ok((h, data)) =>
      var (key, nonce) := c.derive(ikm, h.salt);
      DecryptFrom(c, key, nonce, h.rs, 0, data)
  }

  /** `open_record`: decrypt, then search backwards for the delimiter. */
  method OpenRecordLoop(c: Suite, key: Bytes, nonce: Nonce, i: nat, record: Bytes)
    returns (r: Result<(Bytes, Octet), Error>)
    requires i < Pow256(8)
    ensures r == OpenRecord(c, key, nonce, i, record)
  {
    var n := RecordNonce(nonce, i);
    var found := c.open(key, n[..], record);
    if found.None? {
      return Err(Decrypt);
    }
    var text := found.value;
    var end := |text|;
    assert text[..end] == text;
    while end > 0 && text[end - 1] == 0
      invariant 0 <= end <= |text|
      invariant StripPadding(text) == StripPadding(text[..end])
    {
      assert text[..end][..end - 1] == text[..end - 1];
      end := end - 1;
    }
    if end == 0 {
      return Err(InvalidPadding);
    }
    assert text[..end][..end - 1] == text[..end - 1];
    r := Ok((text[..end - 1], text[end - 1]));
  }

  /** `decrypt`. A Rust slice is shorter than 2^63, so the record counter cannot overflow. */
  method DecryptBody(c: Suite, ikm: Bytes, body: Bytes) returns (r: Result<Bytes, Error>)
    requires 2 * |body| < Pow256(8)
    ensures r == Decrypted(c, ikm, body)
  {
    var parsed := ParseHeader(body);
    if parsed.Err? {
      return Err(parsed.error);
    }
    var (h, data) := parsed.value;
    var (key, nonce) := c.derive(ikm, h.salt);
    var rs, i, out := h.rs, 0, [];
    assert forall rest: Bytes :: out + rest == rest;
    while true
      invariant rs == h.rs && i + |data| <= |body|
      invariant Decrypted(c, ikm, body) ==
                match DecryptFrom(c, key, nonce, rs, i, data)
                case Err(e) => Err(e)
                case Ok(rest) => Ok(out + rest)
      decreases |data|
    {
      if |data| == 0 {
        return Err(Truncated);
      }
      var n := if |data| < rs then |data| else rs;
      var found := OpenRecordLoop(c, key, nonce, i, data[..n]);
      if found.Err? {
        return Err(found.error);
      }
      var (text, delimiter) := found.value;
      ghost var before := out;
      out := out + text;
      if delimiter == 2 && n == |data| {
        return Ok(out);
      }
      if !(delimiter == 1 && n < |data|) {
        return Err(InvalidPadding);
      }
      assert forall rest: Bytes :: before + (text + rest) == out + rest;
      data := data[n..];
      i := i + 1;
    }
  }

  // -- The language RFC 8188 defines ----------------------------------------

  /** One record: the sealed octets, its content, and how many zeros pad it. */
  datatype Record = Record(sealed: Bytes, content: Bytes, padding: nat)

  /** `records` are well formed when their numbering starts at `first`. */
  ghost predicate RfcRecords(c: Suite, key: Bytes, nonce: Nonce, rs: nat, first: nat, records: seq<Record>) {
    |records| > 0
    && (forall j :: 0 <= j < |records| - 1 ==> |records[j].sealed| == rs)
    && 0 < |records[|records| - 1].sealed| <= rs
    && forall j :: 0 <= j < |records| ==>
         c.open(key, NonceAt(nonce, first + j), records[j].sealed)
         == Some(records[j].content + [if j == |records| - 1 then 2 else 1] + Zeros(records[j].padding))
  }

  function Sealed(records: seq<Record>): Bytes {
    if |records| == 0 then [] else records[0].sealed + Sealed(records[1..])
  }

  function Content(records: seq<Record>): Bytes {
    if |records| == 0 then [] else records[0].content + Content(records[1..])
  }

  /** `body` is an `aes128gcm` body for `out`: a header and well-formed records. */
  ghost predicate RfcBody(c: Suite, ikm: Bytes, body: Bytes, out: Bytes) {
    exists h: Header, records: seq<Record> ::
      ValidHeader(h)
      && body == HeaderBytes(h) + Sealed(records)
      && out == Content(records)
      && RfcRecords(c, c.derive(ikm, h.salt).0, c.derive(ikm, h.salt).1, h.rs, 0, records)
  }

  lemma {:induction false} AcceptedRecords(c: Suite, key: Bytes, nonce: Nonce, rs: nat, i: nat, data: Bytes)
    returns (records: seq<Record>)
    requires rs > 0 && DecryptFrom(c, key, nonce, rs, i, data).Ok?
    ensures RfcRecords(c, key, nonce, rs, i, records)
    ensures Sealed(records) == data
    ensures DecryptFrom(c, key, nonce, rs, i, data) == Ok(Content(records))
    decreases |data|
  {
    var n := if |data| < rs then |data| else rs;
    var text := c.open(key, NonceAt(nonce, i), data[..n]).value;
    var (content, delimiter) := StripPadding(text).value;
    var padding := StripPaddingSound(text);
    var head := Record(data[..n], content, padding);
    if n == |data| {
      records := [head];
      assert Sealed(records) == data[..n] == data;
      assert Content(records) == content;
    } else {
      var rest := AcceptedRecords(c, key, nonce, rs, i + 1, data[n..]);
      records := [head] + rest;
      assert records[1..] == rest;
      OneMoreRecord(c, key, nonce, rs, i, head, rest);
    }
  }

  /** A full record with delimiter 1 may be put before well-formed records. */
  lemma OneMoreRecord(c: Suite, key: Bytes, nonce: Nonce, rs: nat, i: nat, head: Record, rest: seq<Record>)
    requires RfcRecords(c, key, nonce, rs, i + 1, rest) && |head.sealed| == rs
    requires c.open(key, NonceAt(nonce, i), head.sealed) == Some(head.content + [1] + Zeros(head.padding))
    ensures RfcRecords(c, key, nonce, rs, i, [head] + rest)
  {
    hide NonceAt, Zeros;
    var records := [head] + rest;
    forall j | 0 <= j < |records|
      ensures c.open(key, NonceAt(nonce, i + j), records[j].sealed)
           == Some(records[j].content + [if j == |records| - 1 then 2 else 1] + Zeros(records[j].padding))
    {
      if j > 0 {
        assert records[j] == rest[j - 1] && i + j == i + 1 + (j - 1);
      }
    }
  }

  lemma {:induction false} RecordsAccepted(c: Suite, key: Bytes, nonce: Nonce, rs: nat, i: nat, records: seq<Record>)
    requires rs > 0 && RfcRecords(c, key, nonce, rs, i, records)
    ensures DecryptFrom(c, key, nonce, rs, i, Sealed(records)) == Ok(Content(records))
    decreases |records|
  {
    var head, data := records[0], Sealed(records);
    assert c.open(key, NonceAt(nonce, i + 0), head.sealed).Some?;
    StripPaddingInverts(head.content, if |records| == 1 then 2 else 1, head.padding);
    assert data[..|head.sealed|] == head.sealed;
    if |records| == 1 {
      assert data == head.sealed;
      assert Content(records) == head.content;
    } else {
      var rest := records[1..];
      forall j | 0 <= j < |rest|
        ensures c.open(key, NonceAt(nonce, i + 1 + j), rest[j].sealed)
             == Some(rest[j].content + [if j == |rest| - 1 then 2 else 1] + Zeros(rest[j].padding))
      {
        assert rest[j] == records[j + 1] && i + 1 + j == i + (j + 1);
      }
      RecordsAccepted(c, key, nonce, rs, i + 1, rest);
      assert |Sealed(rest)| > 0;
      assert data[|head.sealed|..] == Sealed(rest);
    }
  }

  /** `decrypt` accepts exactly the language of section 2 of RFC 8188, with its data. */
  lemma DecryptIsRfcLanguage(c: Suite, ikm: Bytes, body: Bytes, out: Bytes)
    ensures Decrypted(c, ikm, body) == Ok(out) <==> RfcBody(c, ikm, body, out)
  {
    if Decrypted(c, ikm, body) == Ok(out) {
      var (h, data) := ParseHeader(body).value;
      ParseHeaderExact(body, h, data);
      var (key, nonce) := c.derive(ikm, h.salt);
      var records := AcceptedRecords(c, key, nonce, h.rs, 0, data);
    }
    if RfcBody(c, ikm, body, out) {
      var h, records :|
        ValidHeader(h)
        && body == HeaderBytes(h) + Sealed(records)
        && out == Content(records)
        && RfcRecords(c, c.derive(ikm, h.salt).0, c.derive(ikm, h.salt).1, h.rs, 0, records);
      ParseHeaderExact(body, h, Sealed(records));
      RecordsAccepted(c, c.derive(ikm, h.salt).0, c.derive(ikm, h.salt).1, h.rs, 0, records);
    }
  }

  lemma Multiples(k: nat, rs: nat)
    requires k > 0
    ensures k * rs == rs + (k - 1) * rs
    ensures (k - 1) * rs >= if k > 1 then rs else 0
  {
    if k > 1 {
      assert (k - 2) * rs >= 0;
    }
  }

  /** An accepted run of records cut between two records is rejected. */
  lemma {:induction false} CutRecordsRejected(
    c: Suite, key: Bytes, nonce: Nonce, rs: nat, i: nat, data: Bytes, kept: nat, length: nat)
    requires rs > 0 && DecryptFrom(c, key, nonce, rs, i, data).Ok?
    requires length == kept * rs < |data|
    ensures DecryptFrom(c, key, nonce, rs, i, data[..length])
         == Err(if kept == 0 then Truncated else InvalidPadding)
    decreases kept
  {
    if kept > 0 {
      Multiples(kept, rs);
      var cut := data[..length];
      assert cut[..rs] == data[..rs];
      CutRecordsRejected(c, key, nonce, rs, i + 1, data[rs..], kept - 1, length - rs);
      assert cut[rs..] == data[rs..][..length - rs];
    }
  }

  /** Appending to an accepted run whose last record is full is rejected. */
  lemma {:induction false} ExtendedRecordsRejected(
    c: Suite, key: Bytes, nonce: Nonce, rs: nat, i: nat, data: Bytes, full: nat, extra: Bytes)
    requires rs > 0 && DecryptFrom(c, key, nonce, rs, i, data).Ok?
    requires |data| == full * rs && |extra| > 0
    ensures DecryptFrom(c, key, nonce, rs, i, data + extra) == Err(InvalidPadding)
    decreases full
  {
    Multiples(full, rs);
    var longer := data + extra;
    assert longer[..rs] == data[..rs];
    if full > 1 {
      ExtendedRecordsRejected(c, key, nonce, rs, i + 1, data[rs..], full - 1, extra);
      assert longer[rs..] == data[rs..] + extra;
    }
  }

  /**
   Truncation detection (section 4.2 of RFC 8188). Every proper prefix of an accepted body
   that ends at a record boundary is refused, and so is any extension after a full last record.
   */
  lemma TruncationDetected(c: Suite, ikm: Bytes, body: Bytes, kept: nat, extra: Bytes)
    requires Decrypted(c, ikm, body).Ok?
    ensures var (h, data) := ParseHeader(body).value;
            var start := |body| - |data|;
            (kept * h.rs < |data| ==>
               0 <= kept * h.rs
               && Decrypted(c, ikm, body[..start + kept * h.rs])
                  == Err(if kept == 0 then Truncated else InvalidPadding))
            && (|data| == kept * h.rs && |extra| > 0 ==>
                  Decrypted(c, ikm, body + extra) == Err(InvalidPadding))
  {
    var (h, data) := ParseHeader(body).value;
    var start := |body| - |data|;
    var (key, nonce) := c.derive(ikm, h.salt);
    ParseHeaderExact(body, h, data);
    if kept * h.rs < |data| {
      assert kept * h.rs >= 0;
      CutRecordsRejected(c, key, nonce, h.rs, 0, data, kept, kept * h.rs);
      var cut := data[..kept * h.rs];
      assert body[..start + kept * h.rs] == HeaderBytes(h) + cut;
      ParseHeaderExact(HeaderBytes(h) + cut, h, cut);
    }
    if |data| == kept * h.rs && |extra| > 0 {
      ExtendedRecordsRejected(c, key, nonce, h.rs, 0, data, kept, extra);
      assert body + extra == HeaderBytes(h) + (data + extra);
      ParseHeaderExact(body + extra, h, data + extra);
    }
  }

  // -- Encryption -----------------------------------------------------------

  /** `encrypt`: one record, delimiter 2, no padding. */
  method Encrypt(c: Suite, ikm: Bytes, salt: Salt, rs: nat, keyid: Bytes, plaintext: Bytes)
    returns (r: Result<Bytes, Error>)
    requires rs < Pow256(4)
    ensures r == Encrypted(c, ikm, salt, rs, keyid, plaintext)
  {
    if rs < MIN_RS {
      return Err(InvalidRecordSize);
    }
    if |keyid| >= 256 {
      return Err(InvalidKeyId);
    }
    if |plaintext| + 1 + TAG_LEN > rs {
      return Err(TooLarge);
    }
    var (key, nonce) := c.derive(ikm, salt);
    var record := plaintext;
    record := record + [2];
    var sealed := c.seal(key, nonce, record);
    var body: Bytes := [];
    body := body + salt;
    body := body + BigEndian(rs, 4);
    body := body + [|keyid|];
    body := body + keyid;
    body := body + sealed;
    assert body == HeaderBytes(Header(salt, rs, keyid)) + sealed;
    r := Ok(body);
  }

  function Encrypted(c: Suite, ikm: Bytes, salt: Salt, rs: nat, keyid: Bytes, plaintext: Bytes): Result<Bytes, Error> {
    if rs < MIN_RS then Err(InvalidRecordSize)
    else if |keyid| >= 256 then Err(InvalidKeyId)
    else if |plaintext| + 1 + TAG_LEN > rs then Err(TooLarge)
    else
      var (key, nonce) := c.derive(ikm, salt);
      Ok(HeaderBytes(Header(salt, rs, keyid)) + c.seal(key, nonce, plaintext + [2]))
  }

  /** Encryption succeeds exactly when the record fits; decryption then gives the plaintext back. */
  lemma EncryptDecryptRoundTrip(c: Suite, ikm: Bytes, salt: Salt, rs: nat, keyid: Bytes, plaintext: Bytes)
    requires c.Lawful() && rs < Pow256(4)
    ensures var r := Encrypted(c, ikm, salt, rs, keyid, plaintext);
            (r.Ok? <==> MIN_RS <= rs && |keyid| <= 255 && |plaintext| + 17 <= rs)
            && (r.Ok? ==> |r.value| == 21 + |keyid| + |plaintext| + 17
                          && Decrypted(c, ikm, r.value) == Ok(plaintext))
  {
    var r := Encrypted(c, ikm, salt, rs, keyid, plaintext);
    if r.Ok? {
      var (key, nonce) := c.derive(ikm, salt);
      var sealed := c.seal(key, nonce, plaintext + [2]);
      var records := [Record(sealed, plaintext, 0)];
      NonceInjective(nonce, 0, 0);
      assert plaintext + [2] + Zeros(0) == plaintext + [2];
      assert records[1..] == [];
      assert sealed + Sealed([]) == sealed && plaintext + Content([]) == plaintext;
      assert Sealed(records) == sealed && Content(records) == plaintext;
      assert RfcRecords(c, key, nonce, rs, 0, records);
      var h := Header(salt, rs, keyid);
      assert r.value == HeaderBytes(h) + Sealed(records);
      DecryptIsRfcLanguage(c, ikm, r.value, plaintext);
    }
  }

  // -- RFC 8291 -------------------------------------------------------------

  /** P-256 and the RFC 8291 key derivation. `publicOf` is absent for an invalid scalar. */
  datatype Curve = Curve(
    publicOf: Bytes -> Option<Bytes>,
    onCurve: Bytes -> bool,
    ecdh: (Bytes, Bytes) -> Bytes,
    ikm: (Bytes, Bytes, Bytes, Bytes) -> Bytes)
  {
    /** Public keys are uncompressed points, and Diffie-Hellman agrees on both sides. */
    ghost predicate Lawful() {
      (forall sk: Bytes :: publicOf(sk).Some? ==>
         var pk := publicOf(sk).value;
         |pk| == 65 && pk[0] == 4 && onCurve(pk))
      && (forall a: Bytes, b: Bytes :: publicOf(a).Some? && publicOf(b).Some? ==>
            ecdh(a, publicOf(b).value) == ecdh(b, publicOf(a).value))
    }
  }

  const WEBPUSH_RS: nat := 4096

  /** `webpush::encrypt`. */
  function WebPushEncrypted(
    c: Suite, curve: Curve, uaPublic: Bytes, auth: Bytes, asPrivate: Bytes, salt: Salt, plaintext: Bytes)
    : Result<Bytes, Error>
  {
    if !curve.onCurve(uaPublic) then Err(InvalidPublicKey)
    else
      match curve.publicOf(asPrivate)
      case None => Err(InvalidKeyId)
      case Some(asPublic) =>
        var ikm := curve.ikm(curve.ecdh(asPrivate, uaPublic), auth, uaPublic, asPublic);
        Encrypted(c, ikm, salt, WEBPUSH_RS, asPublic, plaintext)
  }

  /** `webpush::decrypt`: one record, whatever `rs` the header carries. */
  function WebPushDecrypted(c: Suite, curve: Curve, uaPrivate: Bytes, auth: Bytes, body: Bytes): Result<Bytes, Error> {
    match ParseHeader(body)
    case Err(e) => Err(e)
    case Ok((h, record)) =>
      if |h.keyid| != 65 || h.keyid[0] != 4 then Err(InvalidKeyId)
      else if !curve.onCurve(h.keyid) then Err(InvalidPublicKey)
      else
        match curve.publicOf(uaPrivate)
        case None => Err(Decrypt)
        case Some(uaPublic) =>
          var ikm := curve.ikm(curve.ecdh(uaPrivate, h.keyid), auth, uaPublic, h.keyid);
          var (key, nonce) := c.derive(ikm, h.salt);
          match OpenRecord(c, key, nonce, 0, record)
          case Err(e) => Err(e)
          case Ok((text, delimiter)) => if delimiter == 2 then Ok(text) else Err(InvalidPadding)
  }

  /**
   A push message survives the trip for every plaintext of at most 4079 octets, which is what
   the code accepts; the limit of 4096 octets that RFC 8030 sets for bodies is kept exactly when
   the plaintext has at most 3993.
   */
  lemma WebPushRoundTrip(
    c: Suite, curve: Curve, uaPrivate: Bytes, auth: Bytes, asPrivate: Bytes, salt: Salt, plaintext: Bytes)
    requires c.Lawful() && curve.Lawful()
    requires curve.publicOf(uaPrivate).Some? && curve.publicOf(asPrivate).Some?
    ensures var r := WebPushEncrypted(c, curve, curve.publicOf(uaPrivate).value, auth, asPrivate, salt, plaintext);
            (r.Ok? <==> |plaintext| <= 4079)
            && (r.Ok? ==> WebPushDecrypted(c, curve, uaPrivate, auth, r.value) == Ok(plaintext)
                          && (|r.value| <= 4096 <==> |plaintext| <= 3993))
  {
    var uaPublic, asPublic := curve.publicOf(uaPrivate).value, curve.publicOf(asPrivate).value;
    var ikm := curve.ikm(curve.ecdh(asPrivate, uaPublic), auth, uaPublic, asPublic);
    assert Pow256(4) == 0x1_0000_0000;
    EncryptDecryptRoundTrip(c, ikm, salt, WEBPUSH_RS, asPublic, plaintext);
    if |plaintext| <= 4079 {
      var h := Header(salt, WEBPUSH_RS, asPublic);
      var (key, nonce) := c.derive(ikm, salt);
      var sealed := c.seal(key, nonce, plaintext + [2]);
      ParseHeaderExact(HeaderBytes(h) + sealed, h, sealed);
      NonceInjective(nonce, 0, 0);
      StripPaddingInverts(plaintext, 2, 0);
      assert plaintext + [2] + Zeros(0) == plaintext + [2];
    }
  }
}
