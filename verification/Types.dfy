/** The values the stores hold, and the shapes of the identifiers the service issues. */
module Types {
  import opened Prelude

  datatype BridgeAddress = BridgeAddress(bridge: string, appId: string, token: string)

  datatype UserAgent = UserAgent(uaid: string, bridge: Option<BridgeAddress>, lastSeen: nat)

  datatype Subscription = Subscription(uaid: string, channelId: string, push: string, vapid: Option<string>)

  datatype Urgency = VeryLow | Low | Normal | High

  datatype Message = Message(
    id: string,
    uaid: string,
    channelId: string,
    push: string,
    topic: Option<string>,
    body: string,
    ctype: Option<string>,
    cenc: Option<string>,
    ttl: nat,
    urgency: Urgency,
    accepted: nat,
    expiry: nat,
    rsub: Option<string>)

  datatype Receipt = Receipt(rsub: string, msgId: string, status: nat)

  /** Who may have a listener: a user agent or a receipt subscription. */
  datatype Recipient = UserAgentAt(uaid: string) | ReceiptsOf(rsub: string)

  const U64: nat := 0x1_0000_0000_0000_0000
  const U32: nat := 0x1_0000_0000
  const U16: nat := 0x1_0000

  predicate LowerHex(c: char) {
    '0' <= c <= '9' || 'a' <= c <= 'f'
  }

  predicate Base64Url(c: char) {
    '0' <= c <= '9' || 'a' <= c <= 'z' || 'A' <= c <= 'Z' || c == '-' || c == '_'
  }

  /** `is_uaid`: 32 lowercase hexadecimal characters. */
  predicate IsUaid(s: string) {
    |s| == 32 && forall i :: 0 <= i < |s| ==> LowerHex(s[i])
  }

  /** `is_id`: the base64url form of 16 octets, by length and alphabet. */
  predicate IsId(s: string) {
    |s| == 22 && forall i :: 0 <= i < |s| ==> Base64Url(s[i])
  }

  /** A lowercase hyphenated UUID. */
  predicate IsChannel(s: string) {
    |s| == 36
    && forall i :: 0 <= i < |s| ==>
         if i == 8 || i == 13 || i == 18 || i == 23 then s[i] == '-' else LowerHex(s[i])
  }

  predicate IsTopic(s: string) {
    1 <= |s| <= 32 && forall i :: 0 <= i < |s| ==> Base64Url(s[i])
  }

  /** What the service puts into a message before it stores it. */
  predicate WellFormed(m: Message) {
    IsId(m.id) && IsUaid(m.uaid) && IsChannel(m.channelId)
    && (m.topic.Some? ==> IsTopic(m.topic.value))
    && m.ttl < U32 && m.accepted < U64 && m.expiry < U64
    && (m.rsub.Some? ==> IsId(m.rsub.value))
  }

  // -- Order ----------------------------------------------------------------

  /** Strict lexicographic order, as Rust compares `str` and Bigtable compares keys. */
  predicate Below(a: string, b: string)
    decreases |a|
  {
    b != "" && (a == "" || a[0] < b[0] || (a[0] == b[0] && Below(a[1..], b[1..])))
  }

  lemma {:induction false} BelowTotal(a: string, b: string)
    ensures a == b || Below(a, b) || Below(b, a)
    ensures !(Below(a, b) && Below(b, a)) && !Below(a, a)
    decreases |a|
  {
    if a != "" && b != "" {
      BelowTotal(a[1..], b[1..]);
      BelowTotal(a[1..], a[1..]);
      if a[0] == b[0] && a[1..] == b[1..] {
        assert a == [a[0]] + a[1..] && b == [b[0]] + b[1..];
      }
    } else if a != "" {
      BelowTotal(a[1..], a[1..]);
    }
  }

  lemma {:induction false} BelowTransitive(a: string, b: string, c: string)
    requires Below(a, b) && Below(b, c)
    ensures Below(a, c)
    decreases |a|
  {
    if a != "" && a[0] == b[0] && b[0] == c[0] {
      BelowTransitive(a[1..], b[1..], c[1..]);
    }
  }

  /** Backlog order: acceptance time, then id. */
  predicate Older(a: Message, b: Message) {
    a.accepted < b.accepted || (a.accepted == b.accepted && Below(a.id, b.id))
  }

  predicate OldestFirst(list: seq<Message>) {
    forall i, j :: 0 <= i < j < |list| ==> Older(list[i], list[j])
  }

  lemma OlderTotal(a: Message, b: Message)
    ensures a.id != b.id ==> Older(a, b) || Older(b, a)
    ensures !(Older(a, b) && Older(b, a)) && !Older(a, a)
  {
    BelowTotal(a.id, b.id);
    BelowTotal(a.id, a.id);
  }

  lemma OlderTransitive(a: Message, b: Message, c: Message)
    requires Older(a, b) && Older(b, c)
    ensures Older(a, c)
  {
    if a.accepted == b.accepted && b.accepted == c.accepted {
      BelowTransitive(a.id, b.id, c.id);
    }
  }

  /** `sort_by` on messages with distinct ids: the same messages, oldest first. */
  method SortByAge(list: seq<Message>) returns (sorted: seq<Message>)
    requires forall i, j :: 0 <= i < j < |list| ==> list[i].id != list[j].id
    ensures OldestFirst(sorted)
    ensures forall m :: m in sorted <==> m in list
  {
    sorted := [];
    for n := 0 to |list|
      invariant OldestFirst(sorted)
      invariant forall m :: m in sorted <==> m in list[..n]
    {
      var k := 0;
      while k < |sorted| && Older(sorted[k], list[n])
        invariant 0 <= k <= |sorted|
        invariant forall i :: 0 <= i < k ==> Older(sorted[i], list[n])
      {
        k := k + 1;
      }
      forall m | m in sorted ensures m.id != list[n].id {
        var i :| 0 <= i < n && list[..n][i] == m;
      }
      InsertKeepsOrder(sorted, list[n], k);
      assert list[..n + 1] == list[..n] + [list[n]];
      sorted := sorted[..k] + [list[n]] + sorted[k..];
    }
    assert list[..|list|] == list;
  }

  lemma InsertKeepsOrder(sorted: seq<Message>, m: Message, k: nat)
    requires OldestFirst(sorted) && k <= |sorted|
    requires forall x :: x in sorted ==> x.id != m.id
    requires forall i :: 0 <= i < k ==> Older(sorted[i], m)
    requires k < |sorted| ==> !Older(sorted[k], m)
    ensures OldestFirst(sorted[..k] + [m] + sorted[k..])
    ensures forall x :: x in sorted[..k] + [m] + sorted[k..] <==> x == m || x in sorted
  {
    var all := sorted[..k] + [m] + sorted[k..];
    assert sorted == sorted[..k] + sorted[k..];
    forall i | k <= i < |sorted| ensures Older(m, sorted[i]) {
      OlderTotal(sorted[k], m);
      if i > k {
        OlderTransitive(m, sorted[k], sorted[i]);
      }
    }
    forall i, j | 0 <= i < j < |all| ensures Older(all[i], all[j]) {}
  }
}
