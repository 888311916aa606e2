/**
 Hubla payloads, and the rewrite of version 1 payloads into the form the handler reads.
 */
module HublaPayloads {
  import opened Wrappers
  import opened Texts
  import opened EventTypes

  /** The flat fields of a version 1 event. */
  datatype FlatSale = FlatSale(
    transactionId: string, paidAt: string, paymentMethod: string,
    userPhone: string, userEmail: string, userName: string, userDocument: string,
    groupId: string, groupName: string)

  datatype Payer = Payer(phone: string, email: string, firstName: string, lastName: string, document: string)

  datatype Subscription = Subscription(id: string, activatedAt: string, status: string, paymentMethod: string, payer: Payer)

  datatype Product = Product(id: string, name: string)

  datatype Payload = Payload(
    version: string, eventType: string, flat: FlatSale,
    subscription: Subscription, products: seq<Product>, product: Product, fromNow: bool)

  const NO_SALE := FlatSale("", "", "", "", "", "", "", "", "")

  predicate IsV1(p: Payload) {
    |p.version| >= 2 && p.version[0] == '1' && p.version[1] == '.'
  }

  function V1Target(x: string): Option<(string, string)> {
    if x == "NewSale" then Some(("subscription.activated", "active"))
    else if x == "Renewal" then Some(("subscription.activated", "active"))
    else if x == "Canceled" then Some(("subscription.deactivated", "canceled"))
    else if x == "Expired" then Some(("subscription.expiring", "expired"))
    else if x == "ChargedBack" then Some(("invoice.refunded", "chargeback"))
    else if x == "Refund" then Some(("invoice.refunded", "refunded"))
    else if x == "AbandonedCart" then Some(("lead.abandoned_checkout", "abandoned"))
    else None
  }

  /** The rewrite as its documentation tabulates it. */
  const V1_TABLE: map<string, (string, string)> :=
    map[
      "NewSale" := ("subscription.activated", "active"),
      "Renewal" := ("subscription.activated", "active"),
      "Canceled" := ("subscription.deactivated", "canceled"),
      "Expired" := ("subscription.expiring", "expired"),
      "ChargedBack" := ("invoice.refunded", "chargeback"),
      "Refund" := ("invoice.refunded", "refunded"),
      "AbandonedCart" := ("lead.abandoned_checkout", "abandoned")]

  /** The code's two dictionaries are its documentation's two tables. */
  lemma V1TargetIsTable(x: string)
    ensures V1Target(x) == if x in V1_TABLE then Some(V1_TABLE[x]) else None
  {
  }

  const V1_NAMES: set<string> :=
    {"NewSale", "Renewal", "Canceled", "Expired", "ChargedBack", "Refund", "AbandonedCart"}

  /**
   The rewrite covers exactly the version 1 names, lands in the official catalogue, and its type
   and status together forget only the difference between a sale and a renewal.
   */
  lemma V1TargetFacts(x: string, y: string)
    ensures V1Target(x).Some? <==> x in V1_NAMES
    ensures V1Target(x).Some? ==> IsOfficial(V1Target(x).value.0)
    ensures V1Target(x).Some? && V1Target(x) == V1Target(y) ==>
      x == y || (x in {"NewSale", "Renewal"} && y in {"NewSale", "Renewal"})
  {
  }

  lemma V1TargetStays(x: string)
    requires V1Target(x).Some?
    ensures Normalize(V1Target(x).value.0) == V1Target(x).value.0
  {
    MigrationIsNormalize(V1Target(x).value.0);
    V1TargetFacts(x, x);
  }

  function FirstSpace(s: string): nat
    ensures FirstSpace(s) <= |s| && (FirstSpace(s) < |s| ==> s[FirstSpace(s)] == ' ')
  {
    if s == "" || s[0] == ' ' then 0 else 1 + FirstSpace(s[1..])
  }

  /** "First Last" cut at the first space; without one there is no last name. */
  function SplitName(name: string): (string, string) {
    var k := FirstSpace(name);
    if k < |name| then (name[..k], name[k + 1..]) else (name, "")
  }

  function NormalizeV1(p: Payload): Payload {
    if !IsV1(p) then p
    else
      match V1Target(p.eventType)
      case None => p
      case Some((eventType, status)) =>
        var name := SplitName(Strip(p.flat.userName));
        Payload(
          "1.0.0-normalized", eventType, NO_SALE,
          Subscription(
            p.flat.transactionId, p.flat.paidAt, status, p.flat.paymentMethod,
            Payer(p.flat.userPhone, p.flat.userEmail, name.0, name.1, p.flat.userDocument)),
          [], Product(p.flat.groupId, p.flat.groupName), false)
  }

  lemma V1TargetLeaves(x: string)
    requires V1Target(x).Some?
    ensures V1Target(V1Target(x).value.0).None?
  {
  }

  /** A rewritten payload still looks like version 1, yet a second rewrite leaves it alone. */
  lemma NormalizeV1Idempotent(p: Payload)
    ensures NormalizeV1(NormalizeV1(p)) == NormalizeV1(p)
    ensures IsV1(NormalizeV1(p)) <==> IsV1(p)
  {
  }

  // ---- names

  lemma StripTrailingSpace(s: string)
    requires s == "" || Trimmed(s)
    ensures Strip(s + " ") == s && Strip(s) == s
  {
    var t := s + " ";
    assert t[|s|] == ' ' && t[..|s|] == s;
    if s == "" {
      assert t[1..] == "" && SkipSpaces(t) == SkipSpaces(t[1..]) == "" && Strip(t) == DropTrailing("") == "";
    } else {
      assert t[0] == s[0] && SkipSpaces(t) == t;
      assert DropTrailing(t) == DropTrailing(t[..|s|]);
    }
  }

  lemma {:induction false} FirstSpaceIsFirst(s: string)
    ensures ' ' !in s[..FirstSpace(s)]
  {
    if s != "" && s[0] != ' ' {
      FirstSpaceIsFirst(s[1..]);
      assert s[..FirstSpace(s)] == [s[0]] + s[1..][..FirstSpace(s[1..])];
    }
  }

  /** The first name is the text before the first space. */
  lemma FirstNameHasNoSpace(name: string)
    ensures ' ' !in SplitName(name).0 && (' ' !in name ==> SplitName(name) == (name, ""))
    ensures ' ' in name ==> name == SplitName(name).0 + " " + SplitName(name).1
  {
    FirstSpaceIsFirst(name);
    var k := FirstSpace(name);
    assert name == name[..k] + name[k..];
  }

  /** Splitting a stripped name and joining the halves as the handler does gives the name back. */
  lemma NameRoundTrip(userName: string)
    ensures var name := SplitName(Strip(userName));
            Strip(name.0 + " " + name.1) == Strip(userName)
  {
    var s := Strip(userName);
    StripFacts(userName);
    StripTrailingSpace(s);
    var k := FirstSpace(s);
    if k < |s| {
      assert s[..k] + " " + s[k + 1..] == s;
    } else {
      assert s + " " + "" == s + " ";
    }
  }
}
