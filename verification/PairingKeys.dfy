/**
 * Redis key names of the handset pairing store, and the names of pairing codes.
 * One flat key space holds every layout, command station and key family, so the
 * rest of the model may use one typed map per family only because the names
 * never collide.
 */
module PairingKeys {
  import opened Text

  /** One key of the store, before it is formatted. */
  datatype Key =
    | Req(reqId: string)
    | Active(client: string)
    | ByUser(user: nat)
    | ReqByUser(user: nat)
    | Dedup(protocol: string)

  function Prefix(k: Key): string {
    match k
    case Req(_) => "bigfred:remote:req:"
    case Active(_) => "bigfred:remote:active:"
    case ByUser(_) => "bigfred:remote:byuser:"
    case ReqByUser(_) => "bigfred:remote:reqbyuser:"
    case Dedup(_) => "bigfred:remote:reqdedup:"
  }

  function Tail(k: Key): string {
    match k
    case Req(id) => id
    case Active(client) => client
    case ByUser(user) => Decimal(user)
    case ReqByUser(user) => Decimal(user)
    case Dedup(protocol) => protocol
  }

  function KeyName(layout: nat, station: nat, k: Key): string {
    Prefix(k) + (Decimal(layout) + ":" + (Decimal(station) + ":" + Tail(k)))
  }

  lemma PrefixesApart(j: Key, k: Key, x: string, y: string)
    requires Prefix(j) + x == Prefix(k) + y
    ensures Prefix(j) == Prefix(k) && x == y
  {
    var l, r := Prefix(j) + x, Prefix(k) + y;
    assert forall i :: 0 <= i < |Prefix(j)| ==> l[i] == Prefix(j)[i];
    assert forall i :: 0 <= i < |Prefix(k)| ==> r[i] == Prefix(k)[i];
    // Position 15 separates req, active and byuser; 18 and 21 separate the three req families.
    assert l[15] == r[15] && l[18] == r[18];
    assert |Prefix(j)| > 21 && |Prefix(k)| > 21 ==> l[21] == r[21];
    assert Prefix(j) == Prefix(k);
    assert x == l[|Prefix(j)|..] && y == r[|Prefix(k)|..];
  }

  /** Two formatted keys are equal only for the same layout, station, family and field. */
  lemma KeyNameInjective(l1: nat, s1: nat, j: Key, l2: nat, s2: nat, k: Key)
    requires KeyName(l1, s1, j) == KeyName(l2, s2, k)
    ensures l1 == l2 && s1 == s2 && j == k
  {
    PrefixesApart(j, k, Decimal(l1) + ":" + (Decimal(s1) + ":" + Tail(j)),
        Decimal(l2) + ":" + (Decimal(s2) + ":" + Tail(k)));
    FieldInjective(Decimal(l1), Decimal(l2), Decimal(s1) + ":" + Tail(j), Decimal(s2) + ":" + Tail(k), ':');
    FieldInjective(Decimal(s1), Decimal(s2), Tail(j), Tail(k), ':');
    DecimalInjective(l1, l2);
    DecimalInjective(s1, s2);
    if (j.ByUser? && k.ByUser?) || (j.ReqByUser? && k.ReqByUser?) {
      DecimalInjective(j.user, k.user);
    }
  }

  // ----- pairing codes -----

  const Z21 := "z21"
  const WITHROTTLE := "withrottle"

  /** What a pilot types on a handset: two CV values (Z21) or six digits (WiThrottle). */
  datatype Code = Cvs(cv3: nat, cv4: nat) | Digits(digits: string)

  function Protocol(c: Code): string {
    if c.Cvs? then Z21 else WITHROTTLE
  }

  /** The member of the protocol's dedup set that stands for the code. */
  function Label(c: Code): string {
    match c
    case Cvs(cv3, cv4) => Decimal(cv3) + ":" + Decimal(cv4)
    case Digits(digits) => digits
  }

  /** The pending-request identifier of the code. */
  function ReqId(c: Code): string {
    Protocol(c) + ":" + Label(c)
  }

  predicate ValidPairingCV(v: int) {
    && 111 <= v <= 255
    && 1 <= v / 100 <= 2
    && 1 <= (v / 10) % 10 <= 5
    && 1 <= v % 10 <= 5
  }

  predicate ValidCode(c: Code) {
    match c
    case Cvs(cv3, cv4) => ValidPairingCV(cv3) && ValidPairingCV(cv4)
    case Digits(digits) => |digits| == 6 && AllDigits(digits)
  }

  /** No two codes share a request identifier, not even across protocols. */
  lemma ReqIdInjective(c: Code, d: Code)
    requires ReqId(c) == ReqId(d)
    ensures c == d
  {
    assert ReqId(c)[0] == Protocol(c)[0] && ReqId(d)[0] == Protocol(d)[0];
    FieldInjective(Protocol(c), Protocol(d), Label(c), Label(d), ':');
    if c.Cvs? {
      FieldInjective(Decimal(c.cv3), Decimal(d.cv3), Decimal(c.cv4), Decimal(d.cv4), ':');
      DecimalInjective(c.cv3, d.cv3);
      DecimalInjective(c.cv4, d.cv4);
    }
  }
}
