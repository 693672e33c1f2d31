/** Decoder addresses in CV1, CV17/CV18 and bit 5 of CV29 (NMRA S-9.2.2). */
module CvAddress {
  import opened Options
  import opened Text
  import opened CvText
  import opened CvPrint
  import opened CvMemory

  const LONG_BIT := 5
  const MAX_ADDRESS := 10239

  datatype Address = Short(number: nat) | Long(number: nat)

  /** The address that the four variables hold, or None for a pair that is not a valid address. */
  function FromCVs(cv1: int, cv17: int, cv18: int, cv29: int): Option<Address> {
    if Bit(cv29, LONG_BIT) then
      if cv17 < 192 then None else Some(Long(((cv17 - 192) * 256 + cv18) % (MAX_UINT16 + 1)))
    else if cv1 < 1 || cv1 > 127 then None
    else Some(Short(cv1))
  }

  function Decoded(m: Memory): Option<Address> {
    FromCVs(At(m, 1), At(m, 17), At(m, 18), At(m, 29))
  }

  predicate IsShort(addr: nat) {
    1 <= addr <= 127
  }

  function CV29For(cv29: int, long: bool): int {
    WithBit(cv29, LONG_BIT, long)
  }

  /** AddressToCVString for an address in range and a CV29 that is not negative. */
  function AddressText(addr: nat, cv29: nat): string {
    if IsShort(addr) then
      "cv1=" + Decimal(addr) + ", cv17=0, cv18=0, cv29=" + Decimal(New29(addr, cv29))
    else
      "cv17=" + Decimal(192 + addr / 256) + ", cv18=" + Decimal(addr % 256) + ", cv29=" + Decimal(New29(addr, cv29))
  }

  function New29(addr: nat, cv29: nat): (r: nat)
    ensures r == CV29For(cv29, !IsShort(addr))
  {
    BitWeight(cv29, LONG_BIT, !IsShort(addr));
    BitAtMost(cv29, LONG_BIT);
    CV29For(cv29, !IsShort(addr))
  }

  lemma {:induction false} BitAtMost(v: nat, b: nat)
    ensures Bit(v, b) ==> Pow2(b) <= v
    decreases b
  {
    if b > 0 {
      BitAtMost(v / 2, b - 1);
    }
  }

  /** The writes that the text stands for, in ascending order of CV. */
  function Writes(addr: nat, cv29: nat): seq<CVEntry> {
    if IsShort(addr) then [CVEntry(1, addr), CVEntry(17, 0), CVEntry(18, 0), CVEntry(29, New29(addr, cv29))]
    else [CVEntry(17, 192 + addr / 256), CVEntry(18, addr % 256), CVEntry(29, New29(addr, cv29))]
  }

  lemma Numerals()
    ensures Decimal(0) == "0" && Decimal(1) == "1" && Decimal(17) == "17" && Decimal(18) == "18" && Decimal(29) == "29"
  {
    assert Decimal(1) == [Digit(1)] == "1";
    assert Decimal(2) == [Digit(2)] == "2";
    assert Decimal(17) == Decimal(1) + [Digit(7)] == "17";
    assert Decimal(18) == Decimal(1) + [Digit(8)] == "18";
    assert Decimal(29) == Decimal(2) + [Digit(9)] == "29";
  }

  lemma ThreeJoined(a: string, b: string, c: string)
    ensures Joined([a, b, c]) == a + ", " + b + ", " + c
  {
    assert [a, b, c][1..] == [b, c] && [b, c][1..] == [c];
    assert Joined([b, c]) == b + ", " + c;
  }

  lemma FourJoined(a: string, b: string, c: string, d: string)
    ensures Joined([a, b, c, d]) == a + ", " + b + ", " + c + ", " + d
  {
    assert [a, b, c, d][1..] == [b, c, d];
    ThreeJoined(b, c, d);
  }

  lemma LongTextIsList(a: string, b: string, c: string)
    ensures "cv17=" + a + ", cv18=" + b + ", cv29=" + c == "cv17=" + a + ", " + ("cv18=" + b) + ", " + ("cv29=" + c)
  {
  }

  lemma ShortTextIsList(a: string, c: string)
    ensures "cv1=" + a + ", cv17=0, cv18=0, cv29=" + c
         == "cv1=" + a + ", " + "cv17=0" + ", " + "cv18=0" + ", " + ("cv29=" + c)
  {
  }

  lemma RenderedIs(number: nat, prefix: string, text: string)
    requires prefix == "cv" + Decimal(number) + "="
    ensures Rendered(number, text) == prefix + text
  {
  }

  lemma Prefixes()
    ensures "cv1=" == "cv" + Decimal(1) + "=" && "cv17=" == "cv" + Decimal(17) + "="
    ensures "cv18=" == "cv" + Decimal(18) + "=" && "cv29=" == "cv" + Decimal(29) + "="
  {
    Numerals();
  }

  lemma TextIsList(addr: nat, cv29: nat)
    ensures AddressText(addr, cv29) == Joined(Assignments(Writes(addr, cv29)))
  {
    var c := Decimal(New29(addr, cv29));
    Prefixes();
    RenderedIs(29, "cv29=", c);
    if IsShort(addr) {
      RenderedIs(1, "cv1=", Decimal(addr));
      RenderedIs(17, "cv17=", Decimal(0));
      RenderedIs(18, "cv18=", Decimal(0));
      Numerals();
      ShortTextIsList(Decimal(addr), c);
      FourJoined("cv1=" + Decimal(addr), "cv17=0", "cv18=0", "cv29=" + c);
      assert "cv17=" + "0" == "cv17=0" && "cv18=" + "0" == "cv18=0";
      var es := Writes(addr, cv29);
      assert Assignment(es[0]) == "cv1=" + Decimal(addr) && Assignment(es[3]) == "cv29=" + c;
      assert Assignment(es[1]) == "cv17=0" && Assignment(es[2]) == "cv18=0";
      assert Assignments(es) == ["cv1=" + Decimal(addr), "cv17=0", "cv18=0", "cv29=" + c];
    } else {
      var a, b := Decimal(192 + addr / 256), Decimal(addr % 256);
      RenderedIs(17, "cv17=", a);
      RenderedIs(18, "cv18=", b);
      LongTextIsList(a, b, c);
      ThreeJoined("cv17=" + a, "cv18=" + b, "cv29=" + c);
      assert Assignments(Writes(addr, cv29)) == ["cv17=" + a, "cv18=" + b, "cv29=" + c];
    }
  }

  lemma WritesInOrder(addr: nat, cv29: nat)
    requires addr <= MAX_ADDRESS && New29(addr, cv29) <= MAX_UINT16
    ensures AllFit(Writes(addr, cv29)) && Ascending(Writes(addr, cv29))
  {
    var es := Writes(addr, cv29);
    forall e | e in es ensures Fits(e) {
      assert IsShort(addr) ==> e == es[0] || e == es[1] || e == es[2] || e == es[3];
      assert !IsShort(addr) ==> e == es[0] || e == es[1] || e == es[2];
      assert 192 + addr / 256 <= MAX_UINT16;
    }
  }

  /** Whatever parses the text gets exactly the writes, CV29 last. */
  lemma TextParsesToWrites(addr: nat, cv29: nat, r: ParseResult)
    requires addr <= MAX_ADDRESS && New29(addr, cv29) <= MAX_UINT16
    requires Means(r, TextMeaning(AddressText(addr, cv29), ","))
    ensures r == Parsed(Writes(addr, cv29))
    ensures r.entries[|r.entries| - 1] == CVEntry(29, New29(addr, cv29))
  {
    TextIsList(addr, cv29);
    WritesInOrder(addr, cv29);
    ListParsesToItself(Writes(addr, cv29), r);
  }

  // ----- the memory after the writes -----

  /** The memory after the first n writes. */
  function After(m: Memory, es: seq<CVEntry>, n: nat): Memory
    requires n <= |es|
  {
    if n == 0 then m else After(m, es, n - 1)[es[n - 1].number := es[n - 1].value]
  }

  lemma NextWrite(m: Memory, es: seq<CVEntry>, n: nat, k: nat)
    requires n < |es|
    ensures At(After(m, es, n + 1), k) == if es[n].number == k then es[n].value else At(After(m, es, n), k)
  {
  }

  /** The four variables after n of the writes. */
  lemma WritesAt(m: Memory, addr: nat, cv29: nat, n: nat, k: nat)
    requires n <= |Writes(addr, cv29)|
    ensures At(After(m, Writes(addr, cv29), n), k) ==
      if IsShort(addr) then
        if k == 1 && n >= 1 then addr
        else if (k == 17 && n >= 2) || (k == 18 && n >= 3) then 0
        else if k == 29 && n == 4 then New29(addr, cv29) else At(m, k)
      else
        if k == 17 && n >= 1 then 192 + addr / 256
        else if k == 18 && n >= 2 then addr % 256
        else if k == 29 && n == 3 then New29(addr, cv29) else At(m, k)
  {
    var es := Writes(addr, cv29);
    if n > 0 {
      NextWrite(m, es, n - 1, k);
      if n > 1 {
        NextWrite(m, es, n - 2, k);
        if n > 2 {
          NextWrite(m, es, n - 3, k);
          if n > 3 {
            NextWrite(m, es, n - 4, k);
          }
        }
      }
    }
  }

  lemma AllWritesAt(m: Memory, addr: nat, cv29: nat, n: nat)
    requires n <= |Writes(addr, cv29)|
    ensures var after := After(m, Writes(addr, cv29), n);
      if IsShort(addr) then
        && At(after, 1) == (if n >= 1 then addr else At(m, 1))
        && At(after, 17) == (if n >= 2 then 0 else At(m, 17))
        && At(after, 18) == (if n >= 3 then 0 else At(m, 18))
        && At(after, 29) == (if n == 4 then New29(addr, cv29) else At(m, 29))
      else
        && At(after, 1) == At(m, 1)
        && At(after, 17) == (if n >= 1 then 192 + addr / 256 else At(m, 17))
        && At(after, 18) == (if n >= 2 then addr % 256 else At(m, 18))
        && At(after, 29) == (if n == 3 then New29(addr, cv29) else At(m, 29))
  {
    WritesAt(m, addr, cv29, n, 1);
    WritesAt(m, addr, cv29, n, 17);
    WritesAt(m, addr, cv29, n, 18);
    WritesAt(m, addr, cv29, n, 29);
  }

  lemma LongDecodes(addr: nat, low: int)
    requires addr <= MAX_ADDRESS && 0 <= low <= 255
    ensures ((192 + addr / 256 - 192) * 256 + low) % (MAX_UINT16 + 1) == addr / 256 * 256 + low
    ensures addr / 256 * 256 + addr % 256 == addr
  {
  }

  /** The writes, made in full, make the decoder answer to the address, short just for 1 to 127. */
  lemma WritesDecode(m: Memory, addr: nat)
    requires addr <= MAX_ADDRESS && At(m, 29) >= 0
    ensures var es := Writes(addr, At(m, 29));
      Decoded(After(m, es, |es|)) == Some(if 1 <= addr <= 127 then Short(addr) else Long(addr))
  {
    AllWritesAt(m, addr, At(m, 29), |Writes(addr, At(m, 29))|);
    LongDecodes(addr, addr % 256);
    OnlyThatBit(At(m, 29), LONG_BIT, !IsShort(addr), LONG_BIT);
  }

  /** They touch nothing else: no other bit of CV29, no CV outside the address, and CV1 only for a short address. */
  lemma WritesTouchOnly(m: Memory, addr: nat, n: nat, k: nat, b: nat)
    requires At(m, 29) >= 0 && n <= |Writes(addr, At(m, 29))|
    ensures var after := After(m, Writes(addr, At(m, 29)), n);
      && (k !in {17, 18, 29} && (k != 1 || !IsShort(addr)) ==> At(after, k) == At(m, k))
      && (b != LONG_BIT || n < |Writes(addr, At(m, 29))| ==> Bit(At(after, 29), b) == Bit(At(m, 29), b))
  {
    WritesAt(m, addr, At(m, 29), n, k);
    WritesAt(m, addr, At(m, 29), n, 29);
    OnlyThatBit(At(m, 29), LONG_BIT, !IsShort(addr), b);
  }

  // ----- interrupted writes -----

  /**
   * What a decoder with a valid address answers to when writing stops early.
   * Until the last write, CV29 keeps the kind of address as it was.
   */
  lemma InterruptedWrites(m: Memory, addr: nat, n: nat)
    requires addr <= MAX_ADDRESS && At(m, 29) >= 0 && 0 <= At(m, 18) <= 255 && At(m, 17) <= 255
    requires Decoded(m).Some? && n < |Writes(addr, At(m, 29))|
    ensures Decoded(After(m, Writes(addr, At(m, 29)), n)) ==
      if n == 0 then Decoded(m)
      else if Decoded(m).value.Short? then (if IsShort(addr) then Some(Short(addr)) else Decoded(m))
      else if IsShort(addr) then (if n == 1 then Decoded(m) else None)
      else Some(Long(if n == 1 then addr / 256 * 256 + At(m, 18) else addr))
  {
    AllWritesAt(m, addr, At(m, 29), n);
    LongDecodes(addr, At(m, 18));
    LongDecodes(addr, addr % 256);
  }

  /**
   * Stopping early leaves a decoder without any valid address just when a long one was being replaced by a short one
   * and CV17 was already cleared.
   */
  lemma StrandedIff(m: Memory, addr: nat, n: nat)
    requires addr <= MAX_ADDRESS && At(m, 29) >= 0 && 0 <= At(m, 18) <= 255 && At(m, 17) <= 255
    requires Decoded(m).Some? && n <= |Writes(addr, At(m, 29))|
    ensures Decoded(After(m, Writes(addr, At(m, 29)), n)).None?
       <==> Decoded(m).value.Long? && IsShort(addr) && 2 <= n < |Writes(addr, At(m, 29))|
  {
    if n < |Writes(addr, At(m, 29))| {
      InterruptedWrites(m, addr, n);
    } else {
      WritesDecode(m, addr);
    }
  }

  // ----- the action -----

  datatype Failure = ReadFailed | OutOfRange | WriteFailed(number: nat)

  /** The first n writes went through, and either that was all or the next one failed. */
  predicate WroteUpTo(m: Memory, es: seq<CVEntry>, link: Link, n: nat, after: Memory, failure: Option<Failure>) {
    && n <= |es| && after == After(m, es, n)
    && (forall i :: 0 <= i < n ==> es[i].number !in link.unwritable)
    && (n == |es| ==> failure == None)
    && (n < |es| ==> es[n].number in link.unwritable && failure == Some(WriteFailed(es[n].number)))
  }

  method WriteInOrder(d: Decoder, es: seq<CVEntry>, link: Link) returns (failure: Option<Failure>, ghost n: nat)
    modifies d
    ensures WroteUpTo(old(d.cvs), es, link, n, d.cvs, failure)
  {
    n := 0;
    var i := 0;
    while i < |es|
      invariant 0 <= i <= |es| && n == i
      invariant d.cvs == After(old(d.cvs), es, i)
      invariant forall j :: 0 <= j < i ==> es[j].number !in link.unwritable
    {
      var ok := d.WriteCV(es[i].number, es[i].value, link);
      if !ok {
        return Some(WriteFailed(es[i].number)), i;
      }
      i := i + 1;
      n := i;
    }
    failure := None;
  }

  /** SetAddrAction: read CV29, build the text, parse it, write its entries in order. */
  method SetAddress(d: Decoder, addr: nat, link: Link) returns (failure: Option<Failure>, ghost n: nat)
    requires addr <= MAX_UINT16 && 0 <= At(d.cvs, 29) <= 255
    modifies d
    ensures failure == Some(ReadFailed) <==> 29 in link.unreadable
    ensures failure == Some(OutOfRange) <==> 29 !in link.unreadable && addr > MAX_ADDRESS
    ensures failure in {Some(ReadFailed), Some(OutOfRange)} ==> d.cvs == old(d.cvs)
    ensures failure !in {Some(ReadFailed), Some(OutOfRange)} ==>
              WroteUpTo(old(d.cvs), Writes(addr, At(old(d.cvs), 29)), link, n, d.cvs, failure)
    ensures failure.None? ==> Decoded(d.cvs) == Some(if 1 <= addr <= 127 then Short(addr) else Long(addr))
  {
    n := 0;
    var cv29 := d.ReadCV(29, link);
    if cv29.None? {
      return Some(ReadFailed), 0;
    }
    if addr > MAX_ADDRESS {
      return Some(OutOfRange), 0;
    }
    SmallCV29(addr, cv29.value);
    var r := ParseCVString(AddressText(addr, cv29.value), ",");
    TextParsesToWrites(addr, cv29.value, r);
    failure, n := WriteInOrder(d, r.entries, link);
    WritesDecode(old(d.cvs), addr);
  }

  lemma SmallCV29(addr: nat, cv29: nat)
    requires cv29 <= 255
    ensures New29(addr, cv29) <= MAX_UINT16
  {
    BitWeight(cv29, LONG_BIT, !IsShort(addr));
    assert Pow2(5) == 2 * Pow2(4) == 4 * Pow2(3) == 8 * Pow2(2) == 16 * Pow2(1) == 32;
  }
}
