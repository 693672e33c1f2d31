/** The configuration variables of one decoder, their bits, and the station's reads and writes of them. */
module CvMemory {
  import opened Options

  type Memory = map<nat, int>

  /** An unset variable reads as zero. */
  function At(m: Memory, k: nat): int {
    if k in m then m[k] else 0
  }

  // ----- bits, for Go's two's complement ints: "/ 2" rounds down and "% 2" is the lowest bit -----

  predicate Bit(v: int, b: nat)
    decreases b
  {
    if b == 0 then v % 2 == 1 else Bit(v / 2, b - 1)
  }

  /** v | 1 << b when on, v &^ 1 << b when not. */
  function WithBit(v: int, b: nat, on: bool): int
    decreases b
  {
    if b == 0 then v - v % 2 + (if on then 1 else 0) else WithBit(v / 2, b - 1, on) * 2 + v % 2
  }

  /** Exactly the bit asked for is set or cleared. */
  lemma {:induction false} OnlyThatBit(v: int, b: nat, on: bool, c: nat)
    ensures Bit(WithBit(v, b, on), c) == if c == b then on else Bit(v, c)
    decreases b
  {
    if b > 0 {
      var w := WithBit(v / 2, b - 1, on);
      assert (w * 2 + v % 2) % 2 == v % 2 && (w * 2 + v % 2) / 2 == w;
      if c > 0 {
        OnlyThatBit(v / 2, b - 1, on, c - 1);
      }
    } else if c > 0 {
      assert WithBit(v, 0, on) / 2 == v / 2;
    }
  }

  function Pow2(b: nat): nat {
    if b == 0 then 1 else 2 * Pow2(b - 1)
  }

  /** Setting a clear bit adds its weight, clearing a set bit takes it away. */
  lemma {:induction false} BitWeight(v: int, b: nat, on: bool)
    ensures WithBit(v, b, on) == if on == Bit(v, b) then v else if on then v + Pow2(b) else v - Pow2(b)
    decreases b
  {
    if b > 0 {
      BitWeight(v / 2, b - 1, on);
    }
  }

  /** What one call to the station cannot do: the CVs that it fails to read and those it fails to write. */
  datatype Link = Link(unreadable: set<nat>, unwritable: set<nat>)

  class Decoder {
    var cvs: Memory

    constructor (m: Memory)
      ensures cvs == m
    {
      cvs := m;
    }

    method ReadCV(k: nat, link: Link) returns (r: Option<int>)
      ensures r == if k in link.unreadable then None else Some(At(cvs, k))
    {
      r := if k in link.unreadable then None else Some(if k in cvs then cvs[k] else 0);
    }

    method WriteCV(k: nat, v: int, link: Link) returns (ok: bool)
      modifies this
      ensures ok <==> k !in link.unwritable
      ensures cvs == if ok then old(cvs)[k := v] else old(cvs)
    {
      ok := k !in link.unwritable;
      if ok {
        cvs := cvs[k := v];
      }
    }
  }
}
