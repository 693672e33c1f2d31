/** Setting single bits of CVs: one read and one write per CV instead of one per bit. */
module CvBits {
  import opened Options
  import opened CvMemory

  datatype BitAssignment = BitAssignment(cv: nat, bit: nat, on: bool)

  predicate InRange(a: BitAssignment) {
    a.bit <= 7
  }

  /** The value after the assignments in order, or None as soon as a bit is out of range. */
  function Applied(value: int, bits: seq<BitAssignment>): Option<int> {
    if bits == [] then Some(value) else
      var n := |bits| - 1;
      var before := Applied(value, bits[..n]);
      if before.Some? && InRange(bits[n]) then Some(WithBit(before.value, bits[n].bit, bits[n].on)) else None
  }

  lemma {:induction false} AppliedIff(value: int, bits: seq<BitAssignment>)
    ensures Applied(value, bits).Some? <==> forall a :: a in bits ==> a.bit <= 7
  {
    if bits != [] {
      var n := |bits| - 1;
      AppliedIff(value, bits[..n]);
      assert bits == bits[..n] + [bits[n]];
    }
  }

  lemma {:induction false} PrefixFails(value: int, bits: seq<BitAssignment>, i: nat)
    requires i <= |bits| && Applied(value, bits[..i]).None?
    ensures Applied(value, bits).None?
  {
    if i < |bits| {
      assert bits[..|bits| - 1][..i] == bits[..i];
      PrefixFails(value, bits[..|bits| - 1], i);
    } else {
      assert bits[..i] == bits;
    }
  }

  method ApplyCVBits(value: int, bits: seq<BitAssignment>) returns (r: Option<int>)
    ensures r == Applied(value, bits)
  {
    var v := value;
    for i := 0 to |bits|
      invariant Applied(value, bits[..i]) == Some(v)
    {
      assert bits[..i + 1][..i] == bits[..i];
      if bits[i].bit > 7 {
        PrefixFails(value, bits, i + 1);
        return None;
      }
      v := WithBit(v, bits[i].bit, bits[i].on);
    }
    assert bits[..|bits|] == bits;
    r := Some(v);
  }

  /** The last assignment to a bit decides it. */
  function LastOn(bits: seq<BitAssignment>, c: nat): Option<bool> {
    if bits == [] then None
    else if bits[|bits| - 1].bit == c then Some(bits[|bits| - 1].on)
    else LastOn(bits[..|bits| - 1], c)
  }

  /** Each bit ends as its last assignment says, and bits without one keep their value. */
  lemma {:induction false} BitsAfter(value: int, bits: seq<BitAssignment>, c: nat)
    requires Applied(value, bits).Some?
    ensures Bit(Applied(value, bits).value, c) == if LastOn(bits, c).Some? then LastOn(bits, c).value else Bit(value, c)
  {
    if bits != [] {
      var n := |bits| - 1;
      BitsAfter(value, bits[..n], c);
      OnlyThatBit(Applied(value, bits[..n]).value, bits[n].bit, bits[n].on, c);
    }
  }

  // ----- grouping -----

  /** The assignments to one CV, in input order. */
  function OfCV(list: seq<BitAssignment>, k: nat): seq<BitAssignment> {
    if list == [] then [] else
      var n := |list| - 1;
      OfCV(list[..n], k) + if list[n].cv == k then [list[n]] else []
  }

  /** The CVs in the order in which they are first mentioned. */
  function FirstSeen(list: seq<BitAssignment>): seq<nat> {
    if list == [] then [] else
      var n := |list| - 1;
      var before := FirstSeen(list[..n]);
      if list[n].cv in before then before else before + [list[n].cv]
  }

  /** A CV is in that order just when something is assigned to it. */
  lemma {:induction false} SeenIff(list: seq<BitAssignment>, k: nat)
    ensures k in FirstSeen(list) <==> OfCV(list, k) != []
  {
    if list != [] {
      SeenIff(list[..|list| - 1], k);
    }
  }

  /** It is there once. */
  lemma {:induction false} SeenOnce(list: seq<BitAssignment>)
    ensures forall i, j :: 0 <= i < j < |FirstSeen(list)| ==> FirstSeen(list)[i] != FirstSeen(list)[j]
  {
    if list != [] {
      var n := |list| - 1;
      SeenOnce(list[..n]);
      var r, before := FirstSeen(list), FirstSeen(list[..n]);
      forall i, j | 0 <= i < j < |r| ensures r[i] != r[j] {
        assert before[i] in before;
      }
    }
  }

  /** And in the order of first mentions: before any mention of a later one, an earlier one has been mentioned. */
  lemma {:induction false} SeenInOrder(list: seq<BitAssignment>, i: nat, j: nat, q: nat) returns (p: nat)
    requires i < j < |FirstSeen(list)| && q < |list| && list[q].cv == FirstSeen(list)[j]
    ensures p < q && list[p].cv == FirstSeen(list)[i]
  {
    var n := |list| - 1;
    var before := FirstSeen(list[..n]);
    if q == n {
      p := Mentioned(list[..n], before[i]);
    } else {
      SeenAt(list[..n], q);
      SeenOnce(list);
      var x :| 0 <= x < |before| && before[x] == list[q].cv;
      assert FirstSeen(list)[x] == FirstSeen(list)[j];
      p := SeenInOrder(list[..n], i, j, q);
    }
  }

  lemma {:induction false} SeenAt(list: seq<BitAssignment>, q: nat)
    requires q < |list|
    ensures list[q].cv in FirstSeen(list)
  {
    if q < |list| - 1 {
      SeenAt(list[..|list| - 1], q);
    }
  }

  lemma {:induction false} Mentioned(list: seq<BitAssignment>, k: nat) returns (p: nat)
    requires k in FirstSeen(list)
    ensures p < |list| && list[p].cv == k
  {
    var n := |list| - 1;
    if list[n].cv == k {
      p := n;
    } else {
      p := Mentioned(list[..n], k);
    }
  }

  ghost predicate GroupsOf(groups: map<nat, seq<BitAssignment>>, list: seq<BitAssignment>) {
    && (forall k :: k in groups <==> k in FirstSeen(list))
    && (forall k :: k in groups ==> groups[k] == OfCV(list, k))
  }

  lemma OneMoreOfCV(list: seq<BitAssignment>, i: nat, k: nat)
    requires i < |list|
    ensures OfCV(list[..i + 1], k) == OfCV(list[..i], k) + if list[i].cv == k then [list[i]] else []
  {
    assert list[..i + 1][..i] == list[..i];
  }

  lemma OneMoreSeen(list: seq<BitAssignment>, i: nat)
    requires i < |list|
    ensures FirstSeen(list[..i + 1])
         == FirstSeen(list[..i]) + if list[i].cv in FirstSeen(list[..i]) then [] else [list[i].cv]
  {
    assert list[..i + 1][..i] == list[..i];
  }

  /** One more assignment joins its group, which may be a new one. */
  function Joined(groups: map<nat, seq<BitAssignment>>, a: BitAssignment): map<nat, seq<BitAssignment>> {
    groups[a.cv := (if a.cv in groups then groups[a.cv] else []) + [a]]
  }

  lemma JoinedAt(groups: map<nat, seq<BitAssignment>>, list: seq<BitAssignment>, i: nat, k: nat)
    requires i < |list| && GroupsOf(groups, list[..i])
    ensures var joined := Joined(groups, list[i]);
      (k in joined <==> k in FirstSeen(list[..i + 1])) && (k in joined ==> joined[k] == OfCV(list[..i + 1], k))
  {
    OneMoreSeen(list, i);
    OneMoreOfCV(list, i, k);
    SeenIff(list[..i], k);
  }

  lemma OneMoreGrouped(groups: map<nat, seq<BitAssignment>>, list: seq<BitAssignment>, i: nat)
    requires i < |list| && GroupsOf(groups, list[..i])
    ensures GroupsOf(Joined(groups, list[i]), list[..i + 1])
    ensures FirstSeen(list[..i + 1]) == FirstSeen(list[..i]) + if list[i].cv in groups then [] else [list[i].cv]
  {
    OneMoreSeen(list, i);
    var joined, more := Joined(groups, list[i]), list[..i + 1];
    forall k ensures (k in joined <==> k in FirstSeen(more)) && (k in joined ==> joined[k] == OfCV(more, k)) {
      JoinedAt(groups, list, i, k);
    }
  }

  method GroupCVBitAssignments(list: seq<BitAssignment>)
    returns (groups: map<nat, seq<BitAssignment>>, order: seq<nat>)
    ensures order == FirstSeen(list)
    ensures GroupsOf(groups, list)
  {
    groups, order := map[], [];
    for i := 0 to |list|
      invariant order == FirstSeen(list[..i])
      invariant GroupsOf(groups, list[..i])
    {
      OneMoreGrouped(groups, list, i);
      var a := list[i];
      if a.cv !in groups {
        order := order + [a.cv];
      }
      groups := groups[a.cv := (if a.cv in groups then groups[a.cv] else []) + [a]];
    }
    assert list[..|list|] == list;
  }

  // ----- what grouping must not change -----

  /** One read-modify-write per assignment, in input order. */
  function OneByOne(m: Memory, list: seq<BitAssignment>): Memory {
    if list == [] then m else
      var n := |list| - 1;
      var before := OneByOne(m, list[..n]);
      before[list[n].cv := WithBit(At(before, list[n].cv), list[n].bit, list[n].on)]
  }

  predicate AllInRange(list: seq<BitAssignment>) {
    forall a :: a in list ==> InRange(a)
  }

  lemma OfCVLast(list: seq<BitAssignment>, k: nat)
    requires list != []
    ensures var n, bits := |list| - 1, OfCV(list, k);
      if list[n].cv == k then
        bits != [] && bits[..|bits| - 1] == OfCV(list[..n], k) && bits[|bits| - 1] == list[n]
      else bits == OfCV(list[..n], k)
  {
  }

  /** One by one, each CV gets what the assignments to it make of its own value. */
  lemma {:induction false} OneByOneAt(m: Memory, list: seq<BitAssignment>, k: nat)
    requires AllInRange(OfCV(list, k))
    ensures Applied(At(m, k), OfCV(list, k)) == Some(At(OneByOne(m, list), k))
    ensures k in OneByOne(m, list) <==> k in m || OfCV(list, k) != []
  {
    if list != [] {
      OfCVLast(list, k);
      OneByOneAt(m, list[..|list| - 1], k);
    }
  }

  lemma {:induction false} OfCVIn(list: seq<BitAssignment>, k: nat)
    ensures forall a :: a in OfCV(list, k) <==> a in list && a.cv == k
  {
    if list != [] {
      OfCVIn(list[..|list| - 1], k);
      assert list == list[..|list| - 1] + [list[|list| - 1]];
    }
  }

  /** The value to write to one CV, if its bits are in range. */
  function Target(m: Memory, list: seq<BitAssignment>, k: nat): int {
    var v := Applied(At(m, k), OfCV(list, k));
    if v.Some? then v.value else At(m, k)
  }

  /** One read-modify-write for each of the first n CVs of an order. */
  function Grouped(m: Memory, list: seq<BitAssignment>, order: seq<nat>, n: nat): Memory
    requires n <= |order|
  {
    if n == 0 then m else
      Grouped(m, list, order, n - 1)[order[n - 1] := Target(m, list, order[n - 1])]
  }

  lemma {:induction false} GroupedAt(m: Memory, list: seq<BitAssignment>, order: seq<nat>, n: nat, k: nat)
    requires n <= |order|
    ensures At(Grouped(m, list, order, n), k) == if k in order[..n] then Target(m, list, k) else At(m, k)
    ensures k in Grouped(m, list, order, n) <==> k in m || k in order[..n]
  {
    if n > 0 {
      GroupedAt(m, list, order, n - 1, k);
      assert order[..n] == order[..n - 1] + [order[n - 1]];
    }
  }

  /** Grouping by CV leaves the memory exactly as one read-modify-write per assignment would. */
  lemma GroupingKeepsMeaning(m: Memory, list: seq<BitAssignment>)
    requires AllInRange(list)
    ensures Grouped(m, list, FirstSeen(list), |FirstSeen(list)|) == OneByOne(m, list)
  {
    var order := FirstSeen(list);
    var g, o := Grouped(m, list, order, |order|), OneByOne(m, list);
    assert order[..|order|] == order;
    forall k ensures At(g, k) == At(o, k) && (k in g <==> k in o) {
      GroupedAt(m, list, order, |order|, k);
      SeenIff(list, k);
      OfCVIn(list, k);
      OneByOneAt(m, list, k);
    }
    assert forall k :: k in g ==> g[k] == At(g, k) == At(o, k) == o[k];
    assert g.Keys == o.Keys;
  }

  /** Bit by bit: the last assignment to a bit decides it, and every other bit of every CV stays as it was. */
  lemma BitsAfterAll(m: Memory, list: seq<BitAssignment>, k: nat, c: nat)
    requires AllInRange(list)
    ensures var last := LastOn(OfCV(list, k), c);
      Bit(At(OneByOne(m, list), k), c) == if last.Some? then last.value else Bit(At(m, k), c)
  {
    OfCVIn(list, k);
    OneByOneAt(m, list, k);
    BitsAfter(At(m, k), OfCV(list, k), c);
  }

  // ----- the action -----

  datatype Written = Written(number: nat, before: int, after: int)

  datatype Failure = NothingToDo | ReadFailed(number: nat) | BadBit(number: nat) | WriteFailed(number: nat)

  /** Why one CV cannot be changed, if so. */
  function Obstacle(link: Link, list: seq<BitAssignment>, k: nat): Option<Failure> {
    if k in link.unreadable then Some(ReadFailed(k))
    else if !AllInRange(OfCV(list, k)) then Some(BadBit(k))
    else if k in link.unwritable then Some(WriteFailed(k))
    else None
  }

  /** One read, one write. */
  method ModifyCV(d: Decoder, k: nat, ghost list: seq<BitAssignment>, bits: seq<BitAssignment>, link: Link)
    returns (result: Option<Written>, failure: Option<Failure>)
    requires bits == OfCV(list, k)
    modifies d
    ensures failure == Obstacle(link, list, k)
    ensures failure.None? ==> result == Some(Written(k, At(old(d.cvs), k), Target(old(d.cvs), list, k)))
    ensures d.cvs == if failure.None? then old(d.cvs)[k := Target(old(d.cvs), list, k)] else old(d.cvs)
  {
    AppliedIff(At(d.cvs, k), bits);
    var before := d.ReadCV(k, link);
    if before.None? {
      return None, Some(ReadFailed(k));
    }
    var after := ApplyCVBits(before.value, bits);
    if after.None? {
      return None, Some(BadBit(k));
    }
    var ok := d.WriteCV(k, after.value, link);
    if !ok {
      return None, Some(WriteFailed(k));
    }
    return Some(Written(k, before.value, after.value)), None;
  }

  /** The reports of the first CVs of an order. */
  predicate Reports(results: seq<Written>, m: Memory, list: seq<BitAssignment>, order: seq<nat>) {
    |results| <= |order|
    && forall i :: 0 <= i < |results| ==> results[i] == Written(order[i], At(m, order[i]), Target(m, list, order[i]))
  }

  /** The first n CVs went well, and either there are no more or the next one failed. */
  predicate Stopped(link: Link, list: seq<BitAssignment>, order: seq<nat>, n: nat, failure: Option<Failure>) {
    && n <= |order|
    && (forall i :: 0 <= i < n ==> Obstacle(link, list, order[i]).None?)
    && (n == |order| ==> failure.None?)
    && (n < |order| ==> failure.Some? && failure == Obstacle(link, list, order[n]))
  }

  lemma NextTarget(m: Memory, list: seq<BitAssignment>, order: seq<nat>, i: nat)
    requires i < |order| && order == FirstSeen(list)
    ensures At(Grouped(m, list, order, i), order[i]) == At(m, order[i])
    ensures Target(Grouped(m, list, order, i), list, order[i]) == Target(m, list, order[i])
  {
    SeenOnce(list);
    assert order[i] !in order[..i];
    GroupedAt(m, list, order, i, order[i]);
  }

  /** The CVs reported so far went well and were written, and nothing else was. */
  predicate Underway(results: seq<Written>, cvs: Memory, m: Memory, list: seq<BitAssignment>, link: Link) {
    var order := FirstSeen(list);
    && Reports(results, m, list, order) && cvs == Grouped(m, list, order, |results|)
    && forall i :: 0 <= i < |results| ==> Obstacle(link, list, order[i]).None?
  }

  lemma OneMoreWritten(results: seq<Written>, cvs: Memory, m: Memory, list: seq<BitAssignment>, link: Link)
    requires Underway(results, cvs, m, list, link) && |results| < |FirstSeen(list)|
    requires Obstacle(link, list, FirstSeen(list)[|results|]).None?
    ensures var k := FirstSeen(list)[|results|];
      Underway(results + [Written(k, At(cvs, k), Target(cvs, list, k))], cvs[k := Target(cvs, list, k)], m, list, link)
  {
    NextTarget(m, list, FirstSeen(list), |results|);
    ReportsMore(results, m, list, FirstSeen(list));
  }

  lemma ReportsMore(results: seq<Written>, m: Memory, list: seq<BitAssignment>, order: seq<nat>)
    requires Reports(results, m, list, order) && |results| < |order|
    ensures var k := order[|results|];
      Reports(results + [Written(k, At(m, k), Target(m, list, k))], m, list, order)
  {
  }

  method ModifyInOrder(d: Decoder, list: seq<BitAssignment>, link: Link)
    returns (results: seq<Written>, failure: Option<Failure>)
    modifies d
    ensures Reports(results, old(d.cvs), list, FirstSeen(list))
    ensures d.cvs == Grouped(old(d.cvs), list, FirstSeen(list), |results|)
    ensures Stopped(link, list, FirstSeen(list), |results|, failure)
  {
    results := [];
    ghost var m := d.cvs;
    var groups, order := GroupCVBitAssignments(list);
    for i := 0 to |order|
      invariant |results| == i && Underway(results, d.cvs, m, list, link)
    {
      assert order[i] in order;
      ghost var before := d.cvs;
      var result;
      result, failure := ModifyCV(d, order[i], list, groups[order[i]], link);
      if failure.Some? {
        return;
      }
      OneMoreWritten(results, before, m, list, link);
      results := results + [result.value];
    }
    failure := None;
  }

  lemma NoObstacleNoBadBit(link: Link, list: seq<BitAssignment>, n: nat)
    requires n == |FirstSeen(list)| && Stopped(link, list, FirstSeen(list), n, None)
    ensures AllInRange(list)
  {
    var order := FirstSeen(list);
    forall a | a in list ensures InRange(a) {
      OfCVIn(list, a.cv);
      SeenIff(list, a.cv);
      var i :| 0 <= i < |order| && order[i] == a.cv;
      assert Obstacle(link, list, order[i]).None?;
    }
  }

  lemma DoableMeansNoObstacle(link: Link, list: seq<BitAssignment>, k: nat)
    requires k in FirstSeen(list) && forall a :: a in list ==> Doable(a, link)
    ensures Obstacle(link, list, k).None?
  {
    SeenIff(list, k);
    OfCVIn(list, k);
    var a := OfCV(list, k)[0];
    assert a in list && a.cv == k;
  }

  /** The memory after n groups without obstacles, CV by CV. */
  lemma DoneOrUntouched(m: Memory, list: seq<BitAssignment>, link: Link, n: nat, k: nat)
    requires n <= |FirstSeen(list)|
    requires forall i :: 0 <= i < n ==> Obstacle(link, list, FirstSeen(list)[i]).None?
    ensures At(Grouped(m, list, FirstSeen(list), n), k)
         == if k in FirstSeen(list)[..n] then At(OneByOne(m, list), k) else At(m, k)
  {
    var order := FirstSeen(list);
    GroupedAt(m, list, order, n, k);
    if k in order[..n] {
      var i :| 0 <= i < n && order[i] == k;
      assert Obstacle(link, list, order[i]).None?;
      OneByOneAt(m, list, k);
    }
  }

  predicate Doable(a: BitAssignment, link: Link) {
    a.bit <= 7 && a.cv !in link.unreadable && a.cv !in link.unwritable
  }

  /** SetCVBitAction; the station can fail at any CV. */
  method SetCVBits(d: Decoder, list: seq<BitAssignment>, link: Link)
    returns (results: seq<Written>, failure: Option<Failure>)
    modifies d
    ensures list == [] ==> failure == Some(NothingToDo) && results == [] && d.cvs == old(d.cvs)
    ensures list != [] ==> Stopped(link, list, FirstSeen(list), |results|, failure)
    // if all went well, the memory is as after one read-modify-write per assignment
    ensures failure.None? ==> AllInRange(list) && d.cvs == OneByOne(old(d.cvs), list)
    // and all goes well if the station and every bit number let it
    ensures list != [] && (forall a :: a in list ==> Doable(a, link)) ==> failure.None?
    ensures failure.None? ==> forall a :: a in list ==> a.bit <= 7
    // otherwise the first CV that is not reported says why
    ensures list != [] && failure.Some? ==>
              && |results| < |FirstSeen(list)|
              && var k := FirstSeen(list)[|results|];
                 var bad := exists a :: a in list && a.cv == k && a.bit > 7;
                 && failure.value == (if k in link.unreadable then ReadFailed(k)
                                      else if bad then BadBit(k)
                                      else WriteFailed(k))
                 && (failure.value.WriteFailed? ==> k in link.unwritable)
    // in any case the reported CVs are wholly done, and all the others are as before
    ensures Reports(results, old(d.cvs), list, FirstSeen(list))
    ensures forall k :: At(d.cvs, k) ==
              if k in FirstSeen(list)[..|results|] then At(OneByOne(old(d.cvs), list), k) else At(old(d.cvs), k)
  {
    if |list| == 0 {
      return [], Some(NothingToDo);
    }
    results, failure := ModifyInOrder(d, list, link);
    forall k ensures At(d.cvs, k) ==
        if k in FirstSeen(list)[..|results|] then At(OneByOne(old(d.cvs), list), k) else At(old(d.cvs), k) {
      DoneOrUntouched(old(d.cvs), list, link, |results|, k);
    }
    if failure.Some? {
      OfCVIn(list, FirstSeen(list)[|results|]);
    }
    if failure.None? {
      NoObstacleNoBadBit(link, list, |results|);
      GroupingKeepsMeaning(old(d.cvs), list);
    } else if forall a :: a in list ==> Doable(a, link) {
      DoableMeansNoObstacle(link, list, FirstSeen(list)[|results|]);
    }
  }
}
