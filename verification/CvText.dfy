/** The text form of configuration variables: `cv1=17, cv17-cv20=0, # comment`. */
module CvText {
  import opened Options
  import opened Text

  datatype CVEntry = CVEntry(number: nat, value: nat)

  /** What one line asks for. */
  datatype Line = Skip | Bad | Single(number: nat, value: nat) | Range(lo: nat, hi: nat, value: nat)

  /** The line without surrounding space and without its comment. */
  function Clean(line: string): string {
    var l := TrimSpace(line);
    var i := IndexOf(l, '#');
    if i.Some? then TrimSpace(l[..i.value]) else l
  }

  /** The name and the value text around the first equals sign; the value defaults to zero. */
  function Sides(c: string): (string, string) {
    var i := IndexOf(c, '=');
    if i.Some? then (TrimSpace(c[..i.value]), TrimSpace(c[i.value + 1..])) else (TrimSpace(c), "0")
  }

  function ParseLine(line: string): (r: Line)
    ensures r.Single? ==> r.number <= MAX_UINT16 && r.value <= MAX_UINT16
    ensures r.Range? ==> r.lo <= r.hi <= MAX_UINT16 && r.value <= MAX_UINT16
  {
    var c := Clean(line);
    if c == "" then Skip else
      var (name, text) := Sides(c);
      var lower := ToLower(name);
      var dash := IndexOf(lower, '-');
      if dash.Some? then
        var lo := ParseUint16(TrimPrefix(TrimSpace(lower[..dash.value]), "cv"));
        var hi := ParseUint16(TrimPrefix(TrimSpace(lower[dash.value + 1..]), "cv"));
        var v := ParseUint16(text);
        if lo.None? || hi.None? || lo.value > hi.value || v.None? then Bad else Range(lo.value, hi.value, v.value)
      else
        var n, v := ParseUint16(TrimPrefix(lower, "cv")), ParseUint16(text);
        if n.None? || v.None? then Bad else Single(n.value, v.value)
  }

  // ----- meaning of a whole text -----

  type Values = map<nat, nat>

  /** Hangs: a range up to 65535, whose uint16 counter never passes its end. */
  datatype Outcome = Done(values: Values) | Failed | Hangs

  predicate Within(k: nat, lo: nat, hi: nat) {
    lo <= k <= hi
  }

  function Filled(m: Values, lo: nat, hi: int, v: nat): Values {
    m + map k: nat | lo <= k <= hi && Within(k, lo, hi) :: v
  }

  function Assign(m: Values, l: Line): Outcome {
    match l
    case Skip => Done(m)
    case Bad => Failed
    case Single(n, v) => Done(m[n := v])
    case Range(lo, hi, v) => if hi == MAX_UINT16 then Hangs else Done(Filled(m, lo, hi, v))
  }

  /** The effect of the lines, one after the other; the first that fails or hangs decides. */
  function Meaning(ls: seq<Line>): Outcome {
    if ls == [] then Done(map[]) else
      var before := Meaning(ls[..|ls| - 1]);
      if before.Done? then Assign(before.values, ls[|ls| - 1]) else before
  }

  predicate Covers(l: Line, k: nat) {
    (l.Single? && l.number == k) || (l.Range? && l.lo <= k <= l.hi)
  }

  /** The value of the last line that covers k. */
  function LastCovering(ls: seq<Line>, k: nat): Option<nat> {
    if ls == [] then None
    else if Covers(ls[|ls| - 1], k) then Some(ls[|ls| - 1].value)
    else LastCovering(ls[..|ls| - 1], k)
  }

  /** Each variable has the value of the last assignment or range that covers it. */
  lemma {:induction false} LastOneWins(ls: seq<Line>, k: nat)
    requires Meaning(ls).Done?
    ensures var m := Meaning(ls).values;
      (k in m <==> LastCovering(ls, k).Some?) && (k in m ==> LastCovering(ls, k) == Some(m[k]))
  {
    if ls != [] {
      LastOneWins(ls[..|ls| - 1], k);
    }
  }

  predicate Fine(l: Line) {
    !l.Bad? && (l.Range? ==> l.hi != MAX_UINT16)
  }

  /** A text is accepted just when every line is well formed and no range ends at 65535. */
  lemma {:induction false} AcceptedIff(ls: seq<Line>)
    ensures Meaning(ls).Done? <==> forall l :: l in ls ==> Fine(l)
  {
    if ls != [] {
      var before, last := ls[..|ls| - 1], ls[|ls| - 1];
      AcceptedIff(before);
      assert Meaning(ls).Done? <==> Meaning(before).Done? && Fine(last);
      assert ls == before + [last];
      assert forall l :: l in ls <==> l in before || l == last;
    }
  }

  lemma {:induction false} FirstFailureDecides(ls: seq<Line>, i: nat)
    requires i <= |ls| && !Meaning(ls[..i]).Done?
    ensures Meaning(ls) == Meaning(ls[..i])
  {
    if i == |ls| {
      assert ls[..i] == ls;
    } else {
      assert ls[..|ls| - 1][..i] == ls[..i];
      FirstFailureDecides(ls[..|ls| - 1], i);
    }
  }

  function SeparatorOr(separator: string): (r: string)
    ensures r != ""
  {
    if separator == "" then "\n" else separator
  }

  function LinesOf(texts: seq<string>): (r: seq<Line>)
    ensures |r| == |texts| && forall i :: 0 <= i < |texts| ==> r[i] == ParseLine(texts[i])
  {
    seq(|texts|, i requires 0 <= i < |texts| => ParseLine(texts[i]))
  }

  function TextMeaning(input: string, separator: string): Outcome {
    Meaning(LinesOf(Split(input, SeparatorOr(separator))))
  }

  /** Without a separator, lines are separated by newlines. */
  lemma EmptySeparator(input: string)
    ensures TextMeaning(input, "") == TextMeaning(input, "\n")
  {
  }

  // ----- the uint16 range counter -----

  /** The counter after n increments. */
  function Counter(lo: nat, n: nat): nat {
    (lo + n) % (MAX_UINT16 + 1)
  }

  /** The range loop leaves off just when its end is below 65535; at 65535 it wraps round for ever. */
  lemma RangeLoopEndsIff(lo: nat, hi: nat)
    requires lo <= hi <= MAX_UINT16
    ensures (exists n: nat :: Counter(lo, n) > hi) <==> hi < MAX_UINT16
  {
    if hi < MAX_UINT16 {
      assert Counter(lo, hi + 1 - lo) == hi + 1;
    }
  }

  // ----- the sorted result -----

  ghost predicate Ascending(es: seq<CVEntry>) {
    forall i, j :: 0 <= i < j < |es| ==> es[i].number < es[j].number
  }

  /** es lists exactly the given values, in strictly ascending order. */
  ghost predicate Lists(es: seq<CVEntry>, m: Values) {
    && Ascending(es)
    && (forall e :: e in es ==> e.number in m && m[e.number] == e.value)
    && (forall k :: k in m ==> CVEntry(k, m[k]) in es)
  }

  lemma FirstListed(es: seq<CVEntry>, fs: seq<CVEntry>, m: Values)
    requires Lists(es, m) && Lists(fs, m) && es != [] && fs != []
    ensures fs[0].number <= es[0].number
  {
    assert es[0] in es;
    assert CVEntry(es[0].number, m[es[0].number]) in fs;
  }

  lemma RestLists(es: seq<CVEntry>, m: Values)
    requires Lists(es, m) && es != []
    ensures Lists(es[1..], m - {es[0].number})
  {
    var rest := m - {es[0].number};
    forall e | e in es[1..] ensures e.number in rest && rest[e.number] == e.value {
      assert e in es;
    }
    forall k | k in rest ensures CVEntry(k, rest[k]) in es[1..] {
      assert CVEntry(k, m[k]) in es;
    }
  }

  lemma EmptyListing(es: seq<CVEntry>, m: Values)
    requires Lists(es, m)
    ensures es == [] <==> m == map[]
  {
    if es != [] {
      assert es[0] in es;
    }
    if m != map[] {
      assert m.Keys != {};
      var k :| k in m.Keys;
      assert CVEntry(k, m[k]) in es;
    }
  }

  lemma SameHead(es: seq<CVEntry>, fs: seq<CVEntry>, m: Values)
    requires Lists(es, m) && Lists(fs, m) && es != []
    ensures fs != [] && es[0] == fs[0]
  {
    EmptyListing(es, m);
    EmptyListing(fs, m);
    FirstListed(es, fs, m);
    FirstListed(fs, es, m);
    assert es[0] in es && fs[0] in fs;
  }

  lemma {:induction false} ListingUnique(es: seq<CVEntry>, fs: seq<CVEntry>, m: Values)
    requires Lists(es, m) && Lists(fs, m)
    ensures es == fs
    decreases |es|, 1
  {
    if es == [] {
      EmptyListing(es, m);
      EmptyListing(fs, m);
    } else {
      SameHead(es, fs, m);
      TailsUnique(es, fs, m);
    }
  }

  lemma TailsUnique(es: seq<CVEntry>, fs: seq<CVEntry>, m: Values)
    requires Lists(es, m) && Lists(fs, m) && es != [] && fs != [] && es[0] == fs[0]
    ensures es == fs
    decreases |es|, 0
  {
    assert es[1..] == fs[1..] by {
      RestLists(es, m);
      RestLists(fs, m);
      ListingUnique(es[1..], fs[1..], m - {es[0].number});
    }
    assert es == [es[0]] + es[1..] == fs;
  }

  datatype ParseResult = Parsed(entries: seq<CVEntry>) | ParseError | NeverReturns

  ghost predicate Means(r: ParseResult, o: Outcome) {
    match o
    case Done(m) => r.Parsed? && Lists(r.entries, m)
    case Failed => r.ParseError?
    case Hangs => r.NeverReturns?
  }

  lemma FillNone(m: Values, lo: nat, v: nat)
    ensures Filled(m, lo, lo - 1, v) == m
  {
  }

  lemma FillOneMore(m: Values, lo: nat, i: nat, v: nat)
    requires lo <= i
    ensures Filled(m, lo, i, v) == Filled(m, lo, i - 1, v)[i := v]
  {
    var l, r := Filled(m, lo, i, v), Filled(m, lo, i - 1, v)[i := v];
    forall k: nat ensures (k in l <==> k in r) && (k in l ==> l[k] == r[k]) {
      assert lo <= k <= i <==> k == i || lo <= k <= i - 1;
    }
  }

  /** The loop over a range, with the counter of the source. */
  method Expand(m: Values, lo: nat, hi: nat, v: nat) returns (r: Values)
    requires lo <= hi < MAX_UINT16
    ensures Done(r) == Assign(m, Range(lo, hi, v))
  {
    r := m;
    var i := lo;
    FillNone(m, lo, v);
    while i <= hi
      invariant lo <= i <= hi + 1
      invariant r == Filled(m, lo, i - 1, v)
    {
      FillOneMore(m, lo, i, v);
      r := r[i := v];
      i := (i + 1) % (MAX_UINT16 + 1);
    }
  }

  /** sort.Slice by number, over distinct numbers: each entry goes to its place. */
  method Insert(es: seq<CVEntry>, e: CVEntry, ghost m: Values) returns (r: seq<CVEntry>)
    requires Lists(es, m) && e.number !in m
    ensures Lists(r, m[e.number := e.value])
  {
    var i := 0;
    while i < |es| && es[i].number < e.number
      invariant 0 <= i <= |es|
      invariant forall j :: 0 <= j < i ==> es[j].number < e.number
    {
      i := i + 1;
    }
    r := es[..i] + [e] + es[i..];
    InsertLists(es, e, i, m);
  }

  lemma InsertAscends(es: seq<CVEntry>, e: CVEntry, i: nat)
    requires Ascending(es) && i <= |es|
    requires forall j :: 0 <= j < i ==> es[j].number < e.number
    requires i < |es| ==> e.number < es[i].number
    ensures Ascending(es[..i] + [e] + es[i..])
  {
    var r := es[..i] + [e] + es[i..];
    forall p, q | 0 <= p < q < |r| ensures r[p].number < r[q].number {
      assert r[p] == if p < i then es[p] else if p == i then e else es[p - 1];
      assert r[q] == if q < i then es[q] else if q == i then e else es[q - 1];
      assert q > i && p == i && q - 1 > i ==> es[i].number < es[q - 1].number;
    }
  }

  lemma InsertLists(es: seq<CVEntry>, e: CVEntry, i: nat, m: Values)
    requires Lists(es, m) && e.number !in m && i <= |es|
    requires forall j :: 0 <= j < i ==> es[j].number < e.number
    requires i < |es| ==> e.number <= es[i].number
    ensures Lists(es[..i] + [e] + es[i..], m[e.number := e.value])
  {
    var r, more := es[..i] + [e] + es[i..], m[e.number := e.value];
    assert i < |es| ==> es[i] in es;
    InsertAscends(es, e, i);
    assert forall x :: x in r <==> x == e || x in es by {
      assert es == es[..i] + es[i..];
    }
    forall x | x in r ensures x.number in more && more[x.number] == x.value {
      assert x == e || x in es;
    }
    forall k | k in more ensures CVEntry(k, more[k]) in r {
      assert k != e.number ==> CVEntry(k, m[k]) in es;
    }
  }

  method ParseCVString(input: string, separator: string) returns (r: ParseResult)
    ensures Means(r, TextMeaning(input, separator))
  {
    var lines := Split(input, SeparatorOr(separator));
    ghost var ls := LinesOf(lines);
    var unique: Values := map[];
    for i := 0 to |lines|
      invariant Meaning(ls[..i]) == Done(unique)
    {
      assert ls[..i + 1][..i] == ls[..i];
      var l := ParseLine(lines[i]);
      if l.Bad? {
        FirstFailureDecides(ls, i + 1);
        return ParseError;
      }
      if l.Range? && l.hi == MAX_UINT16 {
        FirstFailureDecides(ls, i + 1);
        return NeverReturns;
      }
      unique := AssignLine(unique, l);
    }
    assert ls[..|lines|] == ls;
    var entries := Sorted(unique);
    return Parsed(entries);
  }

  method AssignLine(m: Values, l: Line) returns (r: Values)
    requires Fine(l) && (l.Range? ==> l.lo <= l.hi <= MAX_UINT16)
    ensures Done(r) == Assign(m, l)
  {
    match l {
      case Skip => r := m;
      case Single(n, v) => r := m[n := v];
      case Range(lo, hi, v) => r := Expand(m, lo, hi, v);
    }
  }

  /** The map's entries, met in any order, sorted by number. */
  method Sorted(unique: Values) returns (result: seq<CVEntry>)
    ensures Lists(result, unique)
  {
    result := [];
    var left := unique.Keys;
    assert unique - left == map[];
    while left != {}
      invariant left <= unique.Keys
      invariant Lists(result, unique - left)
    {
      var k :| k in left;
      assert unique - (left - {k}) == (unique - left)[k := unique[k]];
      result := Insert(result, CVEntry(k, unique[k]), unique - left);
      left := left - {k};
    }
    assert unique - left == unique;
  }
}
