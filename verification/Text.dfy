/** The few string operations of Go's strings and strconv packages that the repository's text formats rest on. */
module Text {
  import opened Options

  const MAX_UINT16 := 65535

  // ----- decimal numbers -----

  function Digit(d: nat): (c: char)
    requires d < 10
  {
    '0' + (d as char)
  }

  predicate IsDigit(c: char) {
    '0' <= c <= '9'
  }

  predicate AllDigits(s: string) {
    forall i :: 0 <= i < |s| ==> IsDigit(s[i])
  }

  /** What "%d" prints for a non-negative number. */
  function Decimal(n: nat): (s: string)
    ensures |s| > 0 && AllDigits(s)
  {
    if n < 10 then [Digit(n)] else Decimal(n / 10) + [Digit(n % 10)]
  }

  /** The number that a run of digits denotes. */
  function ValueOf(s: string): (n: nat)
    requires AllDigits(s)
  {
    if s == [] then 0 else ValueOf(s[..|s| - 1]) * 10 + (s[|s| - 1] - '0') as nat
  }

  /** strconv.ParseUint(s, 10, 16): digits only, at least one, and no more than 65535. */
  function ParseUint16(s: string): (r: Option<nat>)
    ensures r.Some? ==> r.value <= MAX_UINT16
  {
    if s != [] && AllDigits(s) && ValueOf(s) <= MAX_UINT16 then Some(ValueOf(s)) else None
  }

  lemma {:induction false} ValueOfDecimal(n: nat)
    ensures ValueOf(Decimal(n)) == n
  {
    if n >= 10 {
      ValueOfDecimal(n / 10);
      assert Decimal(n)[..|Decimal(n)| - 1] == Decimal(n / 10);
    }
  }

  lemma DecimalInjective(m: nat, n: nat)
    requires Decimal(m) == Decimal(n)
    ensures m == n
  {
    ValueOfDecimal(m);
    ValueOfDecimal(n);
  }

  lemma ParseDecimal(n: nat)
    requires n <= MAX_UINT16
    ensures ParseUint16(Decimal(n)) == Some(n)
  {
    ValueOfDecimal(n);
  }

  /** A field that cannot contain its terminator is read back unambiguously. */
  lemma FieldInjective(a: string, b: string, x: string, y: string, sep: char)
    requires sep !in a && sep !in b
    requires a + [sep] + x == b + [sep] + y
    ensures a == b && x == y
  {
    var l, r := a + [sep] + x, b + [sep] + y;
    assert l[|a|] == sep && r[|b|] == sep;
    assert forall i :: 0 <= i < |a| ==> l[i] == a[i];
    assert forall i :: 0 <= i < |b| ==> r[i] == b[i];
    assert |a| == |b|;
    assert a == l[..|a|] == r[..|b|] == b;
    assert x == l[|a| + 1..] == r[|b| + 1..] == y;
  }

  // ----- searching and cutting -----

  /** strings.IndexByte. */
  function IndexOf(s: string, c: char): (r: Option<nat>)
    ensures r.None? <==> c !in s
    ensures r.Some? ==> r.value < |s| && s[r.value] == c && c !in s[..r.value]
  {
    if s == [] then None
    else if s[0] == c then Some(0)
    else var r := IndexOf(s[1..], c); if r.None? then None else Some(r.value + 1)
  }

  lemma {:induction false} IndexOfSkips(a: string, rest: string, c: char)
    requires c !in a
    ensures IndexOf(a + [c] + rest, c) == Some(|a|)
  {
    var s := a + [c] + rest;
    if a != [] {
      assert s[1..] == a[1..] + [c] + rest;
      IndexOfSkips(a[1..], rest, c);
    }
  }

  /** strings.Index. */
  function Find(s: string, sep: string): (r: Option<nat>)
    ensures r.Some? ==> r.value + |sep| <= |s|
  {
    if |s| < |sep| then None
    else if s[..|sep|] == sep then Some(0)
    else if s == [] then None
    else var r := Find(s[1..], sep); if r.None? then None else Some(r.value + 1)
  }

  /** strings.Split with a non-empty separator. */
  function Split(s: string, sep: string): seq<string>
    requires sep != ""
  {
    var i := Find(s, sep);
    if i.None? then [s] else [s[..i.value]] + Split(s[i.value + |sep|..], sep)
  }

  predicate IsSpace(c: char) {
    c in {'\t', '\n', '\U{0B}', '\U{0C}', '\r', ' ', '\U{85}', '\U{A0}', '\U{1680}', '\U{2028}',
        '\U{2029}', '\U{202F}', '\U{205F}', '\U{3000}'}
    || '\U{2000}' <= c <= '\U{200A}'
  }

  /** Below U+0080 these are the usual six. */
  lemma AsciiSpaces(c: char)
    requires c < '\U{80}'
    ensures IsSpace(c) <==> c == ' ' || '\t' <= c <= '\r'
  {
  }

  function TrimLeft(s: string, cut: char -> bool): string {
    if s != [] && cut(s[0]) then TrimLeft(s[1..], cut) else s
  }

  function TrimRight(s: string, cut: char -> bool): string {
    if s != [] && cut(s[|s| - 1]) then TrimRight(s[..|s| - 1], cut) else s
  }

  /** strings.TrimFunc. */
  function Trim(s: string, cut: char -> bool): string {
    TrimRight(TrimLeft(s, cut), cut)
  }

  function TrimSpace(s: string): string {
    Trim(s, IsSpace)
  }

  function TrimPrefix(s: string, prefix: string): string {
    if prefix <= s then s[|prefix|..] else s
  }

  function Lower(c: char): char {
    if 'A' <= c <= 'Z' then c - 'A' + 'a' else c
  }

  /** strings.ToLower, as far as ASCII letters are concerned. */
  function ToLower(s: string): (r: string)
    ensures |r| == |s| && forall i :: 0 <= i < |s| ==> r[i] == Lower(s[i])
  {
    seq(|s|, i requires 0 <= i < |s| => Lower(s[i]))
  }

  lemma {:induction false} FindSkips(a: string, rest: string, c: char)
    requires c !in a
    ensures Find(a + [c] + rest, [c]) == Some(|a|)
  {
    var s := a + [c] + rest;
    if a != [] {
      assert s[..1] != [c] by { assert s[..1][0] == a[0]; }
      assert s[1..] == a[1..] + [c] + rest;
      FindSkips(a[1..], rest, c);
    } else {
      assert s[..1] == [c];
    }
  }

  lemma {:induction false} FindNothing(s: string, c: char)
    requires c !in s
    ensures Find(s, [c]) == None
  {
    if s != [] {
      assert s[..1][0] == s[0];
      FindNothing(s[1..], c);
    }
  }

  lemma SplitField(a: string, rest: string, c: char)
    requires c !in a
    ensures Split(a + [c] + rest, [c]) == [a] + Split(rest, [c])
  {
    FindSkips(a, rest, c);
    var s := a + [c] + rest;
    assert s[..|a|] == a && s[|a| + 1..] == rest;
  }

  lemma SplitLast(a: string, c: char)
    requires c !in a
    ensures Split(a, [c]) == [a]
  {
    FindNothing(a, c);
  }

  /** A string that neither starts nor ends with a cut character is left alone. */
  lemma TrimKeeps(s: string, cut: char -> bool)
    requires s != [] && !cut(s[0]) && !cut(s[|s| - 1])
    ensures Trim(s, cut) == s
  {
  }
}
