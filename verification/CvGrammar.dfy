/** Which lines the CV parser reads, and as what: the grammar of one line, against the code that cuts and trims it. */
module CvGrammar {
  import opened Options
  import opened Text
  import opened CvText

  // ----- the grammar -----

  predicate Spaces(w: string) {
    forall i :: 0 <= i < |w| ==> IsSpace(w[i])
  }

  /** `cv` in any case, or nothing. */
  predicate GoodPrefix(p: string) {
    p == "" || p in {"cv", "cV", "Cv", "CV"}
  }

  /** A number between spaces, after a prefix or none. */
  datatype Num = Num(before: string, prefix: string, digits: string, after: string)

  predicate GoodNum(n: Num) {
    && Spaces(n.before) && Spaces(n.after) && n.digits != "" && AllDigits(n.digits)
    && GoodPrefix(n.prefix)
  }

  function NumText(n: Num): string {
    n.before + n.prefix + n.digits + n.after
  }

  datatype Name = One(n: Num) | Span(lo: Num, hi: Num)

  /** One variable or a span of them, a value after an equals sign or none, a comment or none. */
  datatype Written = Written(name: Name, value: Option<Num>, comment: string)

  predicate GoodComment(comment: string) {
    comment == "" || comment[0] == '#'
  }

  predicate Good(w: Written) {
    && (match w.name
        case One(n) => GoodNum(n)
        case Span(lo, hi) => GoodNum(lo) && GoodNum(hi))
    && (w.value.Some? ==> GoodNum(w.value.value) && w.value.value.prefix == "")
    && GoodComment(w.comment)
  }

  function NameText(name: Name): string {
    match name
    case One(n) => NumText(n)
    case Span(lo, hi) => NumText(lo) + ['-'] + NumText(hi)
  }

  function ValueText(value: Option<Num>): string {
    if value.Some? then ['='] + NumText(value.value) else ""
  }

  function LineText(w: Written): string {
    NameText(w.name) + ValueText(w.value) + w.comment
  }

  function NumValue(n: Num): nat
    requires GoodNum(n)
  {
    ValueOf(n.digits)
  }

  /** What the line asks for; numbers must fit into 16 bits and spans must not run backwards. */
  function Says(w: Written): Line
    requires Good(w)
  {
    var v := if w.value.Some? then NumValue(w.value.value) else 0;
    match w.name
    case One(n) => if NumValue(n) <= 65535 && v <= 65535 then Single(NumValue(n), v) else Bad
    case Span(lo, hi) =>
      if NumValue(lo) <= NumValue(hi) <= 65535 && v <= 65535 then Range(NumValue(lo), NumValue(hi), v) else Bad
  }

  // ----- trimming -----

  lemma {:induction false} TrimLeftSpaces(w: string, s: string)
    requires Spaces(w)
    ensures TrimLeft(w + s, IsSpace) == TrimLeft(s, IsSpace)
  {
    if w == "" {
      assert w + s == s;
    } else {
      assert (w + s)[1..] == w[1..] + s;
      TrimLeftSpaces(w[1..], s);
    }
  }

  lemma {:induction false} TrimRightSpaces(s: string, w: string)
    requires Spaces(w)
    ensures TrimRight(s + w, IsSpace) == TrimRight(s, IsSpace)
  {
    if w == "" {
      assert s + w == s;
    } else {
      assert (s + w)[..|s + w| - 1] == s + w[..|w| - 1];
      TrimRightSpaces(s, w[..|w| - 1]);
    }
  }

  lemma Associates(a: string, b: string, c: string)
    ensures a + b + c == a + (b + c)
  {
  }

  /** The spaces that trimming takes away on either side. */
  lemma {:induction false} LeftSpaces(s: string) returns (w: string)
    ensures Spaces(w) && s == w + TrimLeft(s, IsSpace)
    ensures TrimLeft(s, IsSpace) != "" ==> !IsSpace(TrimLeft(s, IsSpace)[0])
  {
    if s != "" && IsSpace(s[0]) {
      var v := LeftSpaces(s[1..]);
      Associates([s[0]], v, TrimLeft(s[1..], IsSpace));
      w := [s[0]] + v;
    } else {
      w := "";
    }
  }

  lemma {:induction false} RightSpaces(s: string) returns (w: string)
    ensures Spaces(w) && s == TrimRight(s, IsSpace) + w
    ensures TrimRight(s, IsSpace) != "" ==> !IsSpace(TrimRight(s, IsSpace)[|TrimRight(s, IsSpace)| - 1])
  {
    if s != "" && IsSpace(s[|s| - 1]) {
      var v := RightSpaces(s[..|s| - 1]);
      Associates(TrimRight(s[..|s| - 1], IsSpace), v, [s[|s| - 1]]);
      w := v + [s[|s| - 1]];
    } else {
      w := "";
    }
  }

  /** A text is its trimmed form between spaces. */
  lemma TrimParts(s: string) returns (before: string, after: string)
    ensures Spaces(before) && Spaces(after) && s == before + TrimSpace(s) + after
  {
    before := LeftSpaces(s);
    after := RightSpaces(TrimLeft(s, IsSpace));
  }

  /** And whatever stands between spaces without being padded itself is the trimmed form. */
  lemma TrimCore(before: string, core: string, after: string)
    requires Spaces(before) && Spaces(after) && core != "" && !IsSpace(core[0]) && !IsSpace(core[|core| - 1])
    ensures TrimSpace(before + core + after) == core
  {
    assert before + core + after == before + (core + after);
    TrimLeftSpaces(before, core + after);
    assert (core + after)[0] == core[0];
    TrimRightSpaces(core, after);
  }

  lemma TrimBlank(w: string)
    ensures TrimSpace(w) == "" <==> Spaces(w)
  {
    var before, after := TrimParts(w);
    if Spaces(w) {
      TrimLeftSpaces(w, "");
      assert w + "" == w;
    }
  }

  lemma Regroup(a: string, b: string, c: string, d: string, e: string)
    ensures a + b + c + (d + e) == a + (b + c + d) + e
  {
  }

  /** Trimming around a character that is no space trims both sides on their own. */
  lemma TrimAround(l: string, x: char, r: string)
    requires !IsSpace(x)
    ensures TrimSpace(l + [x] + r) == TrimLeft(l, IsSpace) + [x] + TrimRight(r, IsSpace)
  {
    var before := LeftSpaces(l);
    var after := RightSpaces(r);
    var l1, r1 := TrimLeft(l, IsSpace), TrimRight(r, IsSpace);
    var core := l1 + [x] + r1;
    Regroup(before, l1, [x], r1, after);
    assert core[0] == if l1 == "" then x else l1[0];
    assert core[|core| - 1] == if r1 == "" then x else r1[|r1| - 1];
    TrimCore(before, core, after);
  }

  lemma TrimTwice(s: string)
    ensures TrimSpace(TrimLeft(s, IsSpace)) == TrimSpace(s)
    ensures TrimSpace(TrimRight(s, IsSpace)) == TrimSpace(s)
  {
    var before := LeftSpaces(s);
    var after := RightSpaces(s);
    TrimLeftSpaces(before, TrimLeft(s, IsSpace));
    var r := TrimRight(s, IsSpace);
    TrimBothWays(r, after);
  }

  lemma TrimBothWays(r: string, after: string)
    requires Spaces(after)
    ensures TrimSpace(r + after) == TrimSpace(r)
  {
    var b, a := TrimParts(r);
    var core := TrimSpace(r);
    if core == "" {
      assert Spaces(r + after);
      TrimBlank(r + after);
    } else {
      TrimEnds(r);
      assert r + after == b + core + (a + after);
      TrimCore(b, core, a + after);
    }
  }

  lemma TrimEnds(s: string)
    ensures var t := TrimSpace(s); t != "" ==> !IsSpace(t[0]) && !IsSpace(t[|t| - 1])
  {
    var w := LeftSpaces(s);
    var v := RightSpaces(TrimLeft(s, IsSpace));
    var l, t := TrimLeft(s, IsSpace), TrimSpace(s);
    assert t != "" ==> t[0] == l[0];
  }

  // ----- cutting -----

  /** The trimmed text is cut at the same place as the text. */
  lemma CutTrimmed(l: string, x: char, r: string)
    requires x !in l && !IsSpace(x)
    ensures var c := TrimSpace(l + [x] + r);
      && IndexOf(c, x) == Some(|TrimLeft(l, IsSpace)|)
      && TrimSpace(c[..|TrimLeft(l, IsSpace)|]) == TrimSpace(l)
      && TrimSpace(c[|TrimLeft(l, IsSpace)| + 1..]) == TrimSpace(r)
  {
    var l1, r1 := TrimLeft(l, IsSpace), TrimRight(r, IsSpace);
    var before := LeftSpaces(l);
    TrimAround(l, x, r);
    assert x !in l1 by {
      assert l == before + l1;
    }
    IndexOfSkips(l1, r1, x);
    var c := l1 + [x] + r1;
    assert c[..|l1|] == l1 && c[|l1| + 1..] == r1;
    TrimTwice(l);
    TrimTwice(r);
  }

  lemma UncutTrimmed(l: string, x: char)
    requires x !in l
    ensures x !in TrimSpace(l) && TrimSpace(TrimSpace(l)) == TrimSpace(l)
  {
    var b, a := TrimParts(l);
    assert forall i :: 0 <= i < |TrimSpace(l)| ==> TrimSpace(l)[i] == l[|b| + i];
    TrimEnds(l);
    if TrimSpace(l) != "" {
      TrimKeeps(TrimSpace(l), IsSpace);
    }
  }

  /** What is left of a line without its comment. */
  lemma CleanIs(body: string, comment: string)
    requires '#' !in body && GoodComment(comment)
    ensures Clean(body + comment) == TrimSpace(body)
  {
    if comment == "" {
      assert body + comment == body;
      UncutTrimmed(body, '#');
    } else {
      assert body + comment == body + ['#'] + comment[1..];
      CutTrimmed(body, '#', comment[1..]);
    }
  }

  // ----- names and numbers -----

  lemma LowerSpace(c: char)
    ensures IsSpace(Lower(c)) <==> IsSpace(c)
  {
  }

  lemma LowerParts(a: string, b: string)
    ensures ToLower(a + b) == ToLower(a) + ToLower(b)
  {
  }

  /** Lower case and trimming do not get into each other's way. */
  lemma LowerTrims(s: string)
    ensures ToLower(TrimSpace(s)) == TrimSpace(ToLower(s))
  {
    var b, a := TrimParts(s);
    var t := TrimSpace(s);
    LowerParts(b + t, a);
    LowerParts(b, t);
    TrimEnds(s);
    forall i | 0 <= i < |s| ensures IsSpace(ToLower(s)[i]) <==> IsSpace(s[i]) {
      LowerSpace(s[i]);
    }
    SpacesLower(b);
    SpacesLower(a);
    if t == "" {
      assert Spaces(ToLower(s));
      TrimBlank(ToLower(s));
    } else {
      LowerSpace(t[0]);
      LowerSpace(t[|t| - 1]);
      TrimCore(ToLower(b), ToLower(t), ToLower(a));
    }
  }

  lemma SpacesLower(w: string)
    requires Spaces(w)
    ensures Spaces(ToLower(w))
  {
    forall i | 0 <= i < |w| ensures IsSpace(ToLower(w)[i]) {
      LowerSpace(w[i]);
    }
  }

  lemma LowerKeepsDash(s: string)
    ensures '-' in ToLower(s) <==> '-' in s
  {
    if '-' in s {
      var i :| 0 <= i < |s| && s[i] == '-';
      assert ToLower(s)[i] == '-';
    }
    if '-' in ToLower(s) {
      var i :| 0 <= i < |s| && ToLower(s)[i] == '-';
      assert s[i] == '-';
    }
  }

  /** The digits that the parser tries to read in a name or half a name. */
  function DigitsOf(a: string): string {
    TrimPrefix(TrimSpace(ToLower(a)), "cv")
  }

  lemma DigitsLower(d: string)
    requires AllDigits(d)
    ensures ToLower(d) == d
  {
  }

  lemma PrefixCut(p: string, d: string)
    requires GoodPrefix(p) && d != "" && AllDigits(d)
    ensures TrimPrefix(ToLower(p + d), "cv") == d
  {
    LowerParts(p, d);
    DigitsLower(d);
    if p == "" {
      assert ToLower(p + d)[0] == d[0] != 'c';
    } else {
      assert ToLower(p) == "cv";
      TrimPrefixCuts("cv", d);
    }
  }

  lemma TrimPrefixCuts(p: string, d: string)
    ensures TrimPrefix(p + d, p) == d
  {
    assert (p + d)[|p|..] == d;
  }

  lemma DigitsBare(n: Num)
    requires GoodNum(n)
    ensures DigitsOf(NumText(n)) == n.digits
  {
    var core := n.prefix + n.digits;
    assert NumText(n) == n.before + core + n.after;
    assert core[0] == (if n.prefix == "" then n.digits[0] else n.prefix[0]);
    assert core[|core| - 1] == n.digits[|n.digits| - 1];
    TrimCore(n.before, core, n.after);
    LowerTrims(NumText(n));
    PrefixCut(n.prefix, n.digits);
  }

  lemma CutPrefix(core: string) returns (p: string, d: string)
    requires AllDigits(TrimPrefix(ToLower(core), "cv"))
    ensures GoodPrefix(p) && core == p + d && d == TrimPrefix(ToLower(core), "cv")
  {
    var lower := ToLower(core);
    if "cv" <= lower {
      p, d := core[..2], core[2..];
      assert core == p + d;
      LowerParts(p, d);
      assert lower[..2] == ToLower(p) && lower[2..] == ToLower(d);
      PrefixLetters(p);
      LowerDigits(d);
    } else {
      p, d := "", core;
      LowerDigits(core);
    }
  }

  /** A text whose digits can be read is a number between spaces. */
  lemma NumOf(a: string) returns (n: Num)
    requires ParseUint16(DigitsOf(a)).Some?
    ensures GoodNum(n) && NumText(n) == a && n.digits == DigitsOf(a)
  {
    var b, e := TrimParts(a);
    LowerTrims(a);
    var p, d := CutPrefix(TrimSpace(a));
    n := Num(b, p, d, e);
    Associates(b, p, d);
  }

  lemma PrefixLetters(p: string)
    requires ToLower(p) == "cv"
    ensures p in {"cv", "cV", "Cv", "CV"}
  {
    assert |p| == |ToLower(p)| == 2;
    assert Lower(p[0]) == ToLower(p)[0] == 'c' && Lower(p[1]) == ToLower(p)[1] == 'v';
    assert p[0] == 'c' || p[0] == 'C';
    assert p[1] == 'v' || p[1] == 'V';
    assert p == [p[0], p[1]];
  }

  lemma LowerDigits(d: string)
    requires AllDigits(ToLower(d))
    ensures ToLower(d) == d
  {
    forall i | 0 <= i < |d| ensures ToLower(d)[i] == d[i] {
      assert IsDigit(ToLower(d)[i]) && ToLower(d)[i] == Lower(d[i]);
    }
  }

  // ----- a line in pieces -----

  /** What the parser makes of a name and a value text. */
  function ReadName(l: string, text: string): Line {
    var dash := IndexOf(l, '-');
    if dash.Some? then
      var lo, hi := ParseUint16(DigitsOf(l[..dash.value])), ParseUint16(DigitsOf(l[dash.value + 1..]));
      var v := ParseUint16(text);
      if lo.None? || hi.None? || lo.value > hi.value || v.None? then Bad else Range(lo.value, hi.value, v.value)
    else
      var n, v := ParseUint16(DigitsOf(l)), ParseUint16(text);
      if n.None? || v.None? then Bad else Single(n.value, v.value)
  }

  lemma DashIsCut(a: string, b: string)
    requires '-' !in a
    ensures var lower := TrimSpace(ToLower(a + ['-'] + b));
      var dash := IndexOf(lower, '-');
      && dash.Some?
      && TrimSpace(lower[..dash.value]) == TrimSpace(ToLower(a))
      && TrimSpace(lower[dash.value + 1..]) == TrimSpace(ToLower(b))
  {
    LowerParts(a + ['-'], b);
    LowerParts(a, ['-']);
    LowerKeepsDash(a);
    assert ToLower(['-']) == ['-'];
    CutTrimmed(ToLower(a), '-', ToLower(b));
  }

  lemma NameIsRead(l: string, text: string)
    ensures var lower := ToLower(TrimSpace(l));
      var dash := IndexOf(lower, '-');
      && (dash.None? <==> IndexOf(l, '-').None?)
      && (dash.None? ==> TrimPrefix(lower, "cv") == DigitsOf(l))
      && (dash.Some? ==>
            && TrimPrefix(TrimSpace(lower[..dash.value]), "cv") == DigitsOf(l[..IndexOf(l, '-').value])
            && TrimPrefix(TrimSpace(lower[dash.value + 1..]), "cv") == DigitsOf(l[IndexOf(l, '-').value + 1..]))
  {
    LowerTrims(l);
    LowerKeepsDash(l);
    var dash := IndexOf(l, '-');
    if dash.Some? {
      assert l == l[..dash.value] + ['-'] + l[dash.value + 1..];
      DashIsCut(l[..dash.value], l[dash.value + 1..]);
    } else {
      UncutTrimmed(ToLower(l), '-');
    }
  }

  function Body(l: string, r: Option<string>): string {
    l + if r.Some? then ['='] + r.value else ""
  }

  predicate Pieces(l: string, r: Option<string>, comment: string) {
    '=' !in l && '#' !in l && (r.Some? ==> '#' !in r.value) && GoodComment(comment)
  }

  /** The parser reads a line as its name and value, cut at the first equals sign and before the first hash. */
  lemma PiecesAreRead(l: string, r: Option<string>, comment: string)
    requires Pieces(l, r, comment)
    ensures ParseLine(Body(l, r) + comment) ==
            if Spaces(Body(l, r)) then Skip
            else ReadName(l, if r.Some? then TrimSpace(r.value) else "0")
  {
    BodyBare(l, r);
    CleanIs(Body(l, r), comment);
    TrimBlank(Body(l, r));
    BodySides(l, r);
    if !Spaces(Body(l, r)) {
      SidesAreRead(Body(l, r) + comment, l, if r.Some? then TrimSpace(r.value) else "0");
    }
  }

  lemma BodyBare(l: string, r: Option<string>)
    requires '#' !in l && (r.Some? ==> '#' !in r.value)
    ensures '#' !in Body(l, r)
  {
  }

  lemma BodySides(l: string, r: Option<string>)
    requires '=' !in l
    ensures Sides(TrimSpace(Body(l, r))) == (TrimSpace(l), if r.Some? then TrimSpace(r.value) else "0")
  {
    if r.Some? {
      assert Body(l, r) == l + ['='] + r.value;
      CutTrimmed(l, '=', r.value);
    } else {
      assert Body(l, r) == l;
      UncutTrimmed(l, '=');
    }
  }

  lemma SidesAreRead(line: string, l: string, text: string)
    requires Clean(line) != "" && Sides(Clean(line)) == (TrimSpace(l), text)
    ensures ParseLine(line) == ReadName(l, text)
  {
    NameIsRead(l, text);
  }

  // ----- what is written is read -----

  /** A character that can stand in a number, spaces included. */
  predicate InNum(c: char) {
    IsSpace(c) || IsDigit(c) || c in {'c', 'v', 'C', 'V'}
  }

  lemma NumPlain(n: Num)
    requires GoodNum(n)
    ensures forall i :: 0 <= i < |NumText(n)| ==> InNum(NumText(n)[i])
    ensures '=' !in NumText(n) && '#' !in NumText(n) && '-' !in NumText(n)
    ensures !Spaces(NumText(n))
  {
    var t, k := NumText(n), |n.before| + |n.prefix|;
    forall i | 0 <= i < |t| ensures InNum(t[i]) {
      assert t[i] == if i < |n.before| then n.before[i]
                     else if i < k then n.prefix[i - |n.before|]
                     else if i < k + |n.digits| then n.digits[i - k]
                     else n.after[i - k - |n.digits|];
    }
    assert t[k] == n.digits[0] && IsDigit(t[k]);
  }

  lemma NamePlain(name: Name)
    requires match name case One(n) => GoodNum(n) case Span(lo, hi) => GoodNum(lo) && GoodNum(hi)
    ensures '=' !in NameText(name) && '#' !in NameText(name) && !Spaces(NameText(name))
  {
    match name
    case One(n) => NumPlain(n);
    case Span(lo, hi) =>
      NumPlain(lo);
      NumPlain(hi);
      assert NameText(name)[|NumText(lo)|] == '-';
  }

  lemma NameSays(name: Name, text: string)
    requires match name case One(n) => GoodNum(n) case Span(lo, hi) => GoodNum(lo) && GoodNum(hi)
    ensures var v := ParseUint16(text);
      ReadName(NameText(name), text) ==
      match name
      case One(n) => if NumValue(n) <= 65535 && v.Some? then Single(NumValue(n), v.value) else Bad
      case Span(lo, hi) =>
        if NumValue(lo) <= NumValue(hi) <= 65535 && v.Some? then Range(NumValue(lo), NumValue(hi), v.value) else Bad
  {
    match name
    case One(n) =>
      NumPlain(n);
      NumIsRead(n);
    case Span(lo, hi) =>
      NumIsRead(lo);
      NumIsRead(hi);
      SpanIsCut(lo, hi);
  }

  lemma NumIsRead(n: Num)
    requires GoodNum(n)
    ensures ParseUint16(DigitsOf(NumText(n))) == if NumValue(n) <= 65535 then Some(NumValue(n)) else None
  {
    DigitsBare(n);
  }

  lemma SpanIsCut(lo: Num, hi: Num)
    requires GoodNum(lo) && GoodNum(hi)
    ensures var l := NameText(Span(lo, hi));
      var dash := IndexOf(l, '-');
      dash.Some? && l[..dash.value] == NumText(lo) && l[dash.value + 1..] == NumText(hi)
  {
    NumPlain(lo);
    IndexOfSkips(NumText(lo), NumText(hi), '-');
    var l := NumText(lo) + ['-'] + NumText(hi);
    assert l[..|NumText(lo)|] == NumText(lo) && l[|NumText(lo)| + 1..] == NumText(hi);
  }

  lemma ValueBare(n: Num)
    requires GoodNum(n) && n.prefix == ""
    ensures TrimSpace(NumText(n)) == n.digits
  {
    assert NumText(n) == n.before + n.digits + n.after;
    TrimCore(n.before, n.digits, n.after);
  }

  /** Whatever is written like this is read as what it says. */
  lemma WrittenIsRead(w: Written)
    requires Good(w)
    ensures ParseLine(LineText(w)) == Says(w)
  {
    var l, r := NameText(w.name), ValueRest(w.value);
    NamePlain(w.name);
    ValueIsRead(w.value);
    BlankStart(l, r);
    PiecesAreRead(l, r, w.comment);
    NameSays(w.name, if r.Some? then TrimSpace(r.value) else "0");
  }

  function ValueRest(value: Option<Num>): Option<string> {
    if value.Some? then Some(NumText(value.value)) else None
  }

  lemma ValueIsRead(value: Option<Num>)
    requires value.Some? ==> GoodNum(value.value) && value.value.prefix == ""
    ensures var r := ValueRest(value);
      var v := if value.Some? then NumValue(value.value) else 0;
      && (r.Some? ==> '#' !in r.value)
      && ParseUint16(if r.Some? then TrimSpace(r.value) else "0") == if v <= 65535 then Some(v) else None
  {
    if value.Some? {
      NumPlain(value.value);
      ValueBare(value.value);
    } else {
      assert "0"[..0] == "";
    }
  }

  lemma BlankStart(l: string, r: Option<string>)
    requires !Spaces(l)
    ensures !Spaces(Body(l, r))
  {
    var i :| 0 <= i < |l| && !IsSpace(l[i]);
    assert Body(l, r)[i] == l[i];
  }

  // ----- and nothing else is -----

  lemma NameOf(l: string, text: string) returns (name: Name)
    requires ReadName(l, text).Single? || ReadName(l, text).Range?
    ensures match name case One(n) => GoodNum(n) case Span(lo, hi) => GoodNum(lo) && GoodNum(hi)
    ensures NameText(name) == l
  {
    var dash := IndexOf(l, '-');
    if dash.Some? {
      var a, b := l[..dash.value], l[dash.value + 1..];
      var lo := NumOf(a);
      var hi := NumOf(b);
      name := Span(lo, hi);
      assert l == a + ['-'] + b;
    } else {
      var n := NumOf(l);
      name := One(n);
    }
  }

  lemma CutComment(line: string) returns (body: string, comment: string)
    ensures line == body + comment && '#' !in body && GoodComment(comment)
  {
    var i := IndexOf(line, '#');
    body, comment := if i.Some? then line[..i.value] else line, if i.Some? then line[i.value..] else "";
  }

  lemma CutValue(body: string) returns (l: string, r: Option<string>)
    requires '#' !in body
    ensures body == Body(l, r) && Pieces(l, r, "")
  {
    var i := IndexOf(body, '=');
    if i.Some? {
      l, r := body[..i.value], Some(body[i.value + 1..]);
      assert body == l + ['='] + r.value;
    } else {
      l, r := body, None;
    }
  }

  /** A line that is read as an assignment is written like one. */
  lemma ReadIsWritten(line: string) returns (w: Written)
    requires ParseLine(line).Single? || ParseLine(line).Range?
    ensures Good(w) && LineText(w) == line && Says(w) == ParseLine(line)
  {
    var body, comment := CutComment(line);
    var l, r := CutValue(body);
    PiecesAreRead(l, r, comment);
    var name := NameOf(l, if r.Some? then TrimSpace(r.value) else "0");
    var value := ValueWritten(r);
    w := Written(name, value, comment);
    WrittenIsRead(w);
  }

  lemma ValueWritten(r: Option<string>) returns (value: Option<Num>)
    requires r.Some? ==> ParseUint16(TrimSpace(r.value)).Some?
    ensures value.Some? ==> GoodNum(value.value) && value.value.prefix == ""
    ensures ValueRest(value) == r
  {
    value := None;
    if r.Some? {
      var b, e := TrimParts(r.value);
      value := Some(Num(b, "", TrimSpace(r.value), e));
      assert NumText(value.value) == b + TrimSpace(r.value) + e;
    }
  }

  /** A line is an assignment exactly when it is written like one, and asks for exactly what it says. */
  lemma ReadIff(line: string, l: Line)
    requires l.Single? || l.Range?
    ensures ParseLine(line) == l <==> exists w :: Good(w) && LineText(w) == line && Says(w) == l
  {
    if ParseLine(line) == l {
      var w := ReadIsWritten(line);
    }
    forall w | Good(w) && LineText(w) == line && Says(w) == l ensures ParseLine(line) == l {
      WrittenIsRead(w);
    }
  }

  /** It is skipped exactly when nothing but spaces stands before the comment; any other line is an error. */
  lemma SkippedIff(line: string)
    ensures ParseLine(line).Skip?
       <==> exists body, comment :: line == body + comment && Spaces(body) && GoodComment(comment)
  {
    var body, comment := CutComment(line);
    var l, r := CutValue(body);
    PiecesAreRead(l, r, comment);
    forall b, c | line == b + c && Spaces(b) && GoodComment(c) ensures ParseLine(line).Skip? {
      assert '#' !in b;
      CleanIs(b, c);
      TrimBlank(b);
    }
  }
}
