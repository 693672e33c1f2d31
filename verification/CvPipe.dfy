/**
 * Reading CVs with one command and writing them with another:
 *   loco cv get cv1 cv17 | loco cv set cv8=0 -
 * The text printed for the reads, joined to the arguments and parsed.
 */
module CvPipe {
  import opened Options
  import opened Text
  import opened CvText
  import opened CvPrint

  /** One read; None is a read that failed. */
  datatype Read = Read(number: nat, value: Option<nat>)

  function Shown(r: Read): string {
    Rendered(r.number, if r.value.Some? then Decimal(r.value.value) else "ERROR")
  }

  function ShownAll(rs: seq<Read>): (ts: seq<string>)
    ensures |ts| == |rs| && forall i :: 0 <= i < |rs| ==> ts[i] == Shown(rs[i])
  {
    seq(|rs|, i requires 0 <= i < |rs| => Shown(rs[i]))
  }

  function LinesText(ts: seq<string>): string {
    if ts == [] then "" else LinesText(ts[..|ts| - 1]) + ts[|ts| - 1] + "\n"
  }

  /** What is printed: a lone value without its number for one read, numbered lines for several. */
  function Printed(rs: seq<Read>): string {
    if |rs| == 1 then
      if rs[0].value.Some? then LinesText([Decimal(rs[0].value.value)]) else ""
    else LinesText(ShownAll(rs))
  }

  /** The last read that failed. */
  function LastFailed(rs: seq<Read>): (r: Option<nat>)
    ensures r.None? <==> NoErrors(rs)
    ensures r.Some? ==> r.value < |rs| && rs[r.value].value.None? && NoErrors(rs[r.value + 1..])
  {
    if rs == [] then None
    else if rs[|rs| - 1].value.None? then Some(|rs| - 1)
    else
      var n := |rs| - 1;
      assert rs == rs[..n] + [rs[n]];
      var r := LastFailed(rs[..n]);
      assert r.Some? ==> rs[r.value + 1..] == rs[..n][r.value + 1..] + [rs[n]];
      r
  }

  lemma OneLine(d: string)
    ensures LinesText([d]) == d + "\n"
  {
    assert [d][..0] == [];
  }

  /** printCVReads; lastErr is the read whose error it returns. */
  method PrintCVReads(rs: seq<Read>) returns (out: string, lastErr: Option<nat>)
    ensures out == Printed(rs)
    ensures lastErr == LastFailed(rs)
  {
    if |rs| == 0 {
      return "", None;
    }
    if |rs| == 1 {
      if rs[0].value.None? {
        return "", Some(0);
      }
      OneLine(Decimal(rs[0].value.value));
      return Decimal(rs[0].value.value) + "\n", None;
    }
    out, lastErr := PrintLines(rs);
  }

  lemma MoreLines(ts: seq<string>, i: nat)
    requires i < |ts|
    ensures LinesText(ts[..i + 1]) == LinesText(ts[..i]) + ts[i] + "\n"
  {
    assert ts[..i + 1][..i] == ts[..i];
  }

  method PrintLines(rs: seq<Read>) returns (out: string, lastErr: Option<nat>)
    ensures out == LinesText(ShownAll(rs))
    ensures lastErr == LastFailed(rs)
  {
    out, lastErr := "", None;
    ghost var ts := ShownAll(rs);
    for i := 0 to |rs|
      invariant out == LinesText(ts[..i])
      invariant lastErr == LastFailed(rs[..i])
    {
      MoreLines(ts, i);
      assert rs[..i + 1][..i] == rs[..i];
      out := out + Shown(rs[i]) + "\n";
      if rs[i].value.None? {
        lastErr := Some(i);
      }
    }
    assert ts[..|rs|] == ts && rs[..|rs|] == rs;
  }

  // ----- the arguments -----

  predicate Blank(a: string) {
    Trim(a, c => c == ' ') == ""
  }

  /** The arguments with blank ones skipped; all but the first bring a space along. */
  function Glued(args: seq<string>): string {
    if args == [] then "" else
      var n := |args| - 1;
      Glued(args[..n]) + if Blank(args[n]) then "" else (if n > 0 then " " else "") + args[n]
  }

  /** An argument is blank when it has nothing but spaces. */
  lemma {:induction false} BlankIff(a: string)
    ensures Blank(a) <==> forall i :: 0 <= i < |a| ==> a[i] == ' '
  {
    TrimAllIff(a, c => c == ' ');
  }

  lemma {:induction false} TrimAllIff(a: string, cut: char -> bool)
    ensures Trim(a, cut) == "" <==> forall i :: 0 <= i < |a| ==> cut(a[i])
  {
    if a != "" && cut(a[0]) {
      TrimAllIff(a[1..], cut);
      assert forall i :: 1 <= i < |a| ==> a[i] == a[1..][i - 1];
      assert (forall i :: 0 <= i < |a| ==> cut(a[i])) <==> forall i :: 0 <= i < |a[1..]| ==> cut(a[1..][i]);
    } else if a != "" {
      RightKeepsFirst(a, cut);
    }
  }

  lemma {:induction false} RightKeepsFirst(a: string, cut: char -> bool)
    requires a != "" && !cut(a[0])
    ensures TrimRight(a, cut) != ""
  {
    if cut(a[|a| - 1]) {
      RightKeepsFirst(a[..|a| - 1], cut);
    }
  }

  /** The arguments as the shell would echo them. */
  function Echoed(args: seq<string>): string {
    if args == [] then "" else if |args| == 1 then args[0] else args[0] + " " + Echoed(args[1..])
  }

  lemma {:induction false} EchoedLast(args: seq<string>, a: string)
    requires args != []
    ensures Echoed(args + [a]) == Echoed(args) + " " + a
  {
    if |args| > 1 {
      assert (args + [a])[1..] == args[1..] + [a];
      EchoedLast(args[1..], a);
      assert args[0] + " " + (Echoed(args[1..]) + " " + a) == args[0] + " " + Echoed(args[1..]) + " " + a;
    } else {
      assert (args + [a])[1..] == [a];
    }
  }

  /** Arguments none of which is blank are joined by single spaces. */
  lemma {:induction false} GluedIsEchoed(args: seq<string>)
    requires forall a :: a in args ==> !Blank(a)
    ensures Glued(args) == Echoed(args)
  {
    if args != [] {
      var n := |args| - 1;
      GluedIsEchoed(args[..n]);
      assert args == args[..n] + [args[n]] && args[n] in args;
      if n > 0 {
        EchoedLast(args[..n], args[n]);
      }
    }
  }

  /** A blank argument after the first might as well not be there. */
  lemma {:induction false} BlankIsSkipped(before: seq<string>, a: string, after: seq<string>)
    requires before != [] && Blank(a)
    ensures Glued(before + [a] + after) == Glued(before + after)
  {
    var with, without := before + [a] + after, before + after;
    if after == [] {
      assert with[..|with| - 1] == before && without == before;
    } else {
      var n := |after| - 1;
      BlankIsSkipped(before, a, after[..n]);
      assert with[..|with| - 1] == before + [a] + after[..n] && without[..|without| - 1] == before + after[..n];
    }
  }

  /** strings.ReplaceAll(s, "\n", ", "). */
  function CommasForNewlines(s: string): string {
    if s == "" then "" else (if s[0] == '\n' then ", " else [s[0]]) + CommasForNewlines(s[1..])
  }

  function FromStdin(data: string): string {
    Trim(CommasForNewlines(data), c => c in {',', ' '})
  }

  function WithStdin(base: string, data: string): string {
    var s := FromStdin(data);
    if s == "" then base else base + ", " + s
  }

  predicate ReadsStdin(args: seq<string>) {
    args != [] && args[|args| - 1] == "-"
  }

  /** parseArgsAsCVs; a final "-" asks for standard input, whose reading can fail. */
  method ParseArgsAsCVs(args: seq<string>, stdin: Option<string>) returns (r: Option<string>)
    ensures args == [] ==> r == None
    ensures ReadsStdin(args) ==>
              r == if stdin.None? then None else Some(WithStdin(Glued(args[..|args| - 1]), stdin.value))
    ensures |args| == 1 && !ReadsStdin(args) ==> r == Some(args[0])
    ensures |args| > 1 && !ReadsStdin(args) ==> r == Some(Glued(args))
  {
    var rest, extra := args, "";
    if ReadsStdin(args) {
      rest := args[..|args| - 1];
      if stdin.None? {
        return None;
      }
      extra := FromStdin(stdin.value);
      rest := rest + [""];
      assert rest[..|args| - 1] == args[..|args| - 1] && Blank("");
      assert Glued(rest) == Glued(args[..|args| - 1]);
    }
    if |rest| == 0 {
      return None;
    }
    var cvString := rest[0];
    if |rest| > 1 {
      cvString := "";
      for i := 0 to |rest|
        invariant cvString == Glued(rest[..i])
      {
        assert rest[..i + 1][..i] == rest[..i];
        if !Blank(rest[i]) {
          if i > 0 {
            cvString := cvString + " ";
          }
          cvString := cvString + rest[i];
        }
      }
      assert rest[..|rest|] == rest;
    }
    assert ReadsStdin(args) && |rest| == 1 ==> args[..|args| - 1] == [] && cvString == "";
    assert ReadsStdin(args) ==> cvString == Glued(args[..|args| - 1]);
    r := Some(if extra == "" then cvString else cvString + ", " + extra);
  }

  // ----- from printed lines to a list -----

  lemma {:induction false} NewlinesReplaced(a: string, rest: string)
    requires '\n' !in a
    ensures CommasForNewlines(a + "\n" + rest) == a + ", " + CommasForNewlines(rest)
  {
    var s := a + "\n" + rest;
    if a == "" {
      assert s[1..] == rest;
    } else {
      assert s[1..] == a[1..] + "\n" + rest && s[0] == a[0];
      NewlinesReplaced(a[1..], rest);
      assert [a[0]] + (a[1..] + ", " + CommasForNewlines(rest)) == a + ", " + CommasForNewlines(rest);
    }
  }

  lemma {:induction false} LinesTextFirst(ts: seq<string>)
    requires ts != []
    ensures LinesText(ts) == ts[0] + "\n" + LinesText(ts[1..])
  {
    var n := |ts| - 1;
    if n == 0 {
      assert LinesText(ts[..0]) == "" && LinesText(ts[1..]) == "";
    } else {
      LinesTextFirst(ts[..n]);
      assert ts[..n][1..] == ts[1..][..n - 1];
      var mid := LinesText(ts[1..n]);
      assert ts[1..][..n - 1] == ts[1..n];
      assert (ts[0] + "\n" + mid) + ts[n] + "\n" == ts[0] + "\n" + (mid + ts[n] + "\n");
    }
  }

  lemma {:induction false} LinesBecomeList(ts: seq<string>)
    requires ts != [] && AllTidy(ts)
    ensures CommasForNewlines(LinesText(ts)) == Joined(ts) + ", "
    decreases |ts|
  {
    assert ts[0] in ts;
    TidyIsBare(ts[0]);
    LinesTextFirst(ts);
    NewlinesReplaced(ts[0], LinesText(ts[1..]));
    if |ts| > 1 {
      LinesBecomeList(ts[1..]);
      assert ts[0] + ", " + (Joined(ts[1..]) + ", ") == (ts[0] + ", " + Joined(ts[1..])) + ", ";
    }
  }

  lemma {:induction false} JoinedEnds(ts: seq<string>)
    requires ts != [] && AllTidy(ts)
    ensures var j := Joined(ts); j != "" && Plain(j[0]) && Plain(j[|j| - 1])
    decreases |ts|
  {
    assert ts[0] in ts;
    if |ts| > 1 {
      JoinedEnds(ts[1..]);
    }
  }

  lemma TrailingCommaTrimmed(j: string)
    requires j != "" && Plain(j[0]) && Plain(j[|j| - 1])
    ensures Trim(j + ", ", c => c in {',', ' '}) == j
  {
    var cut := (c: char) => c in {',', ' '};
    var s := j + ", ";
    assert TrimLeft(s, cut) == s;
    assert s[..|s| - 1] == j + ",";
    assert (j + ",")[..|j|] == j;
    assert TrimRight(j, cut) == j;
    assert TrimRight(j + ",", cut) == j;
  }

  lemma StdinIsList(ts: seq<string>)
    requires ts != [] && AllTidy(ts)
    ensures FromStdin(LinesText(ts)) == Joined(ts) != ""
  {
    LinesBecomeList(ts);
    JoinedEnds(ts);
    TrailingCommaTrimmed(Joined(ts));
  }

  // ----- lists after a list -----

  lemma ConcatAssociates<T>(a: seq<T>, b: seq<T>, c: seq<T>)
    ensures a + (b + c) == (a + b) + c
  {
  }

  lemma SplitFirst(x: string, y: string, rest: string, c: char)
    requires c !in x && Split(y + [c] + rest, [c]) == Split(y, [c]) + Split(rest, [c])
    ensures Split(x + [c] + (y + [c] + rest), [c]) == Split(x + [c] + y, [c]) + Split(rest, [c])
  {
    SplitField(x, y, c);
    SplitField(x, y + [c] + rest, c);
    ConcatAssociates([x], Split(y, [c]), Split(rest, [c]));
  }

  lemma CutAt(a: string, i: nat) returns (x: string, y: string)
    requires i < |a|
    ensures x == a[..i] && |y| < |a| && a == x + [a[i]] + y
  {
    x, y := a[..i], a[i + 1..];
  }

  lemma RegroupField(x: string, y: string, rest: string, c: char)
    ensures (x + [c] + y) + [c] + rest == x + [c] + (y + [c] + rest)
  {
  }

  lemma {:induction false} SplitBoth(a: string, rest: string, c: char)
    ensures Split(a + [c] + rest, [c]) == Split(a, [c]) + Split(rest, [c])
    decreases |a|
  {
    var i := IndexOf(a, c);
    if i.None? {
      SplitField(a, rest, c);
      SplitLast(a, c);
    } else {
      var x, y := CutAt(a, i.value);
      SplitBoth(y, rest, c);
      SplitFirst(x, y, rest, c);
      RegroupField(x, y, rest, c);
    }
  }

  lemma LinesOfBoth(a: seq<string>, b: seq<string>)
    ensures LinesOf(a + b) == LinesOf(a) + LinesOf(b)
  {
    var whole := a + b;
    forall i | 0 <= i < |whole| ensures LinesOf(whole)[i] == (LinesOf(a) + LinesOf(b))[i] {
      assert whole[i] == if i < |a| then a[i] else b[i - |a|];
    }
  }

  lemma CommaAndSpace(base: string, j: string)
    ensures base + ", " + j == base + [','] + (" " + j)
  {
  }

  /** A list put after a base text: its lines follow the base's lines. */
  lemma TextThenList(base: string, ts: seq<string>)
    requires ts != [] && AllTidy(ts)
    ensures TextMeaning(base + ", " + Joined(ts), ",") == Meaning(LinesOf(Split(base, ",")) + LinesOf(ts))
  {
    CommaAndSpace(base, Joined(ts));
    SplitBoth(base, " " + Joined(ts), ',');
    JoinedSplits(ts, " ");
    PiecesParse(ts, " ");
    LinesOfBoth(Split(base, ","), Pieces(ts, " "));
  }

  lemma {:induction false} AssignedAfter(ls: seq<Line>, es: seq<CVEntry>)
    requires Meaning(ls).Done?
    ensures Meaning(ls + Singles(es)) == Done(Meaning(ls).values + MapOf(es))
  {
    if es == [] {
      assert ls + Singles(es) == ls;
      assert Meaning(ls).values + map[] == Meaning(ls).values;
    } else {
      var n := |es| - 1;
      AssignedAfter(ls, es[..n]);
      var whole := ls + Singles(es);
      assert whole[..|whole| - 1] == ls + Singles(es[..n]);
      assert whole[|whole| - 1] == Single(es[n].number, es[n].value);
      var m := Meaning(ls).values;
      assert (m + MapOf(es[..n]))[es[n].number := es[n].value] == m + MapOf(es);
    }
  }

  lemma {:induction false} BadLineFails(ls: seq<Line>, more: seq<Line>)
    requires Meaning(ls).Done? && Bad in more
    requires forall l :: l in more ==> l.Bad? || l.Single?
    ensures Meaning(ls + more) == Failed
  {
    var n := |more| - 1;
    var whole := ls + more;
    assert whole[..|whole| - 1] == ls + more[..n] && whole[|whole| - 1] == more[n];
    if Bad in more[..n] {
      BadLineFails(ls, more[..n]);
    } else {
      assert more[n] == Bad by { assert more == more[..n] + [more[n]]; }
      NeverHangs(ls, more[..n]);
    }
  }

  lemma {:induction false} NeverHangs(ls: seq<Line>, more: seq<Line>)
    requires Meaning(ls).Done?
    requires forall l :: l in more ==> l.Bad? || l.Single?
    ensures !Meaning(ls + more).Hangs?
  {
    if more == [] {
      assert ls + more == ls;
    } else {
      var n := |more| - 1;
      NeverHangs(ls, more[..n]);
      var whole := ls + more;
      assert whole[..|whole| - 1] == ls + more[..n] && whole[|whole| - 1] == more[n];
    }
  }

  // ----- the round trip -----

  predicate Readable(r: Read) {
    r.number <= MAX_UINT16 && (r.value.Some? ==> r.value.value <= MAX_UINT16)
  }

  predicate AllReadable(rs: seq<Read>) {
    forall r :: r in rs ==> Readable(r)
  }

  predicate NoErrors(rs: seq<Read>) {
    forall r :: r in rs ==> r.value.Some?
  }

  function Entries(rs: seq<Read>): (es: seq<CVEntry>)
    requires NoErrors(rs)
    ensures |es| == |rs|
    ensures forall i :: 0 <= i < |rs| ==> es[i] == CVEntry(rs[i].number, rs[i].value.value)
  {
    seq(|rs|, i requires 0 <= i < |rs| => CVEntry(rs[i].number, rs[i].value.value))
  }

  lemma ShownParses(r: Read)
    requires Readable(r)
    ensures Tidy(Shown(r))
    ensures ParseLine(Shown(r)) == if r.value.Some? then Single(r.number, r.value.value) else Bad
  {
    if r.value.Some? {
      ParsesBack(CVEntry(r.number, r.value.value));
    } else {
      assert Tidy("ERROR");
      assert !IsDigit("ERROR"[0]);
      RenderedTidy(r.number, "ERROR");
      ParsesRendered(r.number, "ERROR");
    }
  }

  lemma AllShownParse(rs: seq<Read>)
    requires AllReadable(rs)
    ensures AllTidy(ShownAll(rs))
    ensures forall i :: 0 <= i < |rs| ==>
              LinesOf(ShownAll(rs))[i] == if rs[i].value.Some? then Single(rs[i].number, rs[i].value.value) else Bad
  {
    forall i | 0 <= i < |rs|
      ensures Tidy(ShownAll(rs)[i])
      ensures LinesOf(ShownAll(rs))[i]
           == if rs[i].value.Some? then Single(rs[i].number, rs[i].value.value) else Bad
    {
      assert rs[i] in rs;
      ShownParses(rs[i]);
    }
  }

  /** Two or more error-free reads piped in overrule what the arguments before the dash assign, and add the rest. */
  lemma PipedReadsOverrule(base: string, rs: seq<Read>)
    requires AllReadable(rs) && NoErrors(rs) && |rs| >= 2
    requires TextMeaning(base, ",").Done?
    ensures TextMeaning(WithStdin(base, Printed(rs)), ",")
         == Done(TextMeaning(base, ",").values + MapOf(Entries(rs)))
  {
    AllShownParse(rs);
    StdinIsList(ShownAll(rs));
    ListAfter(base, ShownAll(rs), Entries(rs));
  }

  /** If any of them failed, nothing is accepted. */
  lemma PipedErrorRejected(base: string, rs: seq<Read>)
    requires AllReadable(rs) && !NoErrors(rs) && |rs| >= 2
    requires TextMeaning(base, ",").Done?
    ensures TextMeaning(WithStdin(base, Printed(rs)), ",") == Failed
  {
    AllShownParse(rs);
    StdinIsList(ShownAll(rs));
    TextThenList(base, ShownAll(rs));
    ErrorShows(rs);
    BadLineFails(LinesOf(Split(base, ",")), LinesOf(ShownAll(rs)));
  }

  lemma ErrorShows(rs: seq<Read>)
    requires AllReadable(rs) && !NoErrors(rs)
    ensures Bad in LinesOf(ShownAll(rs)) && forall l :: l in LinesOf(ShownAll(rs)) ==> l.Bad? || l.Single?
  {
    AllShownParse(rs);
    var i :| 0 <= i < |rs| && rs[i].value.None?;
    assert LinesOf(ShownAll(rs))[i] == Bad;
  }

  lemma EmptyMeans()
    ensures TextMeaning("", ",") == Done(map[])
  {
    SplitLast("", ',');
    var ls := LinesOf([""]);
    assert Split("", ",") == [""];
    assert ls == [Skip];
    assert ls[..0] == [];
  }

  /** A lone value is taken for the number of a variable that is to be set to zero. */
  lemma LoneValueMeans(v: nat)
    requires v <= MAX_UINT16
    ensures TextMeaning(WithStdin("", LinesText([Decimal(v)])), ",") == Done(map[v := 0])
  {
    StdinIsList([Decimal(v)]);
    LoneValueLine(v);
    EmptyMeans();
    ListAfter("", [Decimal(v)], [CVEntry(v, 0)]);
    OneEntry(CVEntry(v, 0));
    assert map[] + map[v := 0] == map[v := 0];
  }

  lemma OneEntry(e: CVEntry)
    ensures MapOf([e]) == map[e.number := e.value]
  {
    assert [e][..0] == [];
  }

  /** A list of lines that are all assignments, after a base text that is accepted. */
  lemma ListAfter(base: string, ts: seq<string>, es: seq<CVEntry>)
    requires ts != [] && AllTidy(ts) && |ts| == |es| && TextMeaning(base, ",").Done?
    requires forall i :: 0 <= i < |ts| ==> ParseLine(ts[i]) == Single(es[i].number, es[i].value)
    ensures TextMeaning(base + ", " + Joined(ts), ",") == Done(TextMeaning(base, ",").values + MapOf(es))
  {
    TextThenList(base, ts);
    SameLines(ts, Singles(es));
    AssignedAfter(LinesOf(Split(base, ",")), es);
  }

  lemma LoneValueLine(v: nat)
    requires v <= MAX_UINT16
    ensures ParseLine(Decimal(v)) == Single(v, 0)
  {
    var d := Decimal(v);
    TidyIsBare(d);
    assert Clean(d) == d;
    assert forall i :: 0 <= i < |d| ==> IsDigit(d[i]);
    assert Sides(d) == (d, "0");
    assert ToLower(d) == d;
    assert TrimPrefix(d, "cv") == d by { assert d[0] != 'c'; }
    ParseDecimal(v);
    assert Decimal(0) == "0";
    ParseDecimal(0);
  }

  /** Piped alone, error-free reads in ascending order come back as they were unless there is exactly one. */
  lemma RoundTripIff(rs: seq<Read>)
    requires AllReadable(rs) && NoErrors(rs) && Ascending(Entries(rs))
    ensures TextMeaning(WithStdin("", Printed(rs)), ",") == Done(MapOf(Entries(rs)))
       <==> |rs| != 1 || rs[0] == Read(0, Some(0))
  {
    EmptyMeans();
    if |rs| >= 2 {
      PipedReadsOverrule("", rs);
      assert map[] + MapOf(Entries(rs)) == MapOf(Entries(rs));
    } else if |rs| == 1 {
      var e := Entries(rs)[0];
      assert rs[0] in rs;
      LoneValueMeans(e.value);
      assert MapOf([e]) == map[e.number := e.value] by { assert [e][..0] == []; }
      assert Entries(rs) == [e];
      assert map[e.number := e.value] == map[e.value := 0] ==> e.number in map[e.value := 0] && e.value == 0;
    } else {
      assert Entries(rs) == [];
    }
  }

  /** What `loco cv get ... | loco cv set -` hands to the station. */
  method Pipe(rs: seq<Read>) returns (r: ParseResult)
    requires AllReadable(rs) && NoErrors(rs) && Ascending(Entries(rs)) && |rs| != 1
    ensures r == Parsed(Entries(rs))
  {
    var out, lastErr := PrintCVReads(rs);
    var text := ParseArgsAsCVs(["-"], Some(out));
    assert ["-"][..0] == [];
    r := ParseCVString(text.value, ",");
    RoundTripIff(rs);
    AscendingListsItself(Entries(rs));
    ListingUnique(r.entries, Entries(rs), MapOf(Entries(rs)));
  }
}
