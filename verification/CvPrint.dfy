/** Assignments as the tool prints them, and what reading a list of them back yields. */
module CvPrint {
  import opened Options
  import opened Text
  import opened CvText

  /** fmt.Sprintf("cv%d=%s", number, text). */
  function Rendered(number: nat, text: string): string {
    "cv" + Decimal(number) + "=" + text
  }

  function Assignment(e: CVEntry): string {
    Rendered(e.number, Decimal(e.value))
  }

  predicate Fits(e: CVEntry) {
    e.number <= MAX_UINT16 && e.value <= MAX_UINT16
  }

  /** A character that printed lines are made of. */
  predicate Plain(c: char) {
    IsDigit(c) || c in {'c', 'v', '=', 'E', 'R', 'O'}
  }

  /** A text that survives a comma-separated list: nothing in it separates, comments or trims away. */
  predicate Tidy(t: string) {
    t != "" && forall i :: 0 <= i < |t| ==> Plain(t[i])
  }

  lemma TidyIsBare(t: string)
    requires Tidy(t)
    ensures '#' !in t && ',' !in t && '\n' !in t
    ensures TrimSpace(t) == t && TrimSpace(" " + t) == t
  {
    TrimKeeps(t, IsSpace);
    assert (" " + t)[1..] == t;
  }

  lemma RenderedTidy(number: nat, text: string)
    requires Tidy(text)
    ensures Tidy(Rendered(number, text))
  {
    var t, n := Rendered(number, text), Decimal(number);
    forall i | 0 <= i < |t| ensures Plain(t[i]) {
      assert i < 2 || (i < 2 + |n| && t[i] == n[i - 2]) || i == 2 + |n| || t[i] == text[i - 3 - |n|];
    }
  }

  lemma NameOf(number: nat)
    ensures var name := "cv" + Decimal(number);
      && Tidy(name) && '=' !in name && '-' !in name && ToLower(name) == name
      && TrimPrefix(name, "cv") == Decimal(number)
  {
    var name := "cv" + Decimal(number);
    assert forall i :: 2 <= i < |name| ==> name[i] == Decimal(number)[i - 2];
    assert forall i :: 0 <= i < |name| ==>
        Plain(name[i]) && Lower(name[i]) == name[i] && name[i] != '-' && name[i] != '=';
    assert name[2..] == Decimal(number);
  }

  lemma RenderedSides(number: nat, text: string)
    requires Tidy(text)
    ensures Sides(Rendered(number, text)) == ("cv" + Decimal(number), text)
  {
    var name, t := "cv" + Decimal(number), Rendered(number, text);
    NameOf(number);
    assert t == name + ['='] + text;
    IndexOfSkips(name, text, '=');
    assert t[..|name|] == name && t[|name| + 1..] == text;
    TidyIsBare(name);
    TidyIsBare(text);
  }

  lemma ParsesRendered(number: nat, text: string)
    requires Tidy(text) && number <= MAX_UINT16
    ensures ParseLine(Rendered(number, text))
         == if ParseUint16(text).Some? then Single(number, ParseUint16(text).value) else Bad
  {
    var t := Rendered(number, text);
    RenderedTidy(number, text);
    assert Clean(t) == t by { TidyIsBare(t); }
    RenderedSides(number, text);
    NameOf(number);
    ParseDecimal(number);
  }

  /** A printed assignment is parsed as that assignment. */
  lemma ParsesBack(e: CVEntry)
    requires Fits(e)
    ensures Tidy(Assignment(e)) && ParseLine(Assignment(e)) == Single(e.number, e.value)
  {
    assert Tidy(Decimal(e.value));
    RenderedTidy(e.number, Decimal(e.value));
    ParsesRendered(e.number, Decimal(e.value));
    ParseDecimal(e.value);
  }

  /** A space before it does not matter to a line. */
  lemma PaddedLine(t: string, pad: string)
    requires Tidy(t) && (pad == "" || pad == " ")
    ensures ParseLine(pad + t) == ParseLine(t)
  {
    if pad == "" {
      assert pad + t == t;
    } else {
      TidyIsBare(t);
      assert Clean(" " + t) == Clean(t);
    }
  }

  // ----- a list between commas -----

  /** The texts, separated by a comma and a space. */
  function Joined(ts: seq<string>): string {
    if ts == [] then ""
    else if |ts| == 1 then ts[0]
    else ts[0] + ", " + Joined(ts[1..])
  }

  /** What lies between the commas of a joined list that follows a given padding. */
  function Pieces(ts: seq<string>, pad: string): (r: seq<string>) {
    if ts == [] then [] else [pad + ts[0]] + Pieces(ts[1..], " ")
  }

  predicate AllTidy(ts: seq<string>) {
    forall t :: t in ts ==> Tidy(t)
  }

  lemma PaddedBare(t: string, pad: string)
    requires Tidy(t) && (pad == "" || pad == " ")
    ensures ',' !in pad + t
  {
    TidyIsBare(t);
  }

  lemma Regroup(p: string, a: string, j: string)
    ensures p + (a + ", " + j) == (p + a) + [','] + (" " + j)
  {
  }

  lemma {:induction false} JoinedSplits(ts: seq<string>, pad: string)
    requires ts != [] && AllTidy(ts) && (pad == "" || pad == " ")
    ensures Split(pad + Joined(ts), [',']) == Pieces(ts, pad)
    decreases |ts|
  {
    assert ts[0] in ts;
    PaddedBare(ts[0], pad);
    if |ts| == 1 {
      SplitLast(pad + ts[0], ',');
      assert Pieces(ts[1..], " ") == [];
    } else {
      JoinedSplits(ts[1..], " ");
      Regroup(pad, ts[0], Joined(ts[1..]));
      SplitField(pad + ts[0], " " + Joined(ts[1..]), ',');
    }
  }

  lemma LinesOfFirst(t: string, rest: seq<string>)
    ensures LinesOf([t] + rest) == [ParseLine(t)] + LinesOf(rest)
  {
    SameLines([t] + rest, [ParseLine(t)] + LinesOf(rest));
  }

  lemma SameLines(texts: seq<string>, ls: seq<Line>)
    requires |texts| == |ls| && forall i :: 0 <= i < |texts| ==> ls[i] == ParseLine(texts[i])
    ensures LinesOf(texts) == ls
  {
  }

  lemma {:induction false} PiecesParse(ts: seq<string>, pad: string)
    requires AllTidy(ts) && (pad == "" || pad == " ")
    ensures LinesOf(Pieces(ts, pad)) == LinesOf(ts)
    decreases |ts|
  {
    if ts != [] {
      assert ts == [ts[0]] + ts[1..] && ts[0] in ts;
      PiecesParse(ts[1..], " ");
      PaddedLine(ts[0], pad);
      LinesOfFirst(pad + ts[0], Pieces(ts[1..], " "));
      LinesOfFirst(ts[0], ts[1..]);
    }
  }

  // ----- assignments -----

  function Singles(es: seq<CVEntry>): (r: seq<Line>)
    ensures |r| == |es| && forall i :: 0 <= i < |es| ==> r[i] == Single(es[i].number, es[i].value)
  {
    seq(|es|, i requires 0 <= i < |es| => Single(es[i].number, es[i].value))
  }

  function Assignments(es: seq<CVEntry>): (r: seq<string>)
    ensures |r| == |es| && forall i :: 0 <= i < |es| ==> r[i] == Assignment(es[i])
  {
    seq(|es|, i requires 0 <= i < |es| => Assignment(es[i]))
  }

  predicate AllFit(es: seq<CVEntry>) {
    forall e :: e in es ==> Fits(e)
  }

  lemma AssignmentsParse(es: seq<CVEntry>)
    requires AllFit(es)
    ensures AllTidy(Assignments(es)) && LinesOf(Assignments(es)) == Singles(es)
  {
    var ts := Assignments(es);
    forall i | 0 <= i < |es| ensures Tidy(ts[i]) && ParseLine(ts[i]) == Singles(es)[i] {
      assert es[i] in es;
      ParsesBack(es[i]);
    }
  }

  /** The map that a list of assignments leaves when they are made in order. */
  function MapOf(es: seq<CVEntry>): Values {
    if es == [] then map[] else MapOf(es[..|es| - 1])[es[|es| - 1].number := es[|es| - 1].value]
  }

  lemma {:induction false} SinglesMean(es: seq<CVEntry>)
    ensures Meaning(Singles(es)) == Done(MapOf(es))
  {
    if es != [] {
      var n := |es| - 1;
      SinglesMean(es[..n]);
      assert Singles(es)[..n] == Singles(es[..n]);
    }
  }

  lemma {:induction false} AscendingListsItself(es: seq<CVEntry>)
    requires Ascending(es)
    ensures Lists(es, MapOf(es))
    ensures forall k :: k in MapOf(es) ==> exists i :: 0 <= i < |es| && es[i].number == k
  {
    if es != [] {
      var n := |es| - 1;
      var before, m := es[..n], MapOf(es[..n]);
      AscendingListsItself(before);
      forall e | e in es ensures e.number in MapOf(es) && MapOf(es)[e.number] == e.value {
        if e != es[n] {
          assert e in before;
        }
      }
      forall k | k in MapOf(es)
        ensures CVEntry(k, MapOf(es)[k]) in es && exists i :: 0 <= i < |es| && es[i].number == k
      {
        if k != es[n].number {
          assert CVEntry(k, m[k]) in before;
          var i :| 0 <= i < |before| && before[i].number == k;
          assert es[i].number == k;
        } else {
          assert es[n] in es && es[n].number == k;
        }
      }
    }
  }

  /** Reading back a printed list of assignments makes those assignments, the later ones overruling the earlier. */
  lemma ListMeans(es: seq<CVEntry>)
    requires AllFit(es) && es != []
    ensures TextMeaning(Joined(Assignments(es)), ",") == Done(MapOf(es))
  {
    var ts := Assignments(es);
    AssignmentsParse(es);
    JoinedSplits(ts, "");
    assert "" + Joined(ts) == Joined(ts);
    PiecesParse(ts, "");
    SinglesMean(es);
  }

  /** In ascending order it is the list itself that the parser returns. */
  lemma ListParsesToItself(es: seq<CVEntry>, r: ParseResult)
    requires AllFit(es) && es != [] && Ascending(es)
    requires Means(r, TextMeaning(Joined(Assignments(es)), ","))
    ensures r == Parsed(es)
  {
    ListMeans(es);
    AscendingListsItself(es);
    ListingUnique(r.entries, es, MapOf(es));
  }
}
