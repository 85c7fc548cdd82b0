/** Lists in the sesman configuration (src/sesman/state.rs, lines 650-662 and 672-681). */
module IniLists {
  import opened IniText

  /** The pieces between commas, as `split` gives them. */
  function Split(s: string): seq<string> {
    var n := IndexOf(s, ',');
    if n == |s| then [s] else [s[..n]] + Split(s[n + 1..])
  }

  /** What a piece contributes: nothing if it is blank, else one unquoted item. */
  function ItemOf(piece: string): seq<string> {
    if Trim(piece) == "" then [] else [Unquote(Trim(piece))]
  }

  function Collect(pieces: seq<string>): seq<string> {
    if pieces == [] then [] else Collect(pieces[..|pieces| - 1]) + ItemOf(pieces[|pieces| - 1])
  }

  function Items(s: string): seq<string> { Collect(Split(s)) }

  /** The text between the brackets, if there are any. */
  function Inner(value: string): string {
    var t := Trim(value);
    if |t| >= 2 && t[0] == '[' && t[|t| - 1] == ']' then t[1..|t| - 1] else value
  }

  function ParseList(value: string): seq<string> { Items(Inner(value)) }

  /** The collecting loop of the source. */
  method ParseIniList(value: string) returns (items: seq<string>)
    ensures items == ParseList(value)
  {
    items := CollectPieces(Split(Inner(value)));
  }

  method CollectPieces(pieces: seq<string>) returns (items: seq<string>)
    ensures items == Collect(pieces)
  {
    items := [];
    for k := 0 to |pieces|
      invariant items == Collect(pieces[..k])
    {
      assert pieces[..k + 1][..k] == pieces[..k];
      var piece := Trim(pieces[k]);
      if piece != "" {
        items := items + [Unquote(piece)];
      }
    }
    assert pieces[..|pieces|] == pieces;
  }

  function JoinScalars(values: seq<string>): string {
    if values == [] then ""
    else if |values| == 1 then FormatScalar(values[0])
    else JoinScalars(values[..|values| - 1]) + ", " + FormatScalar(values[|values| - 1])
  }

  function FormatList(values: seq<string>): string { "[" + JoinScalars(values) + "]" }

  /** The brackets are optional. */
  lemma {:induction false} BracketsOptional(inner: string)
    requires var t := Trim(inner); t != "" ==> t[0] != '['
    ensures ParseList("[" + inner + "]") == ParseList(inner)
  {
    var value := "[" + inner + "]";
    TrimTight(value);
    assert value[0] == '[' && value[|value| - 1] == ']' && value[1..|value| - 1] == inner;
  }

  // ---- Splitting and collecting ------------------------------------------------------------------------

  lemma {:induction false} CollectConcat(a: seq<string>, b: seq<string>)
    ensures Collect(a + b) == Collect(a) + Collect(b)
  {
    if b == [] {
      assert a + b == a;
    } else {
      assert (a + b)[..|a + b| - 1] == a + b[..|b| - 1];
      CollectConcat(a, b[..|b| - 1]);
    }
  }

  lemma {:induction false} IndexOfFirst(s: string, c: char, n: nat)
    requires n < |s| && s[n] == c && c !in s[..n]
    ensures IndexOf(s, c) == n
  {
    if n > 0 {
      assert s[0] in s[..n];
      assert s[1..][..n - 1] == s[1..n];
      forall x | x in s[1..n] ensures x in s[..n] {}
      IndexOfFirst(s[1..], c, n - 1);
    }
  }

  /** Where the first comma is, and what follows it, in a text that goes on behind a comma. */
  lemma {:induction false} CommaPlace(a: string, b: string)
    ensures var s, n := a + "," + b, IndexOf(a, ',');
      && IndexOf(s, ',') == n && n < |s| && s[..n] == a[..n]
      && s[n + 1..] == if n == |a| then b else a[n + 1..] + "," + b
  {
    var s, n := a + "," + b, IndexOf(a, ',');
    IndexOfFinds(a, ',');
    assert s[..n] == a[..n] && s[n] == ',';
    IndexOfFirst(s, ',', n);
    if n < |a| {
      TailOfSum(a, b, n + 1);
    } else {
      assert s[n + 1..] == b;
    }
  }

  lemma {:induction false} TailOfSum(a: string, b: string, n: nat)
    requires n <= |a|
    ensures (a + "," + b)[n..] == a[n..] + "," + b
  {}

  lemma {:induction false} SplitConcat(a: string, b: string)
    ensures Split(a + "," + b) == Split(a) + Split(b)
    decreases |a|
  {
    var n := IndexOf(a, ',');
    CommaPlace(a, b);
    if n == |a| {
      assert a[..n] == a;
    } else {
      SplitConcat(a[n + 1..], b);
      assert [a[..n]] + (Split(a[n + 1..]) + Split(b)) == [a[..n]] + Split(a[n + 1..]) + Split(b);
    }
  }

  lemma {:induction false} ItemsConcat(a: string, b: string)
    ensures Items(a + "," + b) == Items(a) + Items(b)
  {
    SplitConcat(a, b);
    CollectConcat(Split(a), Split(b));
  }

  lemma {:induction false} ItemsOfPiece(s: string)
    requires ',' !in s
    ensures Items(s) == ItemOf(s)
  {
    IndexOfFinds(s, ',');
    var pieces := [s];
    assert Split(s) == pieces;
    assert pieces[..0] == [];
    assert Collect(pieces) == Collect(pieces[..0]) + ItemOf(s);
  }

  lemma {:induction false} TrimKeeps(s: string, c: char)
    requires c in s && !IsSpace(c)
    ensures c in Trim(s)
  {
    TrimStartKeeps(s, c);
    TrimEndKeeps(TrimStart(s), c);
  }

  lemma {:induction false} TrimStartKeeps(s: string, c: char)
    requires c in s && !IsSpace(c)
    ensures c in TrimStart(s)
  {
    if IsSpace(s[0]) {
      assert s == [s[0]] + s[1..];
      TrimStartKeeps(s[1..], c);
    }
  }

  lemma {:induction false} TrimEndKeeps(s: string, c: char)
    requires c in s && !IsSpace(c)
    ensures c in TrimEnd(s)
  {
    if IsSpace(s[|s| - 1]) {
      assert s == s[..|s| - 1] + [s[|s| - 1]];
      TrimEndKeeps(s[..|s| - 1], c);
    }
  }

  lemma {:induction false} Rejoin(s: string, n: nat)
    requires n < |s| && s[n] == ','
    ensures s == s[..n] + "," + s[n + 1..]
  {}

  lemma {:induction false} QuotedPieceCounts(s: string)
    requires '"' in s && ',' !in s
    ensures |Items(s)| >= 1
  {
    ItemsOfPiece(s);
    TrimKeeps(s, '"');
  }

  /** A text with a quote mark in it contributes at least one item. */
  lemma {:induction false} QuotedTextCounts(s: string)
    requires '"' in s
    ensures |Items(s)| >= 1
    decreases |s|
  {
    IndexOfFinds(s, ',');
    if ',' !in s {
      QuotedPieceCounts(s);
    } else {
      var n := IndexOf(s, ',');
      QuotedAround(s[..n], s[n + 1..]);
      Rejoin(s, n);
    }
  }

  lemma {:induction false} QuotedAround(a: string, b: string)
    requires ',' !in a && '"' in a + "," + b
    ensures |Items(a + "," + b)| >= 1
    decreases |a + "," + b|, 0
  {
    ItemsConcat(a, b);
    if '"' in a {
      QuotedPieceCounts(a);
    } else {
      QuotedTextCounts(b);
    }
  }

  // ---- One printed item ----------------------------------------------------------------------------------

  predicate QuoteFree(s: string) { '"' !in s && '\'' !in s }

  lemma {:induction false} EscapeKeeps(s: string, c: char)
    requires c != '"' && c != '\\'
    ensures c in Escape(s) <==> c in s
  {
    if s != "" {
      EscapeKeeps(s[..|s| - 1], c);
      assert s == s[..|s| - 1] + [s[|s| - 1]];
    }
  }

  lemma {:induction false} PrintedTight(s: string)
    ensures FormatScalar(s) != "" && Tight(FormatScalar(s))
    ensures ',' in FormatScalar(s) <==> ',' in s
  {
    EscapeKeeps(s, ',');
    if !NeedsQuotes(s) {
      assert s[0] in s && s[|s| - 1] in s;
    }
  }

  /** An item alone comes back exactly if it survives. */
  lemma {:induction false} UnquotedBack(s: string)
    ensures Unquote(FormatScalar(s)) == s <==> Survives(s)
  {
    PrintedTight(s);
    var f := FormatScalar(s);
    TrimTight(f);
    if NeedsQuotes(s) {
      assert f[1..|f| - 1] == Escape(s);
      if '"' in s {
        EscapeGrows(s);
      } else {
        EscapeNothing(s);
      }
    }
  }

  /** Blanks before a printed item. */
  predicate Gap(p: string) { p == "" || p == " " }

  lemma {:induction false} TrimGap(p: string, f: string)
    requires Gap(p) && f != "" && Tight(f)
    ensures Trim(p + f) == f
  {
    if p == "" {
      assert p + f == f;
    } else {
      assert (p + f)[1..] == f;
      assert TrimStart(p + f) == TrimStart(f);
    }
    TrimTight(f);
  }

  lemma {:induction false} PrintedItem(p: string, s: string)
    requires Gap(p)
    ensures ',' !in s ==> Items(p + FormatScalar(s)) == [Unquote(FormatScalar(s))]
    ensures ',' in s ==> |Items(p + FormatScalar(s))| >= 2
  {
    PrintedTight(s);
    if ',' in s {
      EscapeKeeps(s, ',');
      CommaSplitsQuotes(p, Escape(s));
    } else {
      TightItem(p, FormatScalar(s));
    }
  }

  lemma {:induction false} TightItem(p: string, f: string)
    requires Gap(p) && f != "" && Tight(f) && ',' !in f
    ensures Items(p + f) == [Unquote(f)]
  {
    ItemsOfPiece(p + f);
    TrimGap(p, f);
  }

  /** A comma inside quotes still splits: two pieces, each with one of the quote marks. */
  lemma {:induction false} CommaSplitsQuotes(p: string, s: string)
    requires ',' in s
    ensures |Items(p + ("\"" + s + "\""))| >= 2
  {
    var n := IndexOf(s, ',');
    IndexOfFinds(s, ',');
    Rejoin(s, n);
    QuotedPieces(p, s[..n], s[n + 1..]);
  }

  lemma {:induction false} QuotedPieces(p: string, x: string, y: string)
    ensures |Items(p + ("\"" + (x + "," + y) + "\""))| >= 2
  {
    QuotedSeam(p, x, y);
    QuotedTextCounts(p + "\"" + x);
    QuotedTextCounts(y + "\"");
    ItemsConcat(p + "\"" + x, y + "\"");
  }

  lemma {:induction false} QuotedSeam(p: string, x: string, y: string)
    ensures p + ("\"" + (x + "," + y) + "\"") == (p + "\"" + x) + "," + (y + "\"")
    ensures '"' in p + "\"" + x && '"' in y + "\""
  {
    assert (p + "\"" + x)[|p|] == '"' && (y + "\"")[|y|] == '"';
  }

  // ---- Whole lists ------------------------------------------------------------------------------------------

  predicate AllQuoteFree(values: seq<string>) {
    forall k :: 0 <= k < |values| ==> QuoteFree(values[k])
  }

  predicate NoCommas(values: seq<string>) {
    forall k :: 0 <= k < |values| ==> ',' !in values[k]
  }

  lemma {:induction false} SeparatedItems(j: string, f: string)
    ensures Items(j + ", " + f) == Items(j) + Items(" " + f)
  {
    Seam(j, f);
    ItemsConcat(j, " " + f);
  }

  lemma {:induction false} Seam(j: string, f: string)
    ensures j + ", " + f == j + "," + (" " + f)
  {}

  function Unquoted(values: seq<string>): seq<string> {
    if values == [] then []
    else Unquoted(values[..|values| - 1]) + [Unquote(FormatScalar(values[|values| - 1]))]
  }

  predicate AllSurvive(values: seq<string>) {
    forall k :: 0 <= k < |values| ==> Survives(values[k])
  }

  lemma {:induction false} AllUnquotedBack(values: seq<string>)
    ensures |Unquoted(values)| == |values|
    ensures Unquoted(values) == values <==> AllSurvive(values)
  {
    if values != [] {
      var before, last := values[..|values| - 1], values[|values| - 1];
      AllUnquotedBack(before);
      UnquotedBack(last);
      SameSums(Unquoted(before), Unquote(FormatScalar(last)), before, last);
      SurviveAppend(before, last);
      assert values == before + [last];
    }
  }

  lemma {:induction false} SurviveAppend(before: seq<string>, last: string)
    ensures AllSurvive(before + [last]) <==> AllSurvive(before) && Survives(last)
  {
    var values := before + [last];
    assert values[|before|] == last;
    assert forall k :: 0 <= k < |before| ==> values[k] == before[k];
  }

  lemma {:induction false} SameSums(a: seq<string>, x: string, b: seq<string>, y: string)
    requires |a| == |b|
    ensures a + [x] == b + [y] <==> a == b && x == y
  {
    assert (a + [x])[..|a|] == a && (b + [y])[..|b|] == b;
    assert (a + [x])[|a|] == x && (b + [y])[|b|] == y;
  }

  /** Without commas there is one item for each value; with one there are more. */
  predicate Reads(items: seq<string>, values: seq<string>) {
    if NoCommas(values) then items == Unquoted(values) else |items| > |values|
  }

  lemma {:induction false} ReadsAppend(a: seq<string>, before: seq<string>, b: seq<string>, last: string)
    requires Reads(a, before)
    requires if ',' in last then |b| >= 2 else b == [Unquote(FormatScalar(last))]
    ensures Reads(a + b, before + [last])
  {
    var values := before + [last];
    assert values[..|before|] == before && values[|before|] == last;
    AllUnquotedBack(before);
    if NoCommas(values) {
      forall k | 0 <= k < |before| ensures ',' !in before[k] {
        assert values[k] == before[k];
      }
    } else if NoCommas(before) {
      assert ',' in last;
    }
  }

  lemma {:induction false} JoinedItems(values: seq<string>)
    ensures Reads(Items(JoinScalars(values)), values)
  {
    if values == [] {
      ItemsOfPiece("");
    } else {
      var before, last := values[..|values| - 1], values[|values| - 1];
      assert values == before + [last];
      if before == [] {
        LoneItem(last);
        ReadsAppend([], [], Items(FormatScalar(last)), last);
        assert [] + Items(FormatScalar(last)) == Items(FormatScalar(last));
      } else {
        JoinedItems(before);
        PrintedItem(" ", last);
        SeparatedItems(JoinScalars(before), FormatScalar(last));
        ReadsAppend(Items(JoinScalars(before)), before, Items(" " + FormatScalar(last)), last);
      }
    }
  }

  lemma {:induction false} LoneItem(s: string)
    ensures if ',' in s then |Items(FormatScalar(s))| >= 2 else Items(FormatScalar(s)) == [Unquote(FormatScalar(s))]
  {
    PrintedItem("", s);
    assert "" + FormatScalar(s) == FormatScalar(s);
  }

  /** The printed items come back exactly if none has a comma and each survives alone. */
  lemma {:induction false} ItemsBack(values: seq<string>)
    ensures Items(JoinScalars(values)) == values <==> NoCommas(values) && AllSurvive(values)
  {
    JoinedItems(values);
    AllUnquotedBack(values);
  }

  // ---- Comment marks are never gained -----------------------------------------------------------------

  function Marks(s: string): nat {
    if s == "" then 0 else Marks(s[..|s| - 1]) + (if IsComment(s[|s| - 1]) then 1 else 0)
  }

  function MarksIn(values: seq<string>): nat {
    if values == [] then 0 else MarksIn(values[..|values| - 1]) + Marks(values[|values| - 1])
  }

  lemma {:induction false} MarksAdd(a: string, b: string)
    ensures Marks(a + b) == Marks(a) + Marks(b)
  {
    if b == "" {
      assert a + b == a;
    } else {
      assert (a + b)[..|a + b| - 1] == a + b[..|b| - 1];
      MarksAdd(a, b[..|b| - 1]);
    }
  }

  lemma {:induction false} MarksInAdd(a: seq<string>, b: seq<string>)
    ensures MarksIn(a + b) == MarksIn(a) + MarksIn(b)
  {
    if b == [] {
      assert a + b == a;
    } else {
      assert (a + b)[..|a + b| - 1] == a + b[..|b| - 1];
      MarksInAdd(a, b[..|b| - 1]);
    }
  }

  lemma {:induction false} MarksInOne(s: string)
    ensures MarksIn([s]) == Marks(s) && MarksIn([]) == 0
  {
    assert [s][..0] == [];
  }

  lemma {:induction false} MarksSlice(s: string, i: nat, j: nat)
    requires i <= j <= |s|
    ensures Marks(s[i..j]) <= Marks(s)
  {
    assert s == s[..i] + (s[i..j] + s[j..]);
    MarksAdd(s[..i], s[i..j] + s[j..]);
    MarksAdd(s[i..j], s[j..]);
  }

  lemma {:induction false} MarksTail(s: string, i: nat)
    requires i <= |s|
    ensures Marks(s[i..]) <= Marks(s)
  {
    assert s[i..|s|] == s[i..];
    MarksSlice(s, i, |s|);
  }

  lemma {:induction false} MarksOne(c: char)
    ensures Marks([c]) == if IsComment(c) then 1 else 0
  {
    assert [c][..0] == "";
  }

  lemma {:induction false} MarksTrim(s: string)
    ensures Marks(Trim(s)) <= Marks(s)
  {
    MarksTrimStart(s);
    TrimEndPrefix(TrimStart(s));
    MarksSlice(TrimStart(s), 0, |Trim(s)|);
  }

  lemma {:induction false} MarksTrimStart(s: string)
    ensures Marks(TrimStart(s)) <= Marks(s)
  {
    if s != "" && IsSpace(s[0]) {
      MarksTrimStart(s[1..]);
      MarksTail(s, 1);
    }
  }

  lemma {:induction false} MarksUnquote(s: string)
    ensures Marks(Unquote(s)) <= Marks(s)
  {
    MarksTrim(s);
    var v := Trim(s);
    if |v| >= 2 {
      MarksSlice(v, 1, |v| - 1);
    }
  }

  lemma {:induction false} MarksEscape(s: string)
    ensures Marks(Escape(s)) == Marks(s)
  {
    if s != "" {
      var before, c := s[..|s| - 1], s[|s| - 1];
      MarksEscape(before);
      MarksOne(c);
      if c == '"' {
        EscapedQuote();
        MarksAdd(Escape(before), "\\\"");
      } else {
        MarksAdd(Escape(before), [c]);
      }
    }
  }

  lemma {:induction false} EscapedQuote()
    ensures Marks("\\\"") == 0
  {
    MarksOne('\\');
    MarksOne('"');
    MarksAdd("\\", "\"");
    assert "\\\"" == "\\" + "\"";
  }

  lemma {:induction false} MarksPrinted(s: string)
    ensures Marks(FormatScalar(s)) == Marks(s)
  {
    MarksEscape(s);
    MarksOne('"');
    MarksAdd("\"" + Escape(s), "\"");
    MarksAdd("\"", Escape(s));
  }

  lemma {:induction false} MarksJoined(values: seq<string>)
    ensures Marks(JoinScalars(values)) == MarksIn(values)
  {
    if values != [] {
      var before, last := values[..|values| - 1], values[|values| - 1];
      MarksPrinted(last);
      if before != [] {
        MarksJoined(before);
        MarksAdd(JoinScalars(before) + ", ", FormatScalar(last));
        MarksAdd(JoinScalars(before), ", ");
        MarksOne(',');
        MarksOne(' ');
        MarksAdd(",", " ");
        assert ", " == "," + " ";
      }
    }
  }

  lemma {:induction false} MarksSplit(s: string)
    ensures MarksIn(Split(s)) <= Marks(s)
    decreases |s|
  {
    var n := IndexOf(s, ',');
    MarksInOne(s[..n]);
    if n == |s| {
      assert s[..n] == s;
    } else {
      MarksSplit(s[n + 1..]);
      MarksInAdd([s[..n]], Split(s[n + 1..]));
      assert s == s[..n] + s[n..];
      MarksAdd(s[..n], s[n..]);
      MarksTail(s[n..], 1);
      assert s[n..][1..] == s[n + 1..];
    }
  }

  lemma {:induction false} MarksCollected(pieces: seq<string>)
    ensures MarksIn(Collect(pieces)) <= MarksIn(pieces)
  {
    if pieces != [] {
      var last := pieces[|pieces| - 1];
      MarksCollected(pieces[..|pieces| - 1]);
      MarksInAdd(Collect(pieces[..|pieces| - 1]), ItemOf(last));
      MarksTrim(last);
      MarksUnquote(Trim(last));
      MarksInOne(Unquote(Trim(last)));
    }
  }

  lemma {:induction false} MarksParsed(value: string)
    ensures MarksIn(ParseList(value)) <= Marks(value)
  {
    MarksTrim(value);
    var t := Trim(value);
    if |t| >= 2 {
      MarksSlice(t, 1, |t| - 1);
    }
    MarksSplit(Inner(value));
    MarksCollected(Split(Inner(value)));
  }

  lemma {:induction false} MarksRead(line: string)
    ensures ParseLine(line).Entry? ==> Marks(ParseLine(line).value) <= Marks(StripComment(line))
  {
    var t := Trim(StripComment(line));
    MarksTrim(StripComment(line));
    var n := IndexOf(t, '=');
    if n < |t| {
      MarksTail(t, n + 1);
      MarksTrim(t[n + 1..]);
      MarksUnquote(Trim(t[n + 1..]));
    }
  }

  lemma {:induction false} MarksCut(line: string)
    requires Kept(line, true, false, false) < |line|
    ensures Marks(StripComment(line)) < Marks(line)
  {
    var k := Kept(line, true, false, false);
    CutAtComment(line, true, false, false);
    MarksOne(line[k]);
    assert line == line[..k] + ([line[k]] + line[k + 1..]);
    MarksAdd(line[..k], [line[k]] + line[k + 1..]);
    MarksAdd([line[k]], line[k + 1..]);
  }

  // ---- Lists on a line ---------------------------------------------------------------------------------

  lemma {:induction false} PrintedKept(s: string, rest: string, open: bool)
    requires QuoteFree(s)
    ensures var f := FormatScalar(s);
      Kept(f + rest, open, false, false) == |f| + Kept(rest, false, false, false)
  {
    if NeedsQuotes(s) {
      EscapeNothing(s);
      QuotedKept(s, rest, open);
    } else {
      PassesPlain(s, rest, open);
      assert s[|s| - 1] in s;
    }
  }

  lemma {:induction false} SeparatorKept(s: string, rest: string)
    requires QuoteFree(s)
    ensures var f := FormatScalar(s);
      Kept(", " + (f + rest), false, false, false) == 2 + |f| + Kept(rest, false, false, false)
  {
    PassesPlain(", ", FormatScalar(s) + rest, false);
    PrintedKept(s, rest, true);
  }

  lemma {:induction false} Regroup(a: string, b: string, c: string, d: string)
    ensures a + b + c + d == a + (b + (c + d))
  {}

  lemma {:induction false} JoinedKept(values: seq<string>, rest: string, open: bool)
    requires AllQuoteFree(values) && values != []
    ensures var j := JoinScalars(values);
      Kept(j + rest, open, false, false) == |j| + Kept(rest, false, false, false)
  {
    var before, last := values[..|values| - 1], values[|values| - 1];
    if before == [] {
      PrintedKept(last, rest, open);
    } else {
      JoinedKept(before, ", " + (FormatScalar(last) + rest), open);
      SeparatorKept(last, rest);
      Regroup(JoinScalars(before), ", ", FormatScalar(last), rest);
    }
  }

  /** No comment mark of the printed list is taken for the beginning of a comment. */
  predicate ListKept(values: seq<string>) {
    Kept(FormatList(values), false, false, false) == |FormatList(values)|
  }

  /** The line is this list under this key. */
  predicate IsList(line: Line, key: string, values: seq<string>) {
    line.Entry? && line.key == key && ParseList(line.value) == values
  }

  lemma {:induction false} KeptList(key: string, values: seq<string>)
    requires PlainKey(key) && ListKept(values)
    ensures ParseLine(key + "=" + FormatList(values)) == Entry(key, FormatList(values))
  {
    var value := FormatList(values);
    KeyKept(key, value);
    ParsesEntry(key, value);
    TrimTight(value);
  }

  /** A list that is cut loses a comment mark, which nothing makes up for. */
  lemma {:induction false} CutList(key: string, values: seq<string>)
    requires PlainKey(key) && !ListKept(values)
    ensures !IsList(ParseLine(key + "=" + FormatList(values)), key, values)
  {
    var line := key + "=" + FormatList(values);
    KeyKept(key, FormatList(values));
    MarksCut(line);
    MarksRead(line);
    MarksOnLine(key, values);
    if ParseLine(line).Entry? {
      MarksParsed(ParseLine(line).value);
    }
  }

  lemma {:induction false} MarksOnLine(key: string, values: seq<string>)
    requires PlainKey(key)
    ensures Marks(key + "=" + FormatList(values)) == MarksIn(values)
  {
    MarksJoined(values);
    MarksOne('[');
    MarksOne(']');
    MarksOne('=');
    NoMarks(key);
    MarksAdd("[" + JoinScalars(values), "]");
    MarksAdd("[", JoinScalars(values));
    MarksAdd(key + "=", FormatList(values));
    MarksAdd(key, "=");
  }

  lemma {:induction false} NoMarks(s: string)
    requires forall c :: c in s ==> !IsComment(c)
    ensures Marks(s) == 0
  {
    if s != "" {
      assert s[|s| - 1] in s;
      NoMarks(s[..|s| - 1]);
    }
  }

  /** On a line of its own, a list is read back exactly if no item has a comma, each would survive
      alone, and no comment mark in it is taken for a comment. */
  lemma {:induction false} ListOnLine(key: string, values: seq<string>)
    requires PlainKey(key)
    ensures IsList(ParseLine(key + "=" + FormatList(values)), key, values) <==>
      ListKept(values) && NoCommas(values) && AllSurvive(values)
  {
    if ListKept(values) {
      KeptList(key, values);
      BracketsComeOff(JoinScalars(values));
      ItemsBack(values);
    } else {
      CutList(key, values);
    }
  }

  /** Two of these hold of every list free of quote marks, whatever blanks, comment marks or empty
      strings it holds. */
  lemma {:induction false} QuoteFreeLists(values: seq<string>)
    requires AllQuoteFree(values)
    ensures ListKept(values) && AllSurvive(values)
  {
    var value := FormatList(values);
    PassesPlain("[", JoinScalars(values) + "]", false);
    assert value == "[" + (JoinScalars(values) + "]");
    if values != [] {
      JoinedKept(values, "]", false);
    }
  }

  lemma {:induction false} BracketsComeOff(j: string)
    ensures ParseList("[" + j + "]") == Items(j)
  {
    var value := "[" + j + "]";
    TrimTight(value);
    assert value[1..|value| - 1] == j;
  }
}
