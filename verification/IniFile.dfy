/** A configuration file as lines (src/sesman/state.rs, lines 399-421, with the printers of lines
    672-694): what is printed as one entry is read as one entry, with the same value, and
    exactly when not. */
module IniFile {
  import opened IniText
  import opened IniLists

  function StripReturn(line: string): string {
    if line != "" && line[|line| - 1] == '\r' then line[..|line| - 1] else line
  }

  /** `str::lines`: a line ends at a line feed, with the carriage return before it, or at the end. */
  function Lines(content: string): seq<string>
    decreases |content|
  {
    if content == "" then []
    else
      var n := IndexOf(content, '\n');
      if n == |content| then [content] else [StripReturn(content[..n])] + Lines(content[n + 1..])
  }

  // ---- A value cannot bring back a line break -------------------------------------------------------

  predicate OneLine(s: string) { '\n' !in s }

  lemma {:induction false} TrimOneLine(s: string)
    requires OneLine(s)
    ensures OneLine(Trim(s))
  {
    TrimStartOneLine(s);
    TrimEndPrefix(TrimStart(s));
  }

  lemma {:induction false} TrimStartOneLine(s: string)
    requires OneLine(s)
    ensures OneLine(TrimStart(s))
  {
    if s != "" && IsSpace(s[0]) {
      TrimStartOneLine(s[1..]);
    }
  }

  lemma {:induction false} UnquoteOneLine(s: string)
    requires OneLine(s)
    ensures OneLine(Unquote(s))
  {
    TrimOneLine(s);
  }

  lemma {:induction false} LinesAreLines(content: string, k: nat)
    requires k < |Lines(content)|
    ensures OneLine(Lines(content)[k])
    decreases |content|
  {
    IndexOfFinds(content, '\n');
    var n := IndexOf(content, '\n');
    if n < |content| && k > 0 {
      LinesAreLines(content[n + 1..], k - 1);
    }
  }

  predicate TextsOneLine(line: Line) {
    match line
    case Section(name) => OneLine(name)
    case Entry(_, value) => OneLine(value)
    case _ => true
  }

  lemma {:induction false} ParsedOneLine(line: string)
    requires OneLine(line)
    ensures TextsOneLine(ParseLine(line))
  {
    TrimOneLine(StripComment(line));
    var t := Trim(StripComment(line));
    if |t| >= 2 {
      TrimOneLine(t[1..|t| - 1]);
    }
    var n := IndexOf(t, '=');
    if n < |t| {
      TrimOneLine(t[n + 1..]);
      UnquoteOneLine(Trim(t[n + 1..]));
    }
  }

  // ---- Printed lines stay apart ----------------------------------------------------------------------

  lemma {:induction false} FirstBreak(a: string, b: string)
    requires OneLine(a)
    ensures IndexOf(a + "\n" + b, '\n') == |a|
  {
    var all := a + "\n" + b;
    if a != "" {
      assert all[0] == a[0] && a[0] in a;
      assert all[1..] == a[1..] + "\n" + b;
      FirstBreak(a[1..], b);
    }
  }

  lemma {:induction false} LinesSplit(a: string, b: string)
    requires OneLine(a)
    ensures Lines(a + "\n" + b) == [StripReturn(a)] + Lines(b)
  {
    var all := a + "\n" + b;
    FirstBreak(a, b);
    assert all[..|a|] == a && all[|a| + 1..] == b;
  }

  lemma {:induction false} ReadSplits(a: string, b: string)
    requires OneLine(a)
    ensures ReadFile(a + "\n" + b) == [ParseLine(StripReturn(a))] + ReadFile(b)
  {
    LinesSplit(a, b);
    assert ([StripReturn(a)] + Lines(b))[1..] == Lines(b);
  }

  lemma {:induction false} EscapeOneLine(s: string)
    ensures OneLine(Escape(s)) <==> OneLine(s)
  {
    if s != "" {
      EscapeOneLine(s[..|s| - 1]);
      assert s == s[..|s| - 1] + [s[|s| - 1]];
    }
  }

  lemma {:induction false} ScalarOneLine(s: string)
    requires OneLine(s)
    ensures OneLine(FormatScalar(s))
    ensures FormatScalar(s) != "" && !IsSpace(FormatScalar(s)[|FormatScalar(s)| - 1])
  {
    EscapeOneLine(s);
  }

  lemma {:induction false} EntryOneLine(key: string, value: string)
    requires PlainKey(key) && OneLine(value)
    ensures OneLine(key + "=" + value)
  {
    assert IsSpace('\n');
  }

  // ---- Scalars ---------------------------------------------------------------------------------------

  /** The entries of a file, one to a line. */
  function ReadFile(content: string): seq<Line> { ReadLines(Lines(content)) }

  function ReadLines(lines: seq<string>): seq<Line> {
    if lines == [] then [] else [ParseLine(lines[0])] + ReadLines(lines[1..])
  }

  lemma {:induction false} ReadLineAt(lines: seq<string>, k: nat)
    requires k < |lines|
    ensures |ReadLines(lines)| == |lines| && ReadLines(lines)[k] == ParseLine(lines[k])
  {
    if k > 0 {
      ReadLineAt(lines[1..], k - 1);
    } else if |lines| > 1 {
      ReadLineAt(lines[1..], 0);
    }
  }

  /** Nothing that was read has a line break in it. */
  lemma {:induction false} ReadOneLine(content: string, k: nat)
    requires k < |ReadFile(content)|
    ensures TextsOneLine(ReadFile(content)[k])
  {
    var lines := Lines(content);
    if lines != [] {
      ReadLineAt(lines, 0);
      ReadLineAt(lines, k);
      LinesAreLines(content, k);
      ParsedOneLine(lines[k]);
    }
  }

  /** What a caller can check of a scalar before printing it into a file. */
  predicate Storable(s: string) { Survives(s) && OneLine(s) }

  /** Whatever follows in the file, a printed scalar comes back as the first entry exactly if it is
      storable: it has no line break, no double quote if it gets quotes, and does not look
      quoted if it gets none. */
  lemma {:induction false} ScalarRoundTrip(key: string, s: string, rest: string)
    requires PlainKey(key)
    ensures var lines := ReadFile(key + "=" + FormatScalar(s) + "\n" + rest);
      (lines != [] && lines[0] == Entry(key, s)) <==> Storable(s)
  {
    var line := key + "=" + FormatScalar(s);
    var content := line + "\n" + rest;
    if OneLine(s) {
      ScalarOneLine(s);
      EntryOneLine(key, FormatScalar(s));
      ReadSplits(line, rest);
      assert line[|line| - 1] == FormatScalar(s)[|FormatScalar(s)| - 1] && IsSpace('\r');
      ScalarLine(key, s);
    } else if ReadFile(content) != [] {
      ReadOneLine(content, 0);
    }
  }

  // ---- Values printed as they are ----------------------------------------------------------------------

  /** Names, commands and paths are printed without quotes. They need: no line break, no comment mark
      after white space outside quotes, no white space at either end, no pair of quotes around. */
  predicate Plain(v: string) {
    && OneLine(v) && Kept(v, false, false, false) == |v| && Tight(v)
    && !WrappedIn(v, '"') && !WrappedIn(v, '\'')
  }

  lemma {:induction false} TrimShorter(s: string)
    ensures |TrimStart(s)| <= |s| && (s != "" && IsSpace(s[0]) ==> |TrimStart(s)| < |s|)
    ensures |TrimEnd(s)| <= |s| && (s != "" && IsSpace(s[|s| - 1]) ==> |TrimEnd(s)| < |s|)
    decreases |s|
  {
    TrimEndPrefix(s);
    if s != "" && IsSpace(s[0]) {
      TrimShorter(s[1..]);
    }
    if s != "" && IsSpace(s[|s| - 1]) {
      TrimEndPrefix(s[..|s| - 1]);
    }
  }

  lemma {:induction false} TrimEndAfter(a: string, c: char, b: string)
    requires !IsSpace(c)
    ensures TrimEnd(a + [c] + b) == a + [c] + TrimEnd(b)
  {
    var all := a + [c] + b;
    if b != "" {
      assert all[|all| - 1] == b[|b| - 1] && all[..|all| - 1] == a + [c] + b[..|b| - 1];
      if IsSpace(b[|b| - 1]) {
        TrimEndAfter(a, c, b[..|b| - 1]);
      }
    } else {
      assert all == a + [c] && all[|all| - 1] == c;
    }
  }

  /** What a line `key=w` parses to. */
  lemma {:induction false} RawParsed(key: string, w: string)
    requires PlainKey(key)
    ensures ParseLine(key + "=" + w) == Entry(key, Unquote(Trim(TrimEnd(w[..Kept(w, false, false, false)]))))
  {
    var n := Kept(w, false, false, false);
    KeyKept(key, w);
    var line := key + "=" + w;
    assert StripComment(line) == key + "=" + w[..n];
    assert key[0] in key;
    assert (key + "=" + w[..n])[0] == key[0];
    TrimEndAfter(key, '=', w[..n]);
    var t := key + "=" + TrimEnd(w[..n]);
    assert Trim(StripComment(line)) == t && t[0] == key[0];
    FirstEquals(key, TrimEnd(w[..n]));
    assert t[..|key|] == key && t[|key| + 1..] == TrimEnd(w[..n]);
    assert key[|key| - 1] in key;
    TrimTight(key);
  }

  lemma {:induction false} UnquoteShorter(s: string)
    ensures |Unquote(s)| <= |Trim(s)| <= |s|
    ensures WrappedIn(Trim(s), '"') || WrappedIn(Trim(s), '\'') ==> |Unquote(s)| < |Trim(s)|
  {
    TrimShorter(s);
    TrimShorter(TrimStart(s));
  }

  /** The value read from the rest of a line is the rest itself exactly if that is plain. */
  lemma {:induction false} RawValue(w: string)
    requires OneLine(w)
    ensures Unquote(Trim(TrimEnd(w[..Kept(w, false, false, false)]))) == w <==> Plain(w)
  {
    var x := w[..Kept(w, false, false, false)];
    var y := TrimEnd(x);
    TrimShorter(x);
    UnquoteShorter(y);
    UnquoteShorter(Trim(y));
    if x == w {
      if Tight(w) {
        TrimTight(w);
        UnquoteShorter(w);
      } else {
        TrimShorter(w);
        TrimEndPrefix(TrimStart(y));
      }
    }
  }

  lemma {:induction false} RawLength(w: string)
    ensures |Unquote(Trim(TrimEnd(w[..Kept(w, false, false, false)])))| <= |w|
  {
    var y := TrimEnd(w[..Kept(w, false, false, false)]);
    TrimShorter(w[..Kept(w, false, false, false)]);
    UnquoteShorter(y);
    UnquoteShorter(Trim(y));
  }

  /** A carriage return at the end is lost, so the value comes back shorter. */
  lemma {:induction false} ReturnLost(key: string, w: string)
    requires PlainKey(key)
    ensures StripReturn(key + "=" + (w + "\r")) == key + "=" + w
    ensures ParseLine(key + "=" + w) != Entry(key, w + "\r")
  {
    var line := key + "=" + (w + "\r");
    assert line[|line| - 1] == '\r' && line[..|line| - 1] == key + "=" + w;
    RawParsed(key, w);
    RawLength(w);
  }

  lemma {:induction false} NoReturn(key: string, v: string)
    requires v == "" || v[|v| - 1] != '\r'
    ensures StripReturn(key + "=" + v) == key + "=" + v
  {
    var line := key + "=" + v;
    assert line[|line| - 1] == if v == "" then '=' else v[|v| - 1];
  }

  lemma {:induction false} RawOnLine(key: string, v: string)
    requires PlainKey(key) && OneLine(v)
    ensures ParseLine(StripReturn(key + "=" + v)) == Entry(key, v) <==> Plain(v)
  {
    if v != "" && v[|v| - 1] == '\r' {
      assert IsSpace('\r') && !Tight(v);
      assert v == v[..|v| - 1] + "\r";
      ReturnLost(key, v[..|v| - 1]);
    } else {
      NoReturn(key, v);
      RawParsed(key, v);
      RawValue(v);
    }
  }

  /** Whatever follows in the file, a value printed as it is comes back exactly if it is plain. */
  lemma {:induction false} RawRoundTrip(key: string, v: string, rest: string)
    requires PlainKey(key)
    ensures var lines := ReadFile(key + "=" + v + "\n" + rest);
      (lines != [] && lines[0] == Entry(key, v)) <==> Plain(v)
  {
    if OneLine(v) {
      EntryOneLine(key, v);
      ReadSplits(key + "=" + v, rest);
      RawOnLine(key, v);
    } else if ReadFile(key + "=" + v + "\n" + rest) != [] {
      ReadOneLine(key + "=" + v + "\n" + rest, 0);
    }
  }

  // ---- Lists -----------------------------------------------------------------------------------------

  predicate NoBreaks(values: seq<string>) {
    forall k :: 0 <= k < |values| ==> OneLine(values[k])
  }

  lemma {:induction false} JoinOneLine(values: seq<string>)
    requires NoBreaks(values)
    ensures OneLine(JoinScalars(values))
  {
    if values != [] {
      ScalarOneLine(values[|values| - 1]);
      JoinOneLine(values[..|values| - 1]);
    }
  }

  lemma {:induction false} SplitOneLine(s: string, k: nat)
    requires OneLine(s) && k < |Split(s)|
    ensures OneLine(Split(s)[k])
    decreases |s|
  {
    var n := IndexOf(s, ',');
    if n < |s| && k > 0 {
      SplitOneLine(s[n + 1..], k - 1);
    }
  }

  lemma {:induction false} CollectOneLine(pieces: seq<string>)
    requires NoBreaks(pieces)
    ensures NoBreaks(Collect(pieces))
  {
    if pieces != [] {
      var last := pieces[|pieces| - 1];
      CollectOneLine(pieces[..|pieces| - 1]);
      TrimOneLine(last);
      UnquoteOneLine(Trim(last));
    }
  }

  lemma {:induction false} ParsedListOneLine(value: string)
    requires OneLine(value)
    ensures NoBreaks(ParseList(value))
  {
    TrimOneLine(value);
    var inner := Inner(value);
    forall k | 0 <= k < |Split(inner)| ensures OneLine(Split(inner)[k]) {
      SplitOneLine(inner, k);
    }
    CollectOneLine(Split(inner));
  }

  lemma {:induction false} ListPrinted(key: string, values: seq<string>)
    requires PlainKey(key) && NoBreaks(values)
    ensures var line := key + "=" + FormatList(values); OneLine(line) && StripReturn(line) == line
  {
    JoinOneLine(values);
    EntryOneLine(key, FormatList(values));
  }

  /** What a caller can check of a list before printing it into a file. */
  predicate ListStorable(values: seq<string>) {
    NoBreaks(values) && NoCommas(values) && AllSurvive(values) && ListKept(values)
  }

  /** Whatever follows in the file, a list comes back exactly if no item has a comma or a line break,
      each would survive alone, and no comment mark in it is taken for a comment. */
  lemma {:induction false} ListRoundTrip(key: string, values: seq<string>, rest: string)
    requires PlainKey(key)
    ensures var lines := ReadFile(key + "=" + FormatList(values) + "\n" + rest);
      (lines != [] && IsList(lines[0], key, values)) <==> ListStorable(values)
  {
    var line := key + "=" + FormatList(values);
    var content := line + "\n" + rest;
    if NoBreaks(values) {
      ListPrinted(key, values);
      ReadSplits(line, rest);
      ListOnLine(key, values);
    } else if ReadFile(content) != [] && ReadFile(content)[0].Entry? {
      ReadOneLine(content, 0);
      ParsedListOneLine(ReadFile(content)[0].value);
    }
  }

  /** So a list free of quote marks comes back exactly if no item has a comma or a line break. */
  lemma {:induction false} QuoteFreeListRoundTrip(key: string, values: seq<string>, rest: string)
    requires PlainKey(key) && AllQuoteFree(values)
    ensures var lines := ReadFile(key + "=" + FormatList(values) + "\n" + rest);
      (lines != [] && IsList(lines[0], key, values)) <==> NoCommas(values) && NoBreaks(values)
  {
    ListRoundTrip(key, values, rest);
    QuoteFreeLists(values);
  }

  // ---- Whole files -----------------------------------------------------------------------------------

  /** Every line that the printer writes is one of these. */
  datatype Item = Gap | Heading(name: string) | Scalar(key: string, value: string) | Raw(key: string, value: string)
                | Listing(key: string, values: seq<string>)

  function Printed(item: Item): string {
    match item
    case Gap => ""
    case Heading(name) => "[" + name + "]"
    case Scalar(key, value) => key + "=" + FormatScalar(value)
    case Raw(key, value) => key + "=" + value
    case Listing(key, values) => key + "=" + FormatList(values)
  }

  predicate Means(line: Line, item: Item) {
    match item
    case Gap => line == Blank
    case Heading(name) => line == Section(name)
    case Scalar(key, value) => line == Entry(key, value)
    case Raw(key, value) => line == Entry(key, value)
    case Listing(key, values) => IsList(line, key, values)
  }

  /** Keys as the printer writes them. */
  predicate Printable(item: Item) {
    match item
    case Scalar(key, _) => PlainKey(key)
    case Raw(key, _) => PlainKey(key)
    case Listing(key, _) => PlainKey(key)
    case _ => true
  }

  /** A section name without comment or white space that would be taken away. */
  predicate PlainName(name: string) {
    OneLine(name) && Kept("[" + name + "]", true, false, false) == |name| + 2 && Tight(name)
  }

  predicate Safe(item: Item) {
    match item
    case Gap => true
    case Heading(name) => PlainName(name)
    case Scalar(_, value) => Storable(value)
    case Raw(_, value) => Plain(value)
    case Listing(_, values) => ListStorable(values)
  }

  predicate Unbroken(item: Item) {
    match item
    case Gap => true
    case Heading(name) => OneLine(name)
    case Scalar(_, value) => OneLine(value)
    case Raw(_, value) => OneLine(value)
    case Listing(_, values) => NoBreaks(values)
  }

  lemma {:induction false} HeadingOnLine(name: string)
    requires OneLine(name)
    ensures ParseLine("[" + name + "]") == Section(name) <==> PlainName(name)
  {
    var line := "[" + name + "]";
    var n := Kept(line, true, false, false);
    var t := Trim(StripComment(line));
    TrimShorter(StripComment(line));
    TrimShorter(TrimStart(StripComment(line)));
    if n == |line| {
      assert StripComment(line) == line;
      TrimTight(line);
      assert line[1..|line| - 1] == name;
      TrimTightExactly(name);
    } else if |t| >= 2 {
      TrimShorter(t[1..|t| - 1]);
      TrimShorter(TrimStart(t[1..|t| - 1]));
    }
  }

  lemma {:induction false} TrimTightExactly(s: string)
    ensures Trim(s) == s <==> Tight(s)
  {
    TrimShorter(s);
    TrimShorter(TrimStart(s));
    if Tight(s) {
      TrimTight(s);
    }
  }

  /** An item without line breaks is printed on one line and means itself exactly if it is safe. */
  lemma {:induction false} ItemOnLine(item: Item)
    requires Printable(item) && Unbroken(item)
    ensures OneLine(Printed(item))
    ensures Means(ParseLine(StripReturn(Printed(item))), item) <==> Safe(item)
  {
    match item
    case Gap =>
    case Heading(name) =>
      HeadingOnLine(name);
    case Scalar(key, value) =>
      ScalarOneLine(value);
      EntryOneLine(key, FormatScalar(value));
      assert IsSpace('\r');
      ScalarLine(key, value);
    case Raw(key, value) =>
      EntryOneLine(key, value);
      RawOnLine(key, value);
    case Listing(key, values) =>
      ListPrinted(key, values);
      ListOnLine(key, values);
  }

  /** A broken item is never read back. */
  lemma {:induction false} BrokenItem(item: Item, line: Line)
    requires TextsOneLine(line) && !Unbroken(item)
    ensures !Means(line, item) && !Safe(item)
  {
    if item.Listing? && line.Entry? {
      ParsedListOneLine(line.value);
    }
  }

  function Render(items: seq<Item>): string {
    if items == [] then "" else Printed(items[0]) + "\n" + Render(items[1..])
  }

  predicate AllMean(lines: seq<Line>, items: seq<Item>) {
    |lines| == |items| && forall k :: 0 <= k < |items| ==> Means(lines[k], items[k])
  }

  predicate AllSafe(items: seq<Item>) { forall k :: 0 <= k < |items| ==> Safe(items[k]) }

  lemma {:induction false} Unfold(line: Line, lines: seq<Line>, items: seq<Item>)
    requires items != []
    ensures AllMean([line] + lines, items) <==> Means(line, items[0]) && AllMean(lines, items[1..])
    ensures AllSafe(items) <==> Safe(items[0]) && AllSafe(items[1..])
  {
    var all, others := [line] + lines, items[1..];
    assert all[0] == line && items == [items[0]] + others;
    assert forall k :: 0 <= k < |lines| ==> all[k + 1] == lines[k];
    assert forall k :: 0 <= k < |others| ==> items[k + 1] == others[k];
    if AllMean(all, items) {
      forall k | 0 <= k < |others| ensures Means(lines[k], others[k]) {
        assert Means(all[k + 1], items[k + 1]);
      }
    }
    if AllSafe(items) {
      forall k | 0 <= k < |others| ensures Safe(others[k]) {
        assert Safe(items[k + 1]);
      }
    }
  }

  /** A whole printed file is read back line for line, every heading, scalar, plain value and list
      as it was and nothing else, exactly if every item is safe. */
  lemma {:induction false} FileRoundTrip(items: seq<Item>)
    requires forall k :: 0 <= k < |items| ==> Printable(items[k])
    ensures AllMean(ReadFile(Render(items)), items) <==> AllSafe(items)
  {
    if items != [] {
      var item, others := items[0], items[1..];
      FileRoundTrip(others);
      if Unbroken(item) {
        ItemOnLine(item);
        ReadSplits(Printed(item), Render(others));
        Unfold(ParseLine(StripReturn(Printed(item))), ReadFile(Render(others)), items);
      } else if ReadFile(Render(items)) == [] {
        BrokenItem(item, Blank);
      } else {
        ReadOneLine(Render(items), 0);
        BrokenItem(item, ReadFile(Render(items))[0]);
      }
    }
  }
}
