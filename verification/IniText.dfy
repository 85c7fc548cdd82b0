/** The line format of the sesman configuration (src/sesman/state.rs, lines 404-420, 612-662 and
    672-694): printing and parsing of scalars and lists, and exactly which values survive both. */
module IniText {
  // ---- Characters and trimming ---------------------------------------------------------------------

  /** Unicode White_Space. */
  predicate IsSpace(c: char) {
    var n := c as int;
    || 0x9 <= n <= 0xd || n == 0x20 || n == 0x85 || n == 0xa0 || n == 0x1680
    || 0x2000 <= n <= 0x200a || n == 0x2028 || n == 0x2029 || n == 0x202f || n == 0x205f || n == 0x3000
  }

  /** The 25 characters with that property. */
  const WHITE_SPACE: string :=
    "\t\n\U{B}\U{C}\r \U{85}\U{A0}\U{1680}\U{2000}\U{2001}\U{2002}\U{2003}\U{2004}\U{2005}\U{2006}\U{2007}"
    + "\U{2008}\U{2009}\U{200A}\U{2028}\U{2029}\U{202F}\U{205F}\U{3000}"

  lemma {:induction false} SpacesExactly(c: char)
    ensures IsSpace(c) <==> c in WHITE_SPACE
  {}

  predicate IsComment(c: char) { c == '#' || c == ';' }

  predicate IsQuote(c: char) { c == '"' || c == '\'' }

  function TrimStart(s: string): string {
    if s != "" && IsSpace(s[0]) then TrimStart(s[1..]) else s
  }

  function TrimEnd(s: string): string {
    if s != "" && IsSpace(s[|s| - 1]) then TrimEnd(s[..|s| - 1]) else s
  }

  function Trim(s: string): string { TrimEnd(TrimStart(s)) }

  /** Neither end is white space. */
  predicate Tight(s: string) {
    s != "" ==> !IsSpace(s[0]) && !IsSpace(s[|s| - 1])
  }

  lemma {:induction false} TrimTight(s: string)
    requires Tight(s)
    ensures Trim(s) == s
  {}

  /** Trimming the end keeps a prefix, and everything up to a last non-space character. */
  lemma {:induction false} TrimEndPrefix(s: string)
    ensures |TrimEnd(s)| <= |s| && TrimEnd(s) == s[..|TrimEnd(s)|]
  {
    if s != "" && IsSpace(s[|s| - 1]) {
      TrimEndPrefix(s[..|s| - 1]);
    }
  }

  // ---- Comments --------------------------------------------------------------------------------------

  /** How many characters precede the first comment, reading s in the given quoting state with
      white space or the line start before it, or not. */
  function Kept(s: string, open: bool, single: bool, double: bool): (n: nat)
    ensures n <= |s|
  {
    if s == "" then 0
    else if s[0] == '\'' && !double then 1 + Kept(s[1..], false, !single, double)
    else if s[0] == '"' && !single then 1 + Kept(s[1..], false, single, !double)
    else if IsComment(s[0]) && !single && !double && open then 0
    else 1 + Kept(s[1..], IsSpace(s[0]), single, double)
  }

  function StripComment(line: string): string { line[..Kept(line, true, false, false)] }

  /** The scanning loop of the source. */
  method StripIniComment(line: string) returns (r: string)
    ensures r == StripComment(line)
  {
    var single, double := false, false;
    for k := 0 to |line|
      invariant Kept(line, true, false, false)
        == k + Kept(line[k..], k == 0 || IsSpace(line[k - 1]), single, double)
    {
      var c := line[k];
      assert line[k..][1..] == line[k + 1..];
      if c == '\'' && !double {
        single := !single;
      } else if c == '"' && !single {
        double := !double;
      } else if IsComment(c) && !single && !double {
        if k == 0 || IsSpace(line[k - 1]) {
          return line[..k];
        }
      }
    }
    return line;
  }

  lemma {:induction false} CutAtComment(s: string, open: bool, single: bool, double: bool)
    ensures var n := Kept(s, open, single, double); n < |s| ==> IsComment(s[n])
  {
    if s != "" {
      if s[0] == '\'' && !double {
        CutAtComment(s[1..], false, !single, double);
      } else if s[0] == '"' && !single {
        CutAtComment(s[1..], false, single, !double);
      } else if !(IsComment(s[0]) && !single && !double && open) {
        CutAtComment(s[1..], IsSpace(s[0]), single, double);
      }
    }
  }

  predicate EndsOpen(s: string, open: bool) { if s == "" then open else IsSpace(s[|s| - 1]) }

  /** Which quotes are open after a text. */
  datatype Quoting = Quoting(single: bool, double: bool)

  function QuotesAfter(s: string): Quoting {
    if s == "" then Quoting(false, false)
    else
      var q, c := QuotesAfter(s[..|s| - 1]), s[|s| - 1];
      if c == '\'' && !q.double then Quoting(!q.single, q.double)
      else if c == '"' && !q.single then Quoting(q.single, !q.double)
      else q
  }

  /** A comment starts at a mark outside quotes, at the beginning or after white space. */
  predicate CommentStarts(line: string, k: nat)
    requires k < |line|
  {
    && (line[k] == '#' || line[k] == ';') && QuotesAfter(line[..k]) == Quoting(false, false)
    && (k == 0 || IsSpace(line[k - 1]))
  }

  function Toggled(q: Quoting, c: char): Quoting {
    if c == '\'' && !q.double then Quoting(!q.single, q.double)
    else if c == '"' && !q.single then Quoting(q.single, !q.double)
    else q
  }

  lemma {:induction false} QuotesStep(line: string, k: nat)
    requires k < |line|
    ensures QuotesAfter(line[..k + 1]) == Toggled(QuotesAfter(line[..k]), line[k])
  {
    assert line[..k + 1][..k] == line[..k];
  }

  /** Reading one character more. */
  lemma {:induction false} KeptStep(s: string, open: bool, q: Quoting)
    requires s != ""
    ensures Kept(s, open, q.single, q.double) ==
      if IsComment(s[0]) && q == Quoting(false, false) && open then 0
      else 1 + Kept(s[1..], IsSpace(s[0]), Toggled(q, s[0]).single, Toggled(q, s[0]).double)
  {}

  ghost predicate NoCommentIn(line: string, from: nat, to: nat) {
    forall j :: from <= j < to && j < |line| ==> !CommentStarts(line, j)
  }

  /** The scan from k on stops at n. */
  ghost predicate StopsAt(line: string, k: nat, n: nat) {
    k <= n <= |line| && NoCommentIn(line, k, n) && (n < |line| ==> CommentStarts(line, n))
  }

  lemma {:induction false} StopsEarlier(line: string, k: nat, n: nat)
    requires k < |line| && StopsAt(line, k + 1, n) && !CommentStarts(line, k)
    ensures StopsAt(line, k, n)
  {}

  lemma {:induction false} KeptFrom(line: string, k: nat)
    requires k <= |line|
    ensures var q := QuotesAfter(line[..k]);
      StopsAt(line, k, k + Kept(line[k..], k == 0 || IsSpace(line[k - 1]), q.single, q.double))
    decreases |line| - k
  {
    if k < |line| {
      var open, q := k == 0 || IsSpace(line[k - 1]), QuotesAfter(line[..k]);
      KeptStep(line[k..], open, q);
      if !CommentStarts(line, k) {
        KeptFrom(line, k + 1);
        QuotesStep(line, k);
        assert line[k..][1..] == line[k + 1..];
        StopsEarlier(line, k, k + Kept(line[k..], open, q.single, q.double));
      }
    }
  }

  /** What is kept of a line is everything before its first comment. */
  lemma {:induction false} StripExactly(line: string)
    ensures var n := |StripComment(line)|;
      && n <= |line| && StripComment(line) == line[..n] && (n < |line| ==> CommentStarts(line, n))
      && forall j :: 0 <= j < n ==> !CommentStarts(line, j)
  {
    KeptFrom(line, 0);
    assert line[0..] == line && line[..0] == "";
  }

  /** Text without quotes or comment marks is passed over. */
  lemma {:induction false} PassesPlain(a: string, b: string, open: bool)
    requires forall c :: c in a ==> !IsQuote(c) && !IsComment(c)
    ensures Kept(a + b, open, false, false) == |a| + Kept(b, EndsOpen(a, open), false, false)
  {
    if a == "" {
      assert a + b == b;
    } else {
      assert (a + b)[0] == a[0] && a[0] in a;
      assert (a + b)[1..] == a[1..] + b;
      PassesPlain(a[1..], b, IsSpace(a[0]));
    }
  }

  /** Inside double quotes everything but a double quote is passed over. */
  lemma {:induction false} PassesQuoted(a: string, b: string, open: bool)
    requires '"' !in a
    ensures Kept(a + b, open, false, true) == |a| + Kept(b, EndsOpen(a, open), false, true)
  {
    if a == "" {
      assert a + b == b;
    } else {
      assert (a + b)[1..] == a[1..] + b;
      PassesQuoted(a[1..], b, IsSpace(a[0]));
    }
  }

  lemma {:induction false} NoCommentKeepsAll(s: string, open: bool, single: bool, double: bool)
    requires forall k :: 0 <= k < |s| ==> !IsComment(s[k])
    ensures Kept(s, open, single, double) == |s|
  {
    CutAtComment(s, open, single, double);
  }

  // ---- Quoting -----------------------------------------------------------------------------------------

  predicate WrappedIn(s: string, quote: char) {
    |s| >= 2 && s[0] == quote && s[|s| - 1] == quote
  }

  function Unquote(value: string): string {
    var v := Trim(value);
    if WrappedIn(v, '"') || WrappedIn(v, '\'') then v[1..|v| - 1] else v
  }

  predicate NeedsQuotes(s: string) {
    s == "" || ',' in s || '#' in s || ';' in s || exists i :: 0 <= i < |s| && IsSpace(s[i])
  }

  function Escape(s: string): string {
    if s == "" then "" else Escape(s[..|s| - 1]) + (if s[|s| - 1] == '"' then "\\\"" else [s[|s| - 1]])
  }

  function FormatScalar(s: string): string {
    if NeedsQuotes(s) then "\"" + Escape(s) + "\"" else s
  }

  /** A scalar is printed as it is exactly if it has some text and neither white space, a comma nor a
      comment mark in it; otherwise it is put in double quotes. */
  lemma {:induction false} PrintedBareExactly(s: string)
    ensures FormatScalar(s) == s <==> s != "" && forall c :: c in s ==> !IsSpace(c) && c != ',' && c != '#' && c != ';'
    ensures FormatScalar(s) != s ==> WrappedIn(FormatScalar(s), '"')
  {
    EscapeGrows(s);
    if !NeedsQuotes(s) {
      forall c | c in s ensures !IsSpace(c) {
        var i :| 0 <= i < |s| && s[i] == c;
      }
    } else if s != "" && exists i :: 0 <= i < |s| && IsSpace(s[i]) {
      var i :| 0 <= i < |s| && IsSpace(s[i]);
      assert s[i] in s;
    }
  }

  lemma {:induction false} EscapeNothing(s: string)
    requires '"' !in s
    ensures Escape(s) == s
  {
    if s != "" {
      EscapeNothing(s[..|s| - 1]);
      assert s[|s| - 1] in s;
    }
  }

  lemma {:induction false} EscapeGrows(s: string)
    ensures |s| <= |Escape(s)|
    ensures '"' in s ==> |s| < |Escape(s)|
  {
    if s != "" {
      EscapeGrows(s[..|s| - 1]);
    }
  }

  /** Escaping only moves characters back: a comment mark in the result comes from one at the
      same place or earlier in the source. */
  lemma {:induction false} EscapeOrigin(s: string, k: nat) returns (m: nat)
    requires k < |Escape(s)| && IsComment(Escape(s)[k])
    ensures m <= k && m < |s| && s[m] == Escape(s)[k]
  {
    var before := s[..|s| - 1];
    if k < |Escape(before)| {
      m := EscapeOrigin(before, k);
    } else {
      EscapeGrows(before);
      m := |s| - 1;
    }
  }

  /** At the first double quote of the source the escaped text has a backslash. */
  lemma {:induction false} EscapeAtFirstQuote(s: string, i: nat)
    requires i < |s| && s[i] == '"' && '"' !in s[..i]
    ensures i < |Escape(s)| && Escape(s)[i] == '\\'
  {
    var before := s[..|s| - 1];
    if i == |s| - 1 {
      EscapeNothing(before);
    } else {
      assert before[..i] == s[..i];
      EscapeAtFirstQuote(before, i);
    }
  }

  // ---- Lines -----------------------------------------------------------------------------------------------

  datatype Line = Blank | Section(name: string) | Entry(key: string, value: string) | Invalid

  /** The place of the first c, or the length if there is none. */
  function IndexOf(s: string, c: char): (n: nat)
    ensures n <= |s|
  {
    if s == "" || s[0] == c then 0 else 1 + IndexOf(s[1..], c)
  }

  lemma {:induction false} IndexOfFinds(s: string, c: char)
    ensures var n := IndexOf(s, c); (n < |s| ==> s[n] == c) && c !in s[..n] && (n < |s| <==> c in s)
  {
    if s != "" && s[0] != c {
      IndexOfFinds(s[1..], c);
      var n := IndexOf(s[1..], c);
      assert s[..1 + n] == [s[0]] + s[1..][..n];
      assert s == [s[0]] + s[1..];
    }
  }

  /** One line of the file, before keys are lower-cased and values interpreted. */
  function ParseLine(raw: string): Line {
    var line := Trim(StripComment(raw));
    if line == "" then Blank
    else if |line| >= 2 && line[0] == '[' && line[|line| - 1] == ']' then Section(Trim(line[1..|line| - 1]))
    else
      var n := IndexOf(line, '=');
      if n == |line| then Invalid else Entry(Trim(line[..n]), Unquote(Trim(line[n + 1..])))
  }

  /** A key as the printer writes them. */
  predicate PlainKey(key: string) {
    && key != "" && key[0] != '['
    && forall c :: c in key ==> !IsSpace(c) && !IsQuote(c) && !IsComment(c) && c != '='
  }

  /** A line `key=value` whose value is neither cut nor trimmed. */
  lemma {:induction false} ParsesEntry(key: string, value: string)
    requires PlainKey(key) && value != "" && Tight(value) && StripComment(key + "=" + value) == key + "=" + value
    ensures ParseLine(key + "=" + value) == Entry(key, Unquote(value))
  {
    var line := key + "=" + value;
    assert key[0] in key && key[|key| - 1] in key;
    assert line[0] == key[0] && line[|line| - 1] == value[|value| - 1];
    TrimTight(line);
    FirstEquals(key, value);
    assert line[..|key|] == key && line[|key| + 1..] == value;
    TrimTight(key);
    TrimTight(value);
  }

  lemma {:induction false} FirstEquals(key: string, rest: string)
    requires '=' !in key
    ensures IndexOf(key + "=" + rest, '=') == |key|
  {
    var line := key + "=" + rest;
    if key != "" {
      assert line[0] == key[0] && key[0] in key;
      assert line[1..] == key[1..] + "=" + rest;
      FirstEquals(key[1..], rest);
    }
  }

  // ---- Scalars ------------------------------------------------------------------------------------------------

  /** What a caller can check before printing: a value that gets quotes must not contain a double
      quote; one that does not must not look quoted already. */
  predicate Survives(s: string) {
    if NeedsQuotes(s) then '"' !in s else !WrappedIn(s, '"') && !WrappedIn(s, '\'')
  }

  lemma {:induction false} ScalarBack(key: string, s: string)
    requires PlainKey(key) && Survives(s)
    ensures ParseLine(key + "=" + FormatScalar(s)) == Entry(key, s)
  {
    if NeedsQuotes(s) {
      QuotedBack(key, s);
    } else {
      RawLine(key, s);
    }
  }

  lemma {:induction false} RawLine(key: string, s: string)
    requires PlainKey(key) && !NeedsQuotes(s)
    ensures ParseLine(key + "=" + s) == Entry(key, Unquote(s)) && Trim(s) == s
  {
    assert s[0] in s && s[|s| - 1] in s;
    TrimTight(s);
    var line := key + "=" + s;
    forall k | 0 <= k < |line| ensures !IsComment(line[k]) {
      assert line[k] in line;
    }
    NoCommentKeepsAll(key + "=" + s, true, false, false);
    ParsesEntry(key, s);
  }

  lemma {:induction false} KeyKept(key: string, rest: string)
    requires PlainKey(key)
    ensures Kept(key + "=" + rest, true, false, false) == |key| + 1 + Kept(rest, false, false, false)
  {
    var head := key + "=";
    forall c | c in head ensures !IsQuote(c) && !IsComment(c) {}
    PassesPlain(head, rest, true);
    assert key + "=" + rest == head + rest;
  }

  lemma {:induction false} QuotedKept(s: string, rest: string, open: bool)
    requires '"' !in s
    ensures Kept("\"" + s + "\"" + rest, open, false, false) == |s| + 2 + Kept(rest, false, false, false)
  {
    var t := "\"" + s + "\"" + rest;
    assert t[1..] == s + ("\"" + rest);
    PassesQuoted(s, "\"" + rest, false);
    assert ("\"" + rest)[1..] == rest;
  }

  lemma {:induction false} QuotedBack(key: string, s: string)
    requires PlainKey(key) && '"' !in s
    ensures ParseLine(key + "=" + ("\"" + Escape(s) + "\"")) == Entry(key, s)
  {
    EscapeNothing(s);
    var value := "\"" + s + "\"";
    KeyKept(key, value);
    QuotedKept(s, "", false);
    assert value + "" == value;
    ParsesEntry(key, value);
    TrimTight(value);
    assert value[1..|value| - 1] == s;
  }

  /** A value that does not meet the condition is not read back. */
  lemma {:induction false} ScalarNotBack(key: string, s: string)
    requires PlainKey(key) && !Survives(s)
    ensures ParseLine(key + "=" + FormatScalar(s)) != Entry(key, s)
  {
    if NeedsQuotes(s) {
      QuoteLost(key, s);
    } else {
      RawLine(key, s);
    }
  }

  lemma {:induction false} QuoteLost(key: string, s: string)
    requires PlainKey(key) && '"' in s && NeedsQuotes(s)
    ensures ParseLine(key + "=" + ("\"" + Escape(s) + "\"")) != Entry(key, s)
  {
    var e := Escape(s);
    var value := "\"" + e + "\"";
    EscapeGrows(s);
    KeyKept(key, value);
    var n := Kept(value, false, false, false);
    CutAtComment(value, false, false, false);
    if n == |value| {
      ParsesEntry(key, value);
      TrimTight(value);
      assert value[1..|value| - 1] == e;
    } else {
      // The comment mark lies inside the escaped text.
      assert 1 <= n <= |e| && value[n] == e[n - 1];
      CutValue(key, e, n - 1);
      TrimmedPrefix(e, n - 1);
      MangledDiffers(s, TrimEnd("\"" + e[..n - 1]), n - 1);
    }
  }

  lemma {:induction false} TrimmedPrefix(e: string, n: nat)
    requires n <= |e|
    ensures var kept := TrimEnd("\"" + e[..n]);
      kept != "" && kept[0] == '"' && |kept| <= n + 1 && kept == ("\"" + e[..n])[..|kept|] && Tight(kept)
  {
    QuoteStays(e[..n]);
    TrimEndPrefix("\"" + e[..n]);
  }

  /** The opening quote survives trimming. */
  lemma {:induction false} QuoteStays(t: string)
    ensures TrimEnd("\"" + t) != "" && TrimEnd("\"" + t)[0] == '"' && Tight(TrimEnd("\"" + t))
  {
    var u := "\"" + t;
    if IsSpace(u[|u| - 1]) {
      assert t != "" && u[..|u| - 1] == "\"" + t[..|t| - 1];
      QuoteStays(t[..|t| - 1]);
    }
  }

  /** What a line cut inside its quoted value parses to. */
  lemma {:induction false} CutValue(key: string, e: string, n: nat)
    requires PlainKey(key) && n <= |e|
    requires Kept(key + "=" + ("\"" + e + "\""), true, false, false) == |key| + 1 + 1 + n
    ensures ParseLine(key + "=" + ("\"" + e + "\"")) == Entry(key, Unquote(TrimEnd("\"" + e[..n])))
  {
    var raw := key + "=" + ("\"" + e + "\"");
    var cut := key + "=" + ("\"" + e[..n]);
    assert StripComment(raw) == cut;
    var kept := TrimEnd("\"" + e[..n]);
    QuoteStays(e[..n]);
    assert key[0] in key && cut[0] == key[0];
    assert TrimStart(cut) == cut;
    TrimEndAppends(key + "=", "\"" + e[..n]);
    assert key + "=" + kept == (key + "=") + kept;
    var line := key + "=" + kept;
    assert Trim(cut) == line;
    FirstEquals(key, kept);
    assert line[..|key|] == key && line[|key| + 1..] == kept;
    TrimTight(key) by { assert key[|key| - 1] in key; }
    TrimTight(kept);
    assert line[0] == key[0];
  }

  lemma {:induction false} TrimEndAppends(a: string, b: string)
    requires TrimEnd(b) != ""
    ensures TrimEnd(a + b) == a + TrimEnd(b)
  {
    assert b != "";
    assert (a + b)[|a + b| - 1] == b[|b| - 1];
    if IsSpace(b[|b| - 1]) {
      assert (a + b)[..|a + b| - 1] == a + b[..|b| - 1];
      TrimEndAppends(a, b[..|b| - 1]);
    }
  }

  /** The mangled value differs from the original: where the first double quote should be it has
      the backslash, or its first comment mark comes too late. */
  lemma {:induction false} MangledDiffers(s: string, kept: string, n: nat)
    requires '"' in s && n < |Escape(s)| && IsComment(Escape(s)[n])
    requires kept != "" && kept[0] == '"' && |kept| <= n + 1 && kept == ("\"" + Escape(s)[..n])[..|kept|] && Tight(kept)
    ensures Unquote(kept) != s
  {
    var e := Escape(s);
    TrimTight(kept);
    if WrappedIn(kept, '"') {
      var r := kept[1..|kept| - 1];
      forall k | 0 <= k < |r| ensures r[k] == e[k] {
        assert kept[k + 1] == ("\"" + e[..n])[k + 1];
      }
      var i := IndexOf(s, '"');
      IndexOfFinds(s, '"');
      EscapeAtFirstQuote(s, i);
      if i < |r| {
        assert r[i] == e[i];
      }
    } else {
      // Unquoted, it is kept itself: its comment marks come one place later than those of e.
      var m := EscapeOrigin(s, n);
      var f := FirstComment(s, m);
      if kept == s {
        assert f > 0 && kept[f] == e[f - 1];
        var g := EscapeOrigin(s, f - 1);
      }
    }
  }

  lemma {:induction false} FirstComment(s: string, m: nat) returns (f: nat)
    requires m < |s| && IsComment(s[m])
    ensures f <= m && IsComment(s[f]) && forall k :: 0 <= k < f ==> !IsComment(s[k])
  {
    f := 0;
    while !IsComment(s[f])
      invariant f <= m && forall k :: 0 <= k < f ==> !IsComment(s[k])
      decreases m - f
    {
      f := f + 1;
    }
  }

  /** On a line of its own, a printed scalar is read back exactly if it meets the condition. */
  lemma {:induction false} ScalarLine(key: string, s: string)
    requires PlainKey(key)
    ensures ParseLine(key + "=" + FormatScalar(s)) == Entry(key, s) <==> Survives(s)
  {
    if Survives(s) {
      ScalarBack(key, s);
    } else {
      ScalarNotBack(key, s);
    }
  }

  // ---- Lines written by hand ----------------------------------------------------------------------------------

  predicate Spaces(s: string) { forall c :: c in s ==> IsSpace(c) }

  lemma {:induction false} TrimPadded(a: string, s: string, b: string)
    requires Spaces(a) && Spaces(b) && Tight(s) && s != ""
    ensures Trim(a + s + b) == s
  {
    if a != "" {
      assert a[0] in a && (a + s + b)[0] == a[0];
      assert (a + s + b)[1..] == a[1..] + s + b;
      TrimPadded(a[1..], s, b);
    } else {
      assert a + s + b == s + b && (s + b)[0] == s[0];
      TrimEndPadded(s, b);
    }
  }

  lemma {:induction false} TrimEndPadded(s: string, b: string)
    requires Spaces(b) && Tight(s) && s != ""
    ensures TrimEnd(s + b) == s
  {
    if b != "" {
      var n := |b| - 1;
      assert b[n] in b && (s + b)[|s| + n] == b[n];
      assert (s + b)[..|s| + n] == s + b[..n];
      TrimEndPadded(s, b[..n]);
    } else {
      assert s + b == s;
    }
  }

  lemma {:induction false} SpacesArePlain(s: string)
    requires Spaces(s)
    ensures '=' !in s && forall c :: c in s ==> !IsQuote(c) && !IsComment(c)
  {}

  /** What is kept of a printed scalar, with white space after it, is all of it. */
  lemma {:induction false} ScalarKept(s: string, d: string, open: bool)
    requires Survives(s) && Spaces(d)
    ensures Kept(FormatScalar(s) + d, open, false, false) == |FormatScalar(s)| + |d|
  {
    SpacesArePlain(d);
    if NeedsQuotes(s) {
      EscapeNothing(s);
      QuotedKept(s, d, open);
      NoCommentKeepsAll(d, false, false, false);
    } else {
      forall k | 0 <= k < |s + d| ensures !IsComment((s + d)[k]) {
        assert (s + d)[k] in s + d;
      }
      NoCommentKeepsAll(s + d, open, false, false);
    }
  }

  lemma {:induction false} PaddedKept(key: string, a: string, b: string, c: string, s: string, d: string)
    requires PlainKey(key) && Survives(s) && Spaces(a) && Spaces(b) && Spaces(c) && Spaces(d)
    ensures var line := a + key + b + "=" + c + FormatScalar(s) + d; StripComment(line) == line
  {
    var head := a + key + b + "=" + c;
    SpacesArePlain(a);
    SpacesArePlain(b);
    SpacesArePlain(c);
    forall x | x in head ensures !IsQuote(x) && !IsComment(x) {}
    PassesPlain(head, FormatScalar(s) + d, true);
    ScalarKept(s, d, EndsOpen(head, true));
    assert a + key + b + "=" + c + FormatScalar(s) + d == head + (FormatScalar(s) + d);
  }

  lemma {:induction false} PrintedIsTight(s: string)
    requires Survives(s)
    ensures FormatScalar(s) != "" && Tight(FormatScalar(s)) && Unquote(FormatScalar(s)) == s
  {
    if NeedsQuotes(s) {
      EscapeNothing(s);
    } else {
      assert s[0] in s && s[|s| - 1] in s;
    }
    TrimTight(FormatScalar(s));
  }

  lemma {:induction false} ParsesSides(raw: string, left: string, right: string)
    requires Trim(StripComment(raw)) == left + "=" + right && '=' !in left && left != "" && left[0] != '['
    ensures ParseLine(raw) == Entry(Trim(left), Unquote(Trim(right)))
  {
    var line := left + "=" + right;
    FirstEquals(left, right);
    assert line[0] == left[0] && line[..|left|] == left && line[|left| + 1..] == right;
  }

  lemma {:induction false} PaddedTrim(key: string, a: string, b: string, rest: string, v: string, d: string)
    requires PlainKey(key) && Spaces(a) && Spaces(d) && v != "" && Tight(v)
    ensures Trim(a + key + b + "=" + rest + v + d) == key + b + "=" + rest + v
  {
    var line := key + b + "=" + rest + v;
    assert key[0] in key && line[0] == key[0] && line[|line| - 1] == v[|v| - 1];
    assert a + key + b + "=" + rest + v + d == a + line + d;
    TrimPadded(a, line, d);
  }

  lemma {:induction false} TrimSides(key: string, b: string, c: string, v: string)
    requires PlainKey(key) && Spaces(b) && Spaces(c) && v != "" && Tight(v)
    ensures Trim(key + b) == key && Trim(c + v) == v
  {
    assert key[0] in key && key[|key| - 1] in key;
    TrimPadded("", key, b);
    assert "" + key + b == key + b;
    TrimPadded(c, v, "");
    assert c + v + "" == c + v;
  }

  /** White space around the key, the value and the whole line does not matter. */
  lemma {:induction false} PaddedLine(key: string, a: string, b: string, c: string, s: string, d: string)
    requires PlainKey(key) && Survives(s) && Spaces(a) && Spaces(b) && Spaces(c) && Spaces(d)
    ensures ParseLine(a + key + b + "=" + c + FormatScalar(s) + d) == Entry(key, s)
  {
    var v := FormatScalar(s);
    PaddedKept(key, a, b, c, s, d);
    PrintedIsTight(s);
    PaddedTrim(key, a, b, c, v, d);
    SpacesArePlain(b);
    assert key + b + "=" + c + v == (key + b) + "=" + (c + v);
    ParsesSides(a + key + b + "=" + c + v + d, key + b, c + v);
    TrimSides(key, b, c, v);
  }
}
