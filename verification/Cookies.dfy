/** The Netscape cookie file: the printer that saves a browser's cookies and the
parser that loads them back. */
module Cookies {
  import opened Options
  import opened Text

  /** A browser cookie; any key may be missing. */
  datatype BrowserCookie = BrowserCookie(
    domain: Option<string>, path: Option<string>, secure: Option<bool>,
    expires: Option<real>, name: Option<string>, value: Option<string>)

  /** A cookie as the file knows it. */
  datatype Fields = Fields(domain: string, path: string, secure: bool, expiry: int, name: string, value: string)

  /** A cookie as the parser returns it; it is never http-only and always lax. */
  datatype Stored = Stored(name: string, value: string, domain: string, path: string, expires: real, secure: bool)

  // -- The printer -------------------------------------------------------------------------

  /** Conversion to an integer truncates towards zero. */
  function Truncated(x: real): int {
    if x >= 0.0 then x.Floor else -(-x).Floor
  }

  function OrElse<T>(o: Option<T>, default: T): T {
    if o.Some? then o.value else default
  }

  function Resolve(c: BrowserCookie, domainHint: string): Fields {
    Fields(OrElse(c.domain, domainHint), OrElse(c.path, "/"), OrElse(c.secure, false),
           Truncated(OrElse(c.expires, 0.0)), OrElse(c.name, ""), OrElse(c.value, ""))
  }

  function Flag(b: bool): string {
    if b then "TRUE" else "FALSE"
  }

  function Columns(f: Fields): seq<string> {
    [f.domain, Flag(f.domain != [] && f.domain[0] == '.'), f.path, Flag(f.secure), PrintInt(f.expiry), f.name, f.value]
  }

  function CookieLine(f: Fields): string {
    JoinTabs(Columns(f))
  }

  function Header(stamp: string): seq<string> {
    ["# Netscape HTTP Cookie File", "# Auto-exported by chat-to-agent", "# Updated: " + stamp, ""]
  }

  /** The cookies that have a name, in order. */
  function Named(cookies: seq<BrowserCookie>, domainHint: string): seq<Fields> {
    if cookies == [] then []
    else
      var f := Resolve(cookies[|cookies| - 1], domainHint);
      Named(cookies[..|cookies| - 1], domainHint) + if f.name == "" then [] else [f]
  }

  function CookieLines(fs: seq<Fields>): (lines: seq<string>)
    ensures |lines| == |fs| && forall i :: 0 <= i < |fs| ==> lines[i] == CookieLine(fs[i])
  {
    if fs == [] then [] else CookieLines(fs[..|fs| - 1]) + [CookieLine(fs[|fs| - 1])]
  }

  function Print(cookies: seq<BrowserCookie>, domainHint: string, stamp: string): string {
    JoinLines(Header(stamp) + CookieLines(Named(cookies, domainHint)) + [""])
  }

  method CookiesToNetscape(cookies: seq<BrowserCookie>, domainHint: string, stamp: string) returns (text: string)
    ensures text == Print(cookies, domainHint, stamp)
  {
    hide CookieLine, Resolve, JoinLines, Header, Named, CookieLines;
    var lines := Header(stamp);
    PrintedNothing(domainHint);
    for k := 0 to |cookies|
      invariant lines == Header(stamp) + CookieLines(Named(cookies[..k], domainHint))
    {
      assert cookies[..k + 1] == cookies[..k] + [cookies[k]];
      PrintedOneMore(cookies[..k], cookies[k], domainHint);
      var f := Resolve(cookies[k], domainHint);
      if f.name == "" {
        continue;
      }
      lines := lines + [CookieLine(f)];
    }
    assert cookies[..|cookies|] == cookies;
    lines := lines + [""];
    text := JoinLines(lines);
  }

  lemma PrintedNothing(domainHint: string)
    ensures CookieLines(Named([], domainHint)) == []
  {}

  lemma PrintedOneMore(cookies: seq<BrowserCookie>, c: BrowserCookie, domainHint: string)
    ensures CookieLines(Named(cookies + [c], domainHint)) ==
      CookieLines(Named(cookies, domainHint))
      + if Resolve(c, domainHint).name == "" then [] else [CookieLine(Resolve(c, domainHint))]
  {
    hide Resolve, CookieLine;
    assert (cookies + [c])[..|cookies|] == cookies;
    var before, f := Named(cookies, domainHint), Resolve(c, domainHint);
    assert (before + [f])[..|before|] == before;
  }

  // -- The parser --------------------------------------------------------------------------

  predicate Quoted(s: string) {
    s != [] && s[0] == '"' && s[|s| - 1] == '"'
  }

  function Unquoted(s: string): string {
    if !Quoted(s) then s else if |s| == 1 then [] else s[1..|s| - 1]
  }

  /** Upper-casing gives TRUE. */
  predicate IsTrue(s: string) {
    |s| == 4 && s[0] in "Tt" && s[1] in "Rr" && s[2] in "Uu" && s[3] in "Ee"
  }

  /** A positive integer, or else -1. */
  function Expiry(s: string): real {
    if AllDigits(s) && ParseNat(s) > 0 then ParseNat(s) as real else -1.0
  }

  function ParseLine(line: string): Option<Stored> {
    var s := Strip(line);
    if s == [] || s[0] == '#' then None
    else
      var parts := Split(s);
      if |parts| < 7 then None
      else Some(Stored(parts[5], Unquoted(parts[6]), parts[0], parts[2], Expiry(parts[4]), IsTrue(parts[3])))
  }

  type Key = (string, string, string)

  function KeyOf(c: Stored): Key {
    (c.domain, c.name, c.path)
  }

  /** The cookies of all lines that have one, in order. */
  function Entries(lines: seq<string>): seq<Stored> {
    if lines == [] then []
    else
      Entries(lines[..|lines| - 1])
      + match ParseLine(lines[|lines| - 1]) case None => [] case Some(c) => [c]
  }

  function Keys(cs: seq<Stored>): set<Key> {
    set i | 0 <= i < |cs| :: KeyOf(cs[i])
  }

  /** The first cookie of each key, in order. */
  function FirstOfEachKey(cs: seq<Stored>): seq<Stored> {
    if cs == [] then []
    else
      var before := cs[..|cs| - 1];
      FirstOfEachKey(before) + if KeyOf(cs[|cs| - 1]) in Keys(before) then [] else [cs[|cs| - 1]]
  }

  function Overridden(cs: seq<Stored>, domainOverride: string): seq<Stored> {
    if domainOverride == "" then cs
    else seq(|cs|, i requires 0 <= i < |cs| => cs[i].(domain := domainOverride))
  }

  function Parse(text: string, domainOverride: string): seq<Stored> {
    Overridden(FirstOfEachKey(Entries(SplitLines(text))), domainOverride)
  }

  lemma KeysOneMore(cs: seq<Stored>, c: Stored)
    ensures Keys(cs + [c]) == Keys(cs) + {KeyOf(c)}
  {
    var more := cs + [c];
    assert more[|cs|] == c;
    forall k | k in Keys(cs)
      ensures k in Keys(more)
    {
      var i :| 0 <= i < |cs| && KeyOf(cs[i]) == k;
      assert more[i] == cs[i];
    }
    forall k | k in Keys(more)
      ensures k in Keys(cs) + {KeyOf(c)}
    {
      var i :| 0 <= i < |more| && KeyOf(more[i]) == k;
      if i < |cs| {
        assert more[i] == cs[i];
      }
    }
  }

  lemma FirstOneMore(cs: seq<Stored>, c: Stored, domainOverride: string)
    ensures FirstOfEachKey(cs + [c]) == if KeyOf(c) in Keys(cs) then FirstOfEachKey(cs) else FirstOfEachKey(cs) + [c]
    ensures KeyOf(c) !in Keys(cs) ==> (
      Overridden(FirstOfEachKey(cs + [c]), domainOverride)
      == Overridden(FirstOfEachKey(cs), domainOverride)
         + [if domainOverride == "" then c else c.(domain := domainOverride)])
  {
    hide Keys, KeyOf, Overridden;
    assert (cs + [c])[..|cs|] == cs;
    OverriddenOneMore(FirstOfEachKey(cs), c, domainOverride);
  }

  lemma OverriddenOneMore(cs: seq<Stored>, c: Stored, domainOverride: string)
    ensures Overridden(cs + [c], domainOverride) ==
      Overridden(cs, domainOverride) + [if domainOverride == "" then c else c.(domain := domainOverride)]
  {}

  method NetscapeToCookies(text: string, domainOverride: string) returns (cookies: seq<Stored>)
    ensures cookies == Parse(text, domainOverride)
  {
    hide Strip, Split, Unquoted, IsTrue, Expiry, SplitLines, Entries, Keys, FirstOfEachKey, Overridden;
    NothingParsed(domainOverride);
    cookies := [];
    var seen: set<Key> := {};
    var lines := SplitLines(text);
    for k := 0 to |lines|
      invariant seen == Keys(Entries(lines[..k]))
      invariant cookies == Overridden(FirstOfEachKey(Entries(lines[..k])), domainOverride)
    {
      assert lines[..k + 1] == lines[..k] + [lines[k]];
      EntriesOneMore(lines[..k], lines[k]);
      var line := Strip(lines[k]);
      if line == [] || line[0] == '#' {
        continue;
      }
      var parts := Split(line);
      if |parts| < 7 {
        continue;
      }
      var domain, path, name := parts[0], parts[2], parts[5];
      var value := Unquoted(parts[6]);
      var secure := IsTrue(parts[3]);
      var expires := Expiry(parts[4]);
      ghost var entry := Stored(name, value, domain, path, expires, secure);
      KeysOneMore(Entries(lines[..k]), entry);
      FirstOneMore(Entries(lines[..k]), entry, domainOverride);
      var key := (domain, name, path);
      if key in seen {
        continue;
      }
      seen := seen + {key};
      if domainOverride != "" {
        domain := domainOverride;
      }
      cookies := cookies + [Stored(name, value, domain, path, expires, secure)];
    }
    assert lines[..|lines|] == lines;
  }

  lemma NothingParsed(domainOverride: string)
    ensures Entries([]) == [] && Keys([]) == {} && Overridden(FirstOfEachKey([]), domainOverride) == []
  {}

  lemma EntriesOneMore(lines: seq<string>, line: string)
    ensures Entries(lines + [line]) ==
      if ParseLine(line).None? then Entries(lines) else Entries(lines) + [ParseLine(line).value]
  {
    hide ParseLine;
    assert (lines + [line])[..|lines|] == lines;
  }

  /** What first-wins means: keys are unique, none is lost, and each cookie kept is the
  first one of its key. */
  lemma {:induction false} FirstWins(cs: seq<Stored>)
    ensures Keys(FirstOfEachKey(cs)) == Keys(cs)
    ensures forall i, j :: 0 <= i < j < |FirstOfEachKey(cs)| ==>
      KeyOf(FirstOfEachKey(cs)[i]) != KeyOf(FirstOfEachKey(cs)[j])
    ensures forall c :: c in FirstOfEachKey(cs) <==> exists i :: FirstAt(cs, i, c)
  {
    if cs != [] {
      hide Keys, KeyOf, FirstAt, FirstOfEachKey;
      var before, c := cs[..|cs| - 1], cs[|cs| - 1];
      var kept := FirstOfEachKey(before);
      FirstWins(before);
      assert before + [c] == cs;
      KeysOneMore(before, c);
      KeysOneMore(kept, c);
      FirstOneMore(before, c, "");
      assert Keys(FirstOfEachKey(cs)) == Keys(cs);
      forall i | 0 <= i < |kept|
        ensures KeyOf(kept[i]) in Keys(before)
      {
        KeyIsListed(kept, i);
      }
      forall d
        ensures d in FirstOfEachKey(cs) <==> exists i :: FirstAt(cs, i, d)
      {
        FirstAtOneMore(before, c, d);
      }
    }
  }

  lemma KeyIsListed(cs: seq<Stored>, i: nat)
    requires i < |cs|
    ensures KeyOf(cs[i]) in Keys(cs)
  {}

  /** `c` stands at `i`, and nothing before it has its key. */
  predicate FirstAt(cs: seq<Stored>, i: int, c: Stored) {
    0 <= i < |cs| && cs[i] == c && KeyOf(c) !in Keys(cs[..i])
  }

  lemma FirstAtOneMore(before: seq<Stored>, c: Stored, d: Stored)
    ensures (exists i :: FirstAt(before + [c], i, d)) <==>
      (exists i :: FirstAt(before, i, d)) || (d == c && KeyOf(c) !in Keys(before))
  {
    var cs := before + [c];
    if i :| FirstAt(cs, i, d) {
      if i < |before| {
        assert cs[..i] == before[..i];
        assert FirstAt(before, i, d);
      } else {
        assert cs[..i] == before;
      }
    }
    if i :| FirstAt(before, i, d) {
      assert cs[..i] == before[..i];
      assert FirstAt(cs, i, d);
    }
    if d == c && KeyOf(c) !in Keys(before) {
      assert cs[..|before|] == before;
      assert FirstAt(cs, |before|, d);
    }
  }

  // -- Round trip ----------------------------------------------------------------------------

  /** Fields that a line can hold at all: no tab and no line break inside. */
  predicate Clean(f: Fields) {
    && NoTab(f.domain) && NoTab(f.path) && NoTab(f.name) && NoTab(f.value)
    && NoBreak(f.domain) && NoBreak(f.path) && NoBreak(f.name) && NoBreak(f.value)
  }

  /** What the parser is meant to give back. */
  function Expected(f: Fields): Stored {
    Stored(f.name, f.value, f.domain, f.path, if f.expiry > 0 then f.expiry as real else -1.0, f.secure)
  }

  /** What a caller can check: the domain starts with neither a space nor '#', and the
  value ends in no space and is not in double quotes; neither is empty. */
  predicate Survives(f: Fields) {
    && f.domain != [] && !IsSpace(f.domain[0]) && f.domain[0] != '#'
    && f.value != [] && !IsSpace(f.value[|f.value| - 1])
    && !Quoted(f.value)
  }

  lemma PrintedExpiry(n: int)
    ensures Expiry(PrintInt(n)) == if n > 0 then n as real else -1.0
    ensures NoTab(PrintInt(n)) && NoBreak(PrintInt(n))
  {
    if n >= 0 {
      ParsePrintedNat(n);
    } else {
      assert PrintInt(n)[0] == '-';
    }
  }

  lemma ColumnsAreClean(f: Fields)
    requires Clean(f)
    ensures forall i :: 0 <= i < 7 ==> NoTab(Columns(f)[i]) && NoBreak(Columns(f)[i])
  {
    PrintedExpiry(f.expiry);
  }

  /** Stripping a cookie line reaches into the value, or, if that is blank, further. */
  lemma StrippedLine(f: Fields)
    requires Clean(f) && f.domain != [] && !IsSpace(f.domain[0])
    ensures RStrip(f.value) != [] ==> Strip(CookieLine(f)) == CookieLine(f.(value := RStrip(f.value)))
    ensures RStrip(f.value) == [] ==> Tabs(Strip(CookieLine(f))) <= 5
  {
    var line, columns := CookieLine(f), Columns(f);
    ColumnsAreClean(f);
    assert line[0] == f.domain[0];
    assert LStrip(line) == line;
    var before := JoinLast(columns);
    RStripConcat(before + "\t", f.value);
    if RStrip(f.value) == [] {
      assert (before + "\t")[..|before|] == before;
      assert RStrip(before + "\t") == RStrip(before);
      TabsJoined(columns[..6]);
      RStripKeepsTabs(before);
    } else {
      var trimmed := Columns(f.(value := RStrip(f.value)));
      var before' := JoinLast(trimmed);
      assert trimmed[..6] == columns[..6];
      assert before + "\t" + RStrip(f.value) == (before + "\t") + RStrip(f.value);
    }
  }

  lemma ParsedLine(f: Fields)
    requires Clean(f) && f.domain != [] && !IsSpace(f.domain[0]) && RStrip(f.value) == f.value != []
    ensures ParseLine(CookieLine(f)) ==
      if f.domain[0] == '#' then None else Some(Expected(f).(value := Unquoted(f.value)))
  {
    StrippedLine(f);
    ColumnsAreClean(f);
    SplitJoined(Columns(f));
    PrintedExpiry(f.expiry);
    assert CookieLine(f)[0] == f.domain[0];
  }

  lemma {:induction false} RStripWithoutTabs(s: string)
    requires NoTab(s) && NoBreak(s)
    ensures NoTab(RStrip(s)) && NoBreak(RStrip(s)) && RStrip(RStrip(s)) == RStrip(s) && |RStrip(s)| <= |s|
    ensures RStrip(s) == s <==> s == [] || !IsSpace(s[|s| - 1])
  {
    if s != [] && IsSpace(s[|s| - 1]) {
      RStripWithoutTabs(s[..|s| - 1]);
    }
  }

  /** Whatever a line yields, its domain starts with neither a space nor '#'. */
  lemma ParsedDomain(line: string)
    requires ParseLine(line).Some?
    ensures var d := ParseLine(line).value.domain; d != [] && !IsSpace(d[0]) && d[0] != '#'
  {
    var s := Strip(line);
    StripStart(line);
    assert s[0] != '\t';
    assert Split(s)[0][0] == s[0];
  }

  /** A cookie whose value is empty or blank is saved, but not loaded back. */
  lemma BlankValueIsLost(f: Fields)
    requires Clean(f) && f.domain != [] && !IsSpace(f.domain[0]) && RStrip(f.value) == []
    ensures ParseLine(CookieLine(f)) == None
  {
    StrippedLine(f);
    SplitCountsTabs(Strip(CookieLine(f)));
  }

  /** A printed cookie parses back to itself if and only if it survives. */
  lemma LineRoundTrip(f: Fields)
    requires Clean(f)
    ensures ParseLine(CookieLine(f)) == Some(Expected(f)) <==> Survives(f)
  {
    hide Strip, LStrip, RStrip, CookieLine, Tabs;
    RStripWithoutTabs(f.value);
    if f.domain == [] || IsSpace(f.domain[0]) {
      if ParseLine(CookieLine(f)).Some? {
        ParsedDomain(CookieLine(f));
      }
    } else if RStrip(f.value) == [] {
      BlankValueIsLost(f);
    } else {
      var g := f.(value := RStrip(f.value));
      StrippedLine(f);
      StrippedLine(g);
      assert ParseLine(CookieLine(f)) == ParseLine(CookieLine(g));
      ParsedLine(g);
      RStripPrefix(f.value);
      assert Unquoted(g.value) == f.value <==> !Quoted(g.value) && g.value == f.value by {
        if Unquoted(g.value) == f.value {
          assert |g.value| <= |f.value| && |Unquoted(g.value)| <= |g.value|;
        }
      }
    }
  }

  lemma HeaderHasNoCookies(stamp: string)
    ensures Entries(Header(stamp)) == []
  {
    var h := Header(stamp);
    CommentLine("# Netscape HTTP Cookie File");
    CommentLine("# Auto-exported by chat-to-agent");
    CommentLine("# Updated: " + stamp);
    assert Strip("") == [];
    assert h[..4] == h && h[..3][..2] == h[..2] && h[..2][..1] == h[..1] && h[..1][..0] == [];
    assert h[..1] == [h[0]] && h[..2][1] == h[1] && h[..3][2] == h[2];
    assert Entries(h[..1]) == [];
    assert Entries(h[..2]) == [];
    assert Entries(h[..3]) == [];
  }

  lemma CommentLine(line: string)
    requires line != [] && line[0] == '#'
    ensures ParseLine(line) == None
  {
    RStripPrefix(line);
    assert LStrip(line) == line;
  }

  function ExpectedAll(fs: seq<Fields>): seq<Stored> {
    if fs == [] then [] else ExpectedAll(fs[..|fs| - 1]) + [Expected(fs[|fs| - 1])]
  }

  lemma {:induction false} EntriesOfPrinted(header: seq<string>, fs: seq<Fields>)
    requires Entries(header) == []
    requires forall i :: 0 <= i < |fs| ==> Clean(fs[i]) && Survives(fs[i])
    ensures Entries(header + CookieLines(fs)) == ExpectedAll(fs)
  {
    hide ParseLine, CookieLine, Clean, Survives, Expected;
    if fs == [] {
      assert header + CookieLines(fs) == header;
    } else {
      var before, f := fs[..|fs| - 1], fs[|fs| - 1];
      EntriesOfPrinted(header, before);
      assert header + CookieLines(fs) == (header + CookieLines(before)) + [CookieLine(f)];
      EntriesOneMore(header + CookieLines(before), CookieLine(f));
      LineRoundTrip(f);
    }
  }

  /** Loading a saved file gives back every named cookie, in order, first-wins on
  domain, name and path. */
  lemma RoundTrip(cookies: seq<BrowserCookie>, domainHint: string, stamp: string)
    requires NoBreak(stamp)
    requires forall f :: f in Named(cookies, domainHint) ==> Clean(f) && Survives(f)
    ensures Parse(Print(cookies, domainHint, stamp), "") == FirstOfEachKey(ExpectedAll(Named(cookies, domainHint)))
  {
    var fs := Named(cookies, domainHint);
    var lines := Header(stamp) + CookieLines(fs);
    LinesHaveNoBreak(fs, stamp);
    hide Clean, Survives, SplitLines, JoinLines, Header, ParseLine;
    SplitJoinedLines(lines);
    HeaderHasNoCookies(stamp);
    EntriesOfPrinted(Header(stamp), fs);
  }

  lemma LinesHaveNoBreak(fs: seq<Fields>, stamp: string)
    requires NoBreak(stamp) && forall f :: f in fs ==> Clean(f)
    ensures forall i :: 0 <= i < |Header(stamp) + CookieLines(fs)| ==> NoBreak((Header(stamp) + CookieLines(fs))[i])
  {
    hide CookieLine;
    var lines := Header(stamp) + CookieLines(fs);
    forall i | 0 <= i < |lines|
      ensures NoBreak(lines[i])
    {
      if i >= 4 {
        assert fs[i - 4] in fs;
        assert lines[i] == CookieLine(fs[i - 4]);
        CookieLineHasNoBreak(fs[i - 4]);
      }
    }
  }

  lemma CookieLineHasNoBreak(f: Fields)
    requires Clean(f)
    ensures NoBreak(CookieLine(f))
  {
    ColumnsAreClean(f);
    JoinNoBreak(Columns(f));
  }

  // -- The format, and what one cookie goes through ------------------------------------------------

  /** A printed line has seven columns. The second tells domains that start with a dot, the
  fourth secure cookies. */
  lemma PrintedColumns(f: Fields)
    requires Clean(f)
    ensures var parts := Split(CookieLine(f));
      && |parts| == 7
      && parts[0] == f.domain && parts[2] == f.path && parts[5] == f.name && parts[6] == f.value
      && parts[1] == (if "." <= f.domain then "TRUE" else "FALSE")
      && parts[3] == (if f.secure then "TRUE" else "FALSE")
      && (f.expiry >= 0 ==> AllDigits(parts[4]) && ParseNat(parts[4]) == f.expiry)
  {
    ColumnsAreClean(f);
    SplitJoined(Columns(f));
    if f.expiry >= 0 {
      ParsePrintedNat(f.expiry);
    }
  }

  function AsciiUpper(c: char): char {
    if 'a' <= c <= 'z' then (c as int - 32) as char else c
  }

  /** Any line of at least seven columns that starts with neither a space nor '#' and ends in no
  space is a cookie, whatever is in its second column and after the seventh. */
  lemma ParsedColumns(columns: seq<string>)
    requires |columns| >= 7 && forall i :: 0 <= i < |columns| ==> NoTab(columns[i])
    requires columns[0] != "" && !IsSpace(columns[0][0]) && columns[0][0] != '#'
    requires var last := columns[|columns| - 1]; last != "" && !IsSpace(last[|last| - 1])
    ensures var c := ParseLine(JoinTabs(columns));
      && c.Some?
      && c.value.name == columns[5] && c.value.domain == columns[0] && c.value.path == columns[2]
      && (c.value.secure <==> |columns[3]| == 4 && forall i :: 0 <= i < 4 ==> AsciiUpper(columns[3][i]) == "TRUE"[i])
      && (forall v :: columns[6] == "\"" + v + "\"" ==> c.value.value == v)
      && (columns[6] != "" && columns[6][0] != '"' ==> c.value.value == columns[6])
  {
    var line := JoinTabs(columns);
    SplitJoined(columns);
    StrippedColumns(columns);
    assert line[0] == columns[0][0];
    TrueIff(columns[3]);
    forall v | columns[6] == "\"" + v + "\""
      ensures Unquoted(columns[6]) == v
    {
      Unquotes(v);
    }
  }

  lemma StrippedColumns(columns: seq<string>)
    requires |columns| >= 7 && columns[0] != "" && !IsSpace(columns[0][0])
    requires var last := columns[|columns| - 1]; last != "" && !IsSpace(last[|last| - 1])
    ensures Strip(JoinTabs(columns)) == JoinTabs(columns)
  {
    var line, last := JoinTabs(columns), columns[|columns| - 1];
    assert line[0] == columns[0][0];
    assert LStrip(line) == line;
    var before := JoinLast(columns);
    RStripConcat(before + "\t", last);
    assert RStrip(last) == last;
  }

  lemma Unquotes(v: string)
    ensures Unquoted("\"" + v + "\"") == v
  {
    var s := "\"" + v + "\"";
    assert s[|s| - 1] == '"' && s[1..|s| - 1] == v;
  }

  lemma TrueIff(s: string)
    ensures IsTrue(s) <==> |s| == 4 && forall i :: 0 <= i < 4 ==> AsciiUpper(s[i]) == "TRUE"[i]
  {
    if |s| == 4 {
      forall i | 0 <= i < 4
        ensures AsciiUpper(s[i]) == 'T' <==> s[i] in "Tt"
        ensures AsciiUpper(s[i]) == 'R' <==> s[i] in "Rr"
        ensures AsciiUpper(s[i]) == 'U' <==> s[i] in "Uu"
        ensures AsciiUpper(s[i]) == 'E' <==> s[i] in "Ee"
      {}
      assert "TRUE"[0] == 'T' && "TRUE"[1] == 'R' && "TRUE"[2] == 'U' && "TRUE"[3] == 'E';
    }
  }

  /** What a browser cookie is after saving and loading: with the hinted domain, the root path
  and not secure if it does not say, its expiry cut to a whole number, and -1 unless that is
  positive. One without a name is gone. */
  lemma SavedAndLoaded(c: BrowserCookie, domainHint: string, stamp: string)
    requires NoBreak(stamp)
    requires c.name.Some? && c.name.value != "" ==> Clean(Resolve(c, domainHint)) && Survives(Resolve(c, domainHint))
    ensures Parse(Print([c], domainHint, stamp), "") ==
      if c.name == None || c.name == Some("") then []
      else [Stored(
        c.name.value,
        if c.value == None then "" else c.value.value,
        if c.domain == None then domainHint else c.domain.value,
        if c.path == None then "/" else c.path.value,
        if c.expires.Some? && c.expires.value >= 1.0 then c.expires.value.Floor as real else -1.0,
        c.secure == Some(true))]
  {
    var f := Resolve(c, domainHint);
    assert [c][..0] == [] && [f][..0] == [] && [Expected(f)][..0] == [];
    assert Named([c], domainHint) == if f.name == "" then [] else [f];
    hide Parse, Print, Clean, Survives;
    RoundTrip([c], domainHint, stamp);
    if f.name == "" {
      assert FirstOfEachKey(ExpectedAll([])) == [];
    } else {
      assert ExpectedAll([f]) == [Expected(f)];
      assert FirstOfEachKey([Expected(f)]) == [Expected(f)];
    }
  }

  /** Loading for another domain gives the same cookies with that domain. */
  lemma OverrideChangesDomainsOnly(text: string, domain: string)
    requires domain != ""
    ensures var own, other := Parse(text, ""), Parse(text, domain);
      && |other| == |own|
      && forall i :: 0 <= i < |own| ==> other[i] == own[i].(domain := domain)
  {
    hide SplitLines, Entries, FirstOfEachKey;
  }
}
