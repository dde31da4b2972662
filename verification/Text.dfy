/** The string operations that the cookie files rely on. */
module Text {

  predicate IsSpace(c: char) {
    var n := c as int;
    || 9 <= n <= 13 || 28 <= n <= 32 || n == 0x85 || n == 0xA0 || n == 0x1680 || 0x2000 <= n <= 0x200A
    || n == 0x2028 || n == 0x2029 || n == 0x202F || n == 0x205F || n == 0x3000
  }

  /** The characters that end a line. */
  predicate IsBreak(c: char) {
    var n := c as int;
    10 <= n <= 13 || 28 <= n <= 30 || n == 0x85 || n == 0x2028 || n == 0x2029
  }

  predicate NoBreak(s: string) {
    forall i :: 0 <= i < |s| ==> !IsBreak(s[i])
  }

  predicate NoTab(s: string) {
    forall i :: 0 <= i < |s| ==> s[i] != '\t'
  }

  // -- Stripping ---------------------------------------------------------------------

  function LStrip(s: string): string {
    if s != [] && IsSpace(s[0]) then LStrip(s[1..]) else s
  }

  function RStrip(s: string): string {
    if s != [] && IsSpace(s[|s| - 1]) then RStrip(s[..|s| - 1]) else s
  }

  function Strip(s: string): string {
    RStrip(LStrip(s))
  }

  lemma {:induction false} LStripStart(s: string)
    ensures LStrip(s) == [] || !IsSpace(LStrip(s)[0])
  {
    if s != [] && IsSpace(s[0]) {
      LStripStart(s[1..]);
    }
  }

  lemma {:induction false} RStripPrefix(s: string)
    ensures RStrip(s) <= s
    ensures s != [] && !IsSpace(s[0]) ==> RStrip(s) != []
  {
    if s != [] && IsSpace(s[|s| - 1]) {
      RStripPrefix(s[..|s| - 1]);
    }
  }

  /** A stripped string starts with no space. */
  lemma StripStart(s: string)
    ensures Strip(s) == [] || !IsSpace(Strip(s)[0])
  {
    LStripStart(s);
    RStripPrefix(LStrip(s));
  }

  lemma {:induction false} RStripConcat(a: string, b: string)
    ensures RStrip(a + b) == if RStrip(b) == [] then RStrip(a) else a + RStrip(b)
  {
    if b == [] {
      assert a + b == a;
    } else if IsSpace(b[|b| - 1]) {
      assert (a + b)[..|a + b| - 1] == a + b[..|b| - 1];
      RStripConcat(a, b[..|b| - 1]);
    }
  }

  // -- Splitting at tabs -----------------------------------------------------------------

  function Split(s: string): (parts: seq<string>)
    ensures parts != []
  {
    if s == [] then [[]]
    else if s[0] == '\t' then [[]] + Split(s[1..])
    else
      var rest := Split(s[1..]);
      [[s[0]] + rest[0]] + rest[1..]
  }

  function Tabs(s: string): nat {
    if s == [] then 0 else Tabs(s[..|s| - 1]) + if s[|s| - 1] == '\t' then 1 else 0
  }

  lemma {:induction false} TabsConcat(a: string, b: string)
    ensures Tabs(a + b) == Tabs(a) + Tabs(b)
  {
    if b == [] {
      assert a + b == a;
    } else {
      assert (a + b)[..|a + b| - 1] == a + b[..|b| - 1];
      TabsConcat(a, b[..|b| - 1]);
    }
  }

  lemma {:induction false} SplitCountsTabs(s: string)
    ensures |Split(s)| == Tabs(s) + 1
  {
    if s != [] {
      SplitCountsTabs(s[1..]);
      assert s == [s[0]] + s[1..];
      TabsConcat([s[0]], s[1..]);
      assert Tabs([s[0]]) == Tabs([s[0]][..0]) + if s[0] == '\t' then 1 else 0;
    }
  }

  lemma {:induction false} NoTabsCounted(s: string)
    requires NoTab(s)
    ensures Tabs(s) == 0
  {
    if s != [] {
      NoTabsCounted(s[..|s| - 1]);
    }
  }

  lemma {:induction false} RStripKeepsTabs(s: string)
    ensures Tabs(RStrip(s)) <= Tabs(s)
  {
    if s != [] && IsSpace(s[|s| - 1]) {
      RStripKeepsTabs(s[..|s| - 1]);
    }
  }

  lemma {:induction false} SplitWhole(s: string)
    requires NoTab(s)
    ensures Split(s) == [s]
  {
    if s != [] {
      SplitWhole(s[1..]);
      assert [s[0]] + s[1..] == s;
    }
  }

  lemma {:induction false} SplitFirst(a: string, rest: string)
    requires NoTab(a)
    ensures Split(a + "\t" + rest) == [a] + Split(rest)
  {
    var s := a + "\t" + rest;
    if a == [] {
      assert s[1..] == rest;
    } else {
      assert s[1..] == a[1..] + "\t" + rest;
      SplitFirst(a[1..], rest);
      assert [a[0]] + a[1..] == a;
    }
  }

  /** The fields with a tab between each two. */
  function JoinTabs(fields: seq<string>): string
    requires fields != []
  {
    if |fields| == 1 then fields[0] else fields[0] + "\t" + JoinTabs(fields[1..])
  }

  lemma {:induction false} SplitJoined(fields: seq<string>)
    requires fields != [] && forall i :: 0 <= i < |fields| ==> NoTab(fields[i])
    ensures Split(JoinTabs(fields)) == fields
  {
    if |fields| == 1 {
      SplitWhole(fields[0]);
    } else {
      SplitJoined(fields[1..]);
      SplitFirst(fields[0], JoinTabs(fields[1..]));
    }
  }

  lemma {:induction false} TabsJoined(fields: seq<string>)
    requires fields != [] && forall i :: 0 <= i < |fields| ==> NoTab(fields[i])
    ensures Tabs(JoinTabs(fields)) == |fields| - 1
  {
    SplitJoined(fields);
    SplitCountsTabs(JoinTabs(fields));
  }

  /** The last field, and everything before it including its tab. */
  lemma {:induction false} JoinLast(fields: seq<string>) returns (before: string)
    requires |fields| > 1
    ensures JoinTabs(fields) == before + "\t" + fields[|fields| - 1]
    ensures before == JoinTabs(fields[..|fields| - 1])
  {
    before := JoinTabs(fields[..|fields| - 1]);
    if |fields| > 2 {
      var inner := JoinLast(fields[1..]);
      assert fields[1..][..|fields| - 2] == fields[..|fields| - 1][1..];
    }
  }

  lemma {:induction false} JoinNoBreak(fields: seq<string>)
    requires fields != [] && forall i :: 0 <= i < |fields| ==> NoBreak(fields[i])
    ensures NoBreak(JoinTabs(fields))
  {
    if |fields| > 1 {
      JoinNoBreak(fields[1..]);
    }
  }

  // -- Lines -----------------------------------------------------------------------------

  function LineEnd(s: string): (n: nat)
    ensures n <= |s|
    ensures n < |s| ==> IsBreak(s[n])
  {
    if s == [] || IsBreak(s[0]) then 0 else 1 + LineEnd(s[1..])
  }

  function SplitLines(s: string): seq<string>
    decreases |s|
  {
    if s == [] then []
    else
      var n := LineEnd(s);
      if n == |s| then [s]
      else if s[n] == '\r' && n + 1 < |s| && s[n + 1] == '\n' then [s[..n]] + SplitLines(s[n + 2..])
      else [s[..n]] + SplitLines(s[n + 1..])
  }

  function JoinLines(lines: seq<string>): string {
    if lines == [] then "" else if |lines| == 1 then lines[0] else lines[0] + "\n" + JoinLines(lines[1..])
  }

  lemma {:induction false} LineEndAfter(line: string, rest: string)
    requires NoBreak(line)
    ensures LineEnd(line + "\n" + rest) == |line|
  {
    var s := line + "\n" + rest;
    if line != [] {
      assert s[1..] == line[1..] + "\n" + rest;
      LineEndAfter(line[1..], rest);
    }
  }

  /** Splitting a joined list of lines that ends in an empty one gives the others. */
  lemma {:induction false} SplitJoinedLines(lines: seq<string>)
    requires forall i :: 0 <= i < |lines| ==> NoBreak(lines[i])
    ensures SplitLines(JoinLines(lines + [""])) == lines
  {
    if lines == [] {
      assert lines + [""] == [""];
    } else {
      var rest := JoinLines(lines[1..] + [""]);
      assert (lines + [""])[1..] == lines[1..] + [""];
      var s := lines[0] + "\n" + rest;
      LineEndAfter(lines[0], rest);
      assert s[..|lines[0]|] == lines[0] && s[|lines[0]|] == '\n' && s[|lines[0]| + 1..] == rest;
      SplitJoinedLines(lines[1..]);
    }
  }

  // -- Integers --------------------------------------------------------------------------

  predicate IsDigit(c: char) {
    '0' <= c <= '9'
  }

  predicate AllDigits(s: string) {
    s != [] && forall i :: 0 <= i < |s| ==> IsDigit(s[i])
  }

  function ParseNat(s: string): nat
    requires forall i :: 0 <= i < |s| ==> IsDigit(s[i])
  {
    if s == [] then 0
    else
      assert IsDigit(s[|s| - 1]);
      10 * ParseNat(s[..|s| - 1]) + (s[|s| - 1] as int - '0' as int)
  }

  function PrintNat(n: nat): (s: string)
    ensures AllDigits(s)
  {
    var last := ('0' as int + n % 10) as char;
    if n < 10 then [last] else PrintNat(n / 10) + [last]
  }

  function PrintInt(n: int): string {
    if n < 0 then "-" + PrintNat(-n) else PrintNat(n)
  }

  lemma {:induction false} ParsePrintedNat(n: nat)
    ensures ParseNat(PrintNat(n)) == n
  {
    var s := PrintNat(n);
    if n >= 10 {
      ParsePrintedNat(n / 10);
      assert s[..|s| - 1] == PrintNat(n / 10);
    } else {
      assert s[..0] == [];
    }
  }
}
