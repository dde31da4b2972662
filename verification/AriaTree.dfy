/** The indentation-stack parser that turns an aria snapshot into a tree of nodes.

A line is already reduced to its indentation, the node it describes and whether it
ends with a colon; the text inside a line is not modelled. */
module AriaTree {

  datatype Line = Blank | Entry(indent: nat, tag: string, opens: bool)

  datatype Tree = Node(tag: string, children: seq<Tree>)

  const ROOT: string := "WebArea"

  // -- The parser on values ----------------------------------------------------------

  /** The open nodes, innermost first, each with its children so far except the open
  one. */
  datatype Stack = Root(children: seq<Tree>) | Open(indent: nat, tag: string, children: seq<Tree>, below: Stack)

  const START: Stack := Root([])

  function Indent(s: Stack): int {
    if s.Root? then -1 else s.indent
  }

  function Depth(s: Stack): nat {
    if s.Root? then 0 else 1 + Depth(s.below)
  }

  function AttachAll(s: Stack, ts: seq<Tree>): (r: Stack)
    ensures Depth(r) == Depth(s) && Indent(r) == Indent(s)
  {
    s.(children := s.children + ts)
  }

  /** Closes the innermost open node. */
  function Pop(s: Stack): (r: Stack)
    requires s.Open?
    ensures Depth(r) < Depth(s)
  {
    AttachAll(s.below, [Node(s.tag, s.children)])
  }

  /** Closes the open nodes that are indented at least as far as `indent`. */
  function PopTo(s: Stack, indent: nat): (r: Stack)
    ensures Indent(r) < indent
    decreases Depth(s)
  {
    if Indent(s) >= indent then PopTo(Pop(s), indent) else s
  }

  function Step(s: Stack, line: Line): Stack {
    match line
    case Blank => s
    case Entry(indent, tag, opens) =>
      if opens then Open(indent, tag, [], PopTo(s, indent)) else AttachAll(PopTo(s, indent), [Node(tag, [])])
  }

  function Fold(s: Stack, lines: seq<Line>): Stack
    decreases |lines|
  {
    if lines == [] then s else Fold(Step(s, lines[0]), lines[1..])
  }

  function Close(s: Stack): Tree
    decreases Depth(s)
  {
    if s.Root? then Node(ROOT, s.children) else Close(Pop(s))
  }

  function Parse(lines: seq<Line>): Tree {
    Close(Fold(START, lines))
  }

  lemma {:induction false} FoldConcat(s: Stack, a: seq<Line>, b: seq<Line>)
    ensures Fold(s, a + b) == Fold(Fold(s, a), b)
    decreases |a|
  {
    if a == [] {
      assert a + b == b;
    } else {
      assert (a + b)[1..] == a[1..] + b;
      FoldConcat(Step(s, a[0]), a[1..], b);
    }
  }

  lemma FoldOneMore(s: Stack, lines: seq<Line>, line: Line)
    ensures Fold(s, lines + [line]) == Step(Fold(s, lines), line)
  {
    FoldConcat(s, lines, [line]);
  }

  // -- Preorder ------------------------------------------------------------------------

  function Preorder(t: Tree): seq<string>
    decreases t, 0
  {
    [t.tag] + PreorderAll(t.children)
  }

  function PreorderAll(ts: seq<Tree>): seq<string>
    decreases ts, 1
  {
    if ts == [] then [] else PreorderAll(ts[..|ts| - 1]) + Preorder(ts[|ts| - 1])
  }

  /** The nodes that the non-blank lines describe. */
  function Tags(lines: seq<Line>): seq<string> {
    if lines == [] then []
    else (if lines[0].Blank? then [] else [lines[0].tag]) + Tags(lines[1..])
  }

  /** The preorder of everything on the stack. */
  function StackOrder(s: Stack): seq<string> {
    (if s.Root? then [ROOT] else StackOrder(s.below) + [s.tag]) + PreorderAll(s.children)
  }

  lemma AttachOrder(s: Stack, t: Tree)
    ensures StackOrder(AttachAll(s, [t])) == StackOrder(s) + Preorder(t)
  {
    var children := s.children + [t];
    assert children[..|children| - 1] == s.children;
    assert PreorderAll(children) == PreorderAll(s.children) + Preorder(t);
  }

  lemma PopOrder(s: Stack)
    requires s.Open?
    ensures StackOrder(Pop(s)) == StackOrder(s)
  {
    hide PreorderAll;
    AttachOrder(s.below, Node(s.tag, s.children));
  }

  lemma {:induction false} PopToOrder(s: Stack, indent: nat)
    ensures StackOrder(PopTo(s, indent)) == StackOrder(s)
    decreases Depth(s)
  {
    hide StackOrder;
    if Indent(s) >= indent {
      PopOrder(s);
      PopToOrder(Pop(s), indent);
    }
  }

  lemma {:induction false} CloseOrder(s: Stack)
    ensures Preorder(Close(s)) == StackOrder(s)
    decreases Depth(s)
  {
    if s.Open? {
      PopOrder(s);
      CloseOrder(Pop(s));
    }
  }

  lemma {:induction false} FoldOrder(s: Stack, lines: seq<Line>)
    ensures StackOrder(Fold(s, lines)) == StackOrder(s) + Tags(lines)
    decreases |lines|
  {
    if lines != [] {
      hide StackOrder, Step;
      FoldOrder(Step(s, lines[0]), lines[1..]);
      StepOrder(s, lines[0]);
    }
  }

  lemma StepOrder(s: Stack, line: Line)
    ensures StackOrder(Step(s, line)) == StackOrder(s) + if line.Blank? then [] else [line.tag]
  {
    if line.Entry? {
      var below := PopTo(s, line.indent);
      PopToOrder(s, line.indent);
      AttachOrder(below, Node(line.tag, []));
    }
  }

  /** The tree lists exactly the non-blank lines, in order: nothing is lost, added or
  moved, whatever the indentation. */
  lemma PreorderIsTheLines(lines: seq<Line>)
    ensures Preorder(Parse(lines)) == [ROOT] + Tags(lines)
  {
    FoldOrder(START, lines);
    CloseOrder(Fold(START, lines));
  }

  // -- Nesting ---------------------------------------------------------------------------

  /** Line `j` ends with a colon, and every later entry is indented further. */
  predicate Live(lines: seq<Line>, j: nat)
    requires j < |lines|
  {
    && lines[j].Entry? && lines[j].opens
    && forall m :: j < m < |lines| && lines[m].Entry? ==> lines[m].indent > lines[j].indent
  }

  /** Indentation and tag of an open node. */
  type Mark = (int, string)

  /** The live lines among the first `n`, in order. */
  function LiveLines(lines: seq<Line>, n: nat): seq<Mark>
    requires n <= |lines|
  {
    if n == 0 then []
    else if Live(lines, n - 1) then LiveLines(lines, n - 1) + [(lines[n - 1].indent as int, lines[n - 1].tag)]
    else LiveLines(lines, n - 1)
  }

  /** What of the stack is visible from outside, outermost first. */
  function Outline(s: Stack): seq<Mark> {
    if s.Root? then [] else Outline(s.below) + [(s.indent as int, s.tag)]
  }

  /** The part of an outline that is indented less than `indent`. */
  function Shallower(o: seq<Mark>, indent: int): seq<Mark> {
    if o == [] then []
    else if o[|o| - 1].0 < indent then Shallower(o[..|o| - 1], indent) + [o[|o| - 1]]
    else Shallower(o[..|o| - 1], indent)
  }

  /** Each open node is indented further than the one below it. */
  predicate StrictlyIndented(s: Stack) {
    s.Open? ==> Indent(s.below) < s.indent && StrictlyIndented(s.below)
  }

  lemma ShallowerOneMore(o: seq<Mark>, last: Mark, indent: int)
    ensures Shallower(o + [last], indent) ==
      if last.0 < indent then Shallower(o, indent) + [last] else Shallower(o, indent)
  {
    assert (o + [last])[..|o|] == o;
  }

  lemma {:induction false} AllShallower(s: Stack, indent: nat)
    requires StrictlyIndented(s) && Indent(s) < indent
    ensures Shallower(Outline(s), indent) == Outline(s)
  {
    if s.Open? {
      AllShallower(s.below, indent);
      ShallowerOneMore(Outline(s.below), (s.indent as int, s.tag), indent);
    }
  }

  /** On strictly increasing indentations, popping from the end is the same as keeping
  what is shallower. */
  lemma {:induction false} PopToIsShallower(s: Stack, indent: nat)
    requires StrictlyIndented(s)
    ensures Outline(PopTo(s, indent)) == Shallower(Outline(s), indent) && StrictlyIndented(PopTo(s, indent))
    decreases Depth(s)
  {
    if Indent(s) >= indent {
      assert Outline(Pop(s)) == Outline(s.below) && StrictlyIndented(Pop(s));
      PopToIsShallower(Pop(s), indent);
      ShallowerOneMore(Outline(s.below), (s.indent as int, s.tag), indent);
    } else {
      AllShallower(s, indent);
    }
  }

  /** One more entry keeps alive exactly the shallower live lines. */
  lemma {:induction false} LiveAfterOneMore(lines: seq<Line>, line: Line, n: nat)
    requires n <= |lines| && line.Entry?
    ensures LiveLines(lines + [line], n) == Shallower(LiveLines(lines, n), line.indent)
  {
    if n > 0 {
      hide Live, Shallower;
      LiveAfterOneMore(lines, line, n - 1);
      StaysLive(lines, line, n - 1);
      if Live(lines, n - 1) {
        ShallowerOneMore(LiveLines(lines, n - 1), (lines[n - 1].indent as int, lines[n - 1].tag), line.indent);
      }
    }
  }

  lemma StaysLive(lines: seq<Line>, line: Line, j: nat)
    requires j < |lines| && line.Entry?
    ensures (lines + [line])[j] == lines[j]
    ensures Live(lines, j) ==> lines[j].Entry?
    ensures Live(lines + [line], j) <==> Live(lines, j) && lines[j].indent < line.indent
  {
    var longer := lines + [line];
    assert longer[|lines|] == line;
    assert forall m :: 0 <= m < |lines| ==> longer[m] == lines[m];
  }

  lemma {:induction false} BlankKeepsLive(lines: seq<Line>, n: nat)
    requires n <= |lines|
    ensures LiveLines(lines + [Blank], n) == LiveLines(lines, n)
  {
    if n > 0 {
      BlankKeepsLive(lines, n - 1);
      assert Live(lines + [Blank], n - 1) <==> Live(lines, n - 1) by {
        assert forall m :: 0 <= m < |lines| ==> (lines + [Blank])[m] == lines[m];
      }
    }
  }

  /** After any lines, the stack is strictly indented and the nodes open on it are
  exactly the live lines. So a line's parent is the nearest earlier line with a colon
  such that it and all entries between are indented further, or else the root. */
  lemma {:induction false} StackIsTheLiveLines(lines: seq<Line>)
    ensures Outline(Fold(START, lines)) == LiveLines(lines, |lines|)
    ensures StrictlyIndented(Fold(START, lines))
  {
    if lines != [] {
      var before, line := lines[..|lines| - 1], lines[|lines| - 1];
      StackIsTheLiveLines(before);
      assert before + [line] == lines;
      FoldOneMore(START, before, line);
      if line.Blank? {
        BlankKeepsLive(before, |before|);
      } else {
        hide Shallower, PopTo;
        var s := Fold(START, before);
        PopToIsShallower(s, line.indent);
        LiveAfterOneMore(before, line, |before|);
        assert Live(lines, |before|) <==> line.opens;
      }
    }
  }

  // -- Round trip --------------------------------------------------------------------------

  /** Prints a tree at depth `d`, each level `width` further in, with a colon on inner
  nodes and, if `colons`, on leaves too. */
  function Print(t: Tree, d: nat, width: nat, colons: bool): seq<Line>
    decreases t, 0
  {
    [Entry(d, t.tag, colons || t.children != [])] + PrintAll(t.children, d + width, width, colons)
  }

  function PrintAll(ts: seq<Tree>, d: nat, width: nat, colons: bool): seq<Line>
    decreases ts, 1
  {
    if ts == [] then [] else Print(ts[0], d, width, colons) + PrintAll(ts[1..], d, width, colons)
  }

  lemma {:induction false} PopToTwice(s: Stack, deep: nat, shallow: nat)
    requires shallow <= deep
    ensures PopTo(PopTo(s, deep), shallow) == PopTo(s, shallow)
    decreases Depth(s)
  {
    if Indent(s) >= deep {
      PopToTwice(Pop(s), deep, shallow);
    }
  }

  /** Folding lines that start at indentation `d` closes down to `d` first. */
  lemma FoldPopsFirst(s: Stack, lines: seq<Line>)
    requires lines != [] && lines[0].Entry?
    ensures Fold(s, lines) == Fold(PopTo(s, lines[0].indent), lines)
  {
    PopToTwice(s, lines[0].indent, lines[0].indent);
  }

  /** Closing a node that has received all its children attaches it below. */
  lemma FillTop(s: Stack, d: nat, t: Tree)
    requires Indent(s) < d
    ensures PopTo(AttachAll(Open(d, t.tag, [], s), t.children), d) == AttachAll(s, [t])
  {
    assert AttachAll(Open(d, t.tag, [], s), t.children) == Open(d, t.tag, t.children, s);
  }

  lemma {:induction false} PrintedTreeIsAttached(s: Stack, t: Tree, d: nat, width: nat, colons: bool)
    requires width > 0
    ensures PopTo(Fold(s, Print(t, d, width, colons)), d) == AttachAll(PopTo(s, d), [t])
    decreases t, 0
  {
    var line := Entry(d, t.tag, colons || t.children != []);
    var rest := PrintAll(t.children, d + width, width, colons);
    var printed := Print(t, d, width, colons);
    assert printed[0] == line && printed[1..] == rest;
    if line.opens {
      var grown := Open(d, t.tag, [], PopTo(s, d));
      PrintedForestIsAttached(grown, t.children, d + width, width, colons);
      PopToTwice(Fold(grown, rest), d + width, d);
      FillTop(PopTo(s, d), d, t);
    } else {
      assert Node(t.tag, []) == t;
    }
  }

  lemma {:induction false} PrintedForestIsAttached(s: Stack, ts: seq<Tree>, d: nat, width: nat, colons: bool)
    requires Indent(s) < d && width > 0
    ensures PopTo(Fold(s, PrintAll(ts, d, width, colons)), d) == AttachAll(s, ts)
    decreases ts, 1
  {
    if ts == [] {
      assert AttachAll(s, ts) == s;
    } else {
      var first, rest := Print(ts[0], d, width, colons), PrintAll(ts[1..], d, width, colons);
      var folded, s' := Fold(s, first), AttachAll(s, [ts[0]]);
      PrintedTreeIsAttached(s, ts[0], d, width, colons);
      assert PopTo(folded, d) == s';
      FoldConcat(s, first, rest);
      PrintedForestIsAttached(s', ts[1..], d, width, colons);
      assert AttachAll(s', ts[1..]) == AttachAll(s, ts) by {
        assert s.children + [ts[0]] + ts[1..] == s.children + ts;
      }
      if ts[1..] != [] {
        assert rest[0] == Entry(d, ts[1].tag, colons || ts[1].children != []);
        FoldPopsFirst(folded, rest);
      }
    }
  }

  lemma {:induction false} CloseAfterPop(s: Stack, indent: nat)
    ensures Close(PopTo(s, indent)) == Close(s)
    decreases Depth(s)
  {
    if Indent(s) >= indent {
      CloseAfterPop(Pop(s), indent);
    }
  }

  /** Parsing any printed forest gives the forest back, for every indentation width. */
  lemma ParsePrinted(ts: seq<Tree>, width: nat, colons: bool)
    requires width > 0
    ensures Parse(PrintAll(ts, 0, width, colons)) == Node(ROOT, ts)
  {
    PrintedForestIsAttached(START, ts, 0, width, colons);
    CloseAfterPop(Fold(START, PrintAll(ts, 0, width, colons)), 0);
    assert START.children + ts == ts;
  }

  // -- The parser on objects ------------------------------------------------------------------

  class A11yNode {
    var tag: string
    var children: seq<A11yNode>

    constructor (tag: string)
      ensures this.tag == tag && children == []
    {
      this.tag := tag;
      this.children := [];
    }
  }

  /** The objects reachable from `node` form the tree `t`, all of them within `region`. */
  ghost predicate Represents(node: A11yNode, t: Tree, region: set<A11yNode>)
    reads region
    decreases t
  {
    && node in region
    && node.tag == t.tag
    && |node.children| == |t.children|
    && forall i :: 0 <= i < |t.children| ==> Represents(node.children[i], t.children[i], region)
  }

  lemma {:induction false} RegionGrows(node: A11yNode, t: Tree, region: set<A11yNode>, larger: set<A11yNode>)
    requires region <= larger && Represents(node, t, region)
    ensures Represents(node, t, larger)
    decreases t
  {
    forall i | 0 <= i < |t.children|
      ensures Represents(node.children[i], t.children[i], larger)
    {
      RegionGrows(node.children[i], t.children[i], region, larger);
    }
  }

  /** Finished nodes, each with the tree it represents. */
  ghost predicate Finished(closed: map<A11yNode, Tree>)
    reads closed.Keys
  {
    forall node :: node in closed ==> Represents(node, closed[node], closed.Keys)
  }

  /** `node` holds the finished trees `ts`, then `upper`. */
  ghost predicate Holds(node: A11yNode, ts: seq<Tree>, upper: seq<A11yNode>, closed: map<A11yNode, Tree>)
    reads node
  {
    && node !in closed
    && |node.children| == |ts| + |upper|
    && node.children[|ts|..] == upper
    && forall c :: 0 <= c < |ts| ==> node.children[c] in closed && closed[node.children[c]] == ts[c]
  }

  type OpenNode = (int, A11yNode)

  ghost function Nodes(stack: seq<OpenNode>): set<A11yNode> {
    if stack == [] then {} else Nodes(stack[..|stack| - 1]) + {stack[|stack| - 1].1}
  }

  /** The object stack mirrors the value stack: each open node holds its finished
  children, then the next open node. */
  ghost predicate Mirrors(stack: seq<OpenNode>, s: Stack, upper: seq<A11yNode>, closed: map<A11yNode, Tree>)
    reads Nodes(stack)
    decreases s
  {
    && stack != []
    && stack[|stack| - 1].0 == Indent(s)
    && Holds(stack[|stack| - 1].1, s.children, upper, closed)
    && stack[|stack| - 1].1 !in Nodes(stack[..|stack| - 1])
    && (s.Root? ==> |stack| == 1 && stack[0].1.tag == ROOT)
    && (s.Open? ==>
          && stack[|stack| - 1].1.tag == s.tag
          && Mirrors(stack[..|stack| - 1], s.below, [stack[|stack| - 1].1], closed))
  }

  lemma {:induction false} MirrorsGrows(
    stack: seq<OpenNode>, s: Stack, upper: seq<A11yNode>, closed: map<A11yNode, Tree>, node: A11yNode, t: Tree
  )
    requires Mirrors(stack, s, upper, closed) && node !in closed && node !in Nodes(stack)
    ensures Mirrors(stack, s, upper, closed[node := t])
    decreases s
  {
    if s.Open? {
      MirrorsGrows(stack[..|stack| - 1], s.below, [stack[|stack| - 1].1], closed, node, t);
    }
  }

  lemma FinishedGrows(closed: map<A11yNode, Tree>, node: A11yNode, t: Tree)
    requires Finished(closed) && node !in closed
    requires node.tag == t.tag && Holds(node, t.children, [], closed)
    ensures Finished(closed[node := t])
  {
    var after := closed[node := t];
    forall n | n in closed
      ensures Represents(n, closed[n], after.Keys)
    {
      RegionGrows(n, closed[n], closed.Keys, after.Keys);
    }
    assert Represents(node, t, after.Keys);
  }

  /** Popping turns the innermost open node into a finished one. */
  lemma PopMirrors(stack: seq<OpenNode>, s: Stack, closed: map<A11yNode, Tree>)
    returns (after: map<A11yNode, Tree>)
    requires s.Open? && Mirrors(stack, s, [], closed) && Finished(closed)
    ensures Mirrors(stack[..|stack| - 1], Pop(s), [], after) && Finished(after)
    ensures after.Keys == closed.Keys + {stack[|stack| - 1].1}
  {
    var last, t := stack[|stack| - 1].1, Node(s.tag, s.children);
    var shorter := stack[..|stack| - 1];
    after := closed[last := t];
    FinishedGrows(closed, last, t);
    MirrorsGrows(shorter, s.below, [last], closed, last, t);
    var node := shorter[|shorter| - 1].1;
    assert node.children[|s.below.children|..] == [last];
    assert node.children[|s.below.children|] == last;
  }

  /** Appending a child changes the innermost open node and nothing else. */
  method AppendChild(
    ghost stack: seq<OpenNode>, top: A11yNode, node: A11yNode, ghost s: Stack, ghost closed: map<A11yNode, Tree>
  )
    requires Mirrors(stack, s, [], closed) && Finished(closed) && top == stack[|stack| - 1].1
    modifies top`children
    ensures Mirrors(stack, s, [node], closed) && Finished(closed)
    ensures node != top ==> node.children == old(node.children)
  {
    top.children := top.children + [node];
    assert top.children[|s.children|..] == [node];
  }

  lemma LeafMirrors(stack: seq<OpenNode>, node: A11yNode, s: Stack, closed: map<A11yNode, Tree>)
    requires Mirrors(stack, s, [node], closed) && Finished(closed)
    requires node !in closed && node !in Nodes(stack) && node.children == []
    ensures var t := Node(node.tag, []);
      Mirrors(stack, AttachAll(s, [t]), [], closed[node := t]) && Finished(closed[node := t])
  {
    var t := Node(node.tag, []);
    FinishedGrows(closed, node, t);
    MirrorsGrows(stack, s, [node], closed, node, t);
    var top := stack[|stack| - 1].1;
    assert top.children[|s.children|..] == [node];
    assert top.children[|s.children|] == node;
  }

  lemma OpenMirrors(stack: seq<OpenNode>, node: A11yNode, indent: nat, s: Stack, closed: map<A11yNode, Tree>)
    requires Mirrors(stack, s, [node], closed)
    requires node !in closed && node !in Nodes(stack) && node.children == []
    ensures Mirrors(stack + [(indent as int, node)], Open(indent, node.tag, [], s), [], closed)
    ensures Nodes(stack + [(indent as int, node)]) == Nodes(stack) + {node}
  {
    assert (stack + [(indent as int, node)])[..|stack|] == stack;
  }

  lemma StartMirrors(root: A11yNode)
    requires root.tag == ROOT && root.children == []
    ensures Mirrors([(-1, root)], START, [], map[]) && Finished(map[]) && Nodes([(-1, root)]) == {root}
  {
    assert [(-1, root)][..0] == [];
  }

  lemma BlankChangesNothing(s: Stack)
    ensures Step(s, Blank) == s
  {}

  /** The parser: its objects represent exactly the specified tree. */
  method ParseAria(lines: seq<Line>) returns (root: A11yNode, ghost region: set<A11yNode>)
    ensures fresh(region) && Represents(root, Parse(lines), region)
  {
    root := new A11yNode(ROOT);
    var stack: seq<OpenNode> := [(-1, root)];
    ghost var s := START;
    ghost var closed: map<A11yNode, Tree> := map[];
    ghost var nodes := {root};
    StartMirrors(root);
    hide Mirrors, Finished, Step, Nodes;
    for k := 0 to |lines|
      invariant stack != [] && stack[0] == (-1, root)
      invariant s == Fold(START, lines[..k])
      invariant Mirrors(stack, s, [], closed) && Finished(closed)
      invariant nodes == Nodes(stack) && fresh(nodes) && fresh(closed.Keys)
    {
      assert lines[..k + 1] == lines[..k] + [lines[k]];
      FoldOneMore(START, lines[..k], lines[k]);
      if lines[k].Blank? {
        BlankChangesNothing(s);
        continue;
      }
      var node := new A11yNode(lines[k].tag);
      stack, s, closed := HandleEntry(stack, lines[k], node, s, closed);
      nodes := set n | n in nodes + {node} && n in Nodes(stack);
    }
    assert lines[..|lines|] == lines;
    closed := CloseAll(stack, s, closed);
    region := closed.Keys;
  }

  method HandleEntry(
    stack0: seq<OpenNode>, line: Line, node: A11yNode, ghost s0: Stack, ghost closed0: map<A11yNode, Tree>
  )
    returns (stack: seq<OpenNode>, ghost s: Stack, ghost closed: map<A11yNode, Tree>)
    requires line.Entry? && Mirrors(stack0, s0, [], closed0) && Finished(closed0)
    requires node !in closed0 && node !in Nodes(stack0) && node.tag == line.tag && node.children == []
    modifies Nodes(stack0)`children
    ensures stack != [] && stack[0] == stack0[0]
    ensures s == Step(s0, line)
    ensures Mirrors(stack, s, [], closed) && Finished(closed)
    ensures Nodes(stack) <= Nodes(stack0) + {node} && closed.Keys <= Nodes(stack0) + closed0.Keys + {node}
  {
    hide Mirrors, Finished;
    stack, closed := CloseDeeper(stack0, line.indent, s0, closed0);
    s := PopTo(s0, line.indent);
    TopIsNode(stack, s, closed);
    AppendChild(stack, stack[|stack| - 1].1, node, s, closed);
    if line.opens {
      OpenMirrors(stack, node, line.indent, s, closed);
      s := Open(line.indent, line.tag, [], s);
      stack := stack + [(line.indent as int, node)];
    } else {
      LeafMirrors(stack, node, s, closed);
      s := AttachAll(s, [Node(line.tag, [])]);
      closed := closed[node := Node(line.tag, [])];
    }
  }

  lemma TopIsNode(stack: seq<OpenNode>, s: Stack, closed: map<A11yNode, Tree>)
    requires Mirrors(stack, s, [], closed)
    ensures stack[|stack| - 1].1 in Nodes(stack)
  {}

  /** The popping loop. */
  method CloseDeeper(stack0: seq<OpenNode>, indent: nat, ghost s0: Stack, ghost closed0: map<A11yNode, Tree>)
    returns (stack: seq<OpenNode>, ghost closed: map<A11yNode, Tree>)
    requires Mirrors(stack0, s0, [], closed0) && Finished(closed0)
    ensures stack != [] && stack[0] == stack0[0]
    ensures Mirrors(stack, PopTo(s0, indent), [], closed) && Finished(closed)
    ensures Nodes(stack) <= Nodes(stack0) && closed.Keys <= Nodes(stack0) + closed0.Keys
  {
    stack, closed := stack0, closed0;
    ghost var s := s0;
    while stack != [] && stack[|stack| - 1].0 >= indent
      invariant stack != [] && stack[0] == stack0[0]
      invariant Mirrors(stack, s, [], closed) && Finished(closed)
      invariant PopTo(s, indent) == PopTo(s0, indent)
      invariant Nodes(stack) <= Nodes(stack0)
      invariant closed.Keys <= Nodes(stack0) + closed0.Keys
      decreases |stack|
    {
      closed := PopMirrors(stack, s, closed);
      s := Pop(s);
      stack := stack[..|stack| - 1];
    }
  }

  /** With nothing left to read, the open nodes count as finished. */
  lemma {:induction false} CloseAll(stack: seq<OpenNode>, s: Stack, closed: map<A11yNode, Tree>)
    returns (after: map<A11yNode, Tree>)
    requires Mirrors(stack, s, [], closed) && Finished(closed)
    ensures after.Keys == closed.Keys + Nodes(stack)
    ensures Represents(stack[0].1, Close(s), after.Keys)
    decreases |stack|
  {
    if s.Open? {
      var next := PopMirrors(stack, s, closed);
      after := CloseAll(stack[..|stack| - 1], Pop(s), next);
    } else {
      after := closed[stack[0].1 := Close(s)];
      FinishedGrows(closed, stack[0].1, Close(s));
      assert stack[..0] == [];
    }
  }

  /** The objects of a tree in preorder. */
  ghost function NodesOf(node: A11yNode, t: Tree, region: set<A11yNode>): seq<A11yNode>
    requires Represents(node, t, region)
    reads region
    decreases t, |t.children| + 1
  {
    [node] + NodesOfFirst(node, t, region, |t.children|)
  }

  /** The objects of the first `n` children. */
  ghost function NodesOfFirst(node: A11yNode, t: Tree, region: set<A11yNode>, n: nat): seq<A11yNode>
    requires Represents(node, t, region) && n <= |t.children|
    reads region
    decreases t, n
  {
    if n == 0 then []
    else NodesOfFirst(node, t, region, n - 1) + NodesOf(node.children[n - 1], t.children[n - 1], region)
  }

  function TagsOf(nodes: seq<A11yNode>): seq<string>
    reads nodes
  {
    if nodes == [] then [] else TagsOf(nodes[..|nodes| - 1]) + [nodes[|nodes| - 1].tag]
  }

  lemma {:induction false} TagsOfConcat(a: seq<A11yNode>, b: seq<A11yNode>)
    ensures TagsOf(a + b) == TagsOf(a) + TagsOf(b)
  {
    if b == [] {
      assert a + b == a;
    } else {
      assert (a + b)[..|a + b| - 1] == a + b[..|b| - 1];
      TagsOfConcat(a, b[..|b| - 1]);
    }
  }

  lemma {:induction false} NodesAreInPreorder(node: A11yNode, t: Tree, region: set<A11yNode>)
    requires Represents(node, t, region)
    ensures TagsOf(NodesOf(node, t, region)) == Preorder(t)
    decreases t, |t.children| + 1
  {
    NodesOfFirstAreInPreorder(node, t, region, |t.children|);
    TagsOfConcat([node], NodesOfFirst(node, t, region, |t.children|));
    assert [node][..0] == [];
    assert t.children[..|t.children|] == t.children;
  }

  lemma {:induction false} NodesOfFirstAreInPreorder(node: A11yNode, t: Tree, region: set<A11yNode>, n: nat)
    requires Represents(node, t, region) && n <= |t.children|
    ensures TagsOf(NodesOfFirst(node, t, region, n)) == PreorderAll(t.children[..n])
    decreases t, n
  {
    if n > 0 {
      NodesOfFirstAreInPreorder(node, t, region, n - 1);
      NodesAreInPreorder(node.children[n - 1], t.children[n - 1], region);
      TagsOfConcat(NodesOfFirst(node, t, region, n - 1), NodesOf(node.children[n - 1], t.children[n - 1], region));
      assert t.children[..n][..n - 1] == t.children[..n - 1];
    }
  }

  lemma Regroup<T>(a: seq<T>, b: seq<T>, c: seq<T>, d: seq<T>)
    ensures a + (b + c) + d == a + (b + (c + d))
  {}

  /** Flattening appends the objects of the tree in preorder. */
  method Flatten(node: A11yNode, acc: seq<A11yNode>, ghost t: Tree, ghost region: set<A11yNode>)
    returns (r: seq<A11yNode>)
    requires Represents(node, t, region)
    ensures r == acc + NodesOf(node, t, region)
    ensures TagsOf(r) == TagsOf(acc) + Preorder(t)
    decreases t
  {
    hide TagsOf, Preorder;
    r := acc + [node];
    for i := 0 to |node.children|
      invariant r == acc + ([node] + NodesOfFirst(node, t, region, i))
    {
      r := Flatten(node.children[i], r, t.children[i], region);
      Regroup(acc, [node], NodesOfFirst(node, t, region, i), NodesOf(node.children[i], t.children[i], region));
    }
    NodesAreInPreorder(node, t, region);
    TagsOfConcat(acc, NodesOf(node, t, region));
  }
}
