/**
 * `PlanNodeVisualizer`: draws a plan tree as boxes of text. Each node becomes a
 * box as wide as its longest text line plus two borders, centred over the row of
 * its children's boxes, with two connector lines from the box down to the middle
 * of each child.
 */
module PlanNodeVisualizer {
  import opened JavaLang

  /** What the visualizer reads from a `PlanNode`: its box text and its children. */
  datatype PlanNode = PlanNode(boxString: seq<string>, children: seq<PlanNode>)

  /**
   * A `Box` with the fields `calculateBoxMaxWidth` assigns; its lines are computed
   * by `BuildBoxLines` and returned rather than stored.
   */
  datatype Box = Box(node: PlanNode, children: seq<Box>, width: nat, maxWidth: nat,
                     leftIndent: nat, lastCharPosition: int)

  const INDENT: char := ' '
  const HENG: char := '\U{2500}'
  const SHU: char := '\U{2502}'
  const LEFT_BOTTOM: char := '\U{2514}'
  const RIGHT_BOTTOM: char := '\U{2518}'
  const LEFT_TOP: char := '\U{250C}'
  const RIGHT_TOP: char := '\U{2510}'
  const SHANG: char := '\U{2534}'
  const XIA: char := '\U{252C}'

  function Max(a: nat, b: nat): (m: nat)
    ensures m >= a && m >= b && (m == a || m == b)
  {
    if a >= b then a else b
  }

  function Spaces(n: nat): (s: string)
    ensures |s| == n && forall i :: 0 <= i < n ==> s[i] == INDENT
  {
    seq(n, _ => INDENT)
  }

  /** `printIndent`. */
  method PrintIndent(count: nat) returns (s: string)
    ensures s == Spaces(count)
  {
    s := "";
    for i := 0 to count
      invariant s == Spaces(i)
    {
      s := s + [INDENT];
    }
  }

  // ---------------------------------------------------------------------------
  // Building the box tree and its geometry

  /** The length of the longest line, 0 for none. */
  function LongestLine(lines: seq<string>): nat
  {
    if lines == [] then 0 else Max(LongestLine(lines[..|lines| - 1]), |lines[|lines| - 1]|)
  }

  /** The longest line is at least as long as every line, and is one of them. */
  lemma {:induction false} LongestLineIsLongest(lines: seq<string>)
    ensures forall k :: 0 <= k < |lines| ==> |lines[k]| <= LongestLine(lines)
    ensures lines != [] ==> exists k :: 0 <= k < |lines| && |lines[k]| == LongestLine(lines)
    ensures lines == [] ==> LongestLine(lines) == 0
  {
    if lines != [] {
      var init := lines[..|lines| - 1];
      LongestLineIsLongest(init);
      assert forall k :: 0 <= k < |init| ==> lines[k] == init[k];
    }
  }

  /** `Box.getSelfWidth`. */
  method GetSelfWidth(boxString: seq<string>) returns (w: nat)
    ensures w == LongestLine(boxString) + 2
  {
    var width := 0;
    for k := 0 to |boxString|
      invariant width == LongestLine(boxString[..k])
    {
      assert boxString[..k + 1][..k] == boxString[..k];
      width := Max(width, |boxString[k]|);
    }
    assert boxString[..|boxString|] == boxString;
    w := width + 2;
  }

  /** The box `buildBoxTree` makes for a node: its own width, geometry not yet set. */
  function InitialBox(root: PlanNode): Box
    decreases root
  {
    Box(root, seq(|root.children|, i requires 0 <= i < |root.children| => InitialBox(root.children[i])),
        LongestLine(root.boxString) + 2, 0, 0, 0)
  }

  /** `buildBoxTree`. */
  method BuildBoxTree(root: PlanNode) returns (b: Box)
    ensures b == InitialBox(root)
    decreases root
  {
    var width := GetSelfWidth(root.boxString);
    var children: seq<Box> := [];
    for i := 0 to |root.children|
      invariant |children| == i
      invariant forall k :: 0 <= k < i ==> children[k] == InitialBox(root.children[k])
    {
      var child := BuildBoxTree(root.children[i]);
      children := children + [child];
    }
    b := Box(root, children, width, 0, 0, 0);
  }

  /** The sum of the boxes' `maxWidth`. */
  function SumWidths(cs: seq<Box>): nat
  {
    if cs == [] then 0 else SumWidths(cs[..|cs| - 1]) + cs[|cs| - 1].maxWidth
  }

  /** The width of a row of boxes with one column between neighbours. */
  function ChildrenWidth(cs: seq<Box>): nat
  {
    SumWidths(cs) + if |cs| > 1 then |cs| - 1 else 0
  }

  /** What `calculateBoxMaxWidth` leaves in a box and, first, in all of its children. */
  function Layout(b: Box): Box
    decreases b
  {
    var kids := seq(|b.children|, i requires 0 <= i < |b.children| => Layout(b.children[i]));
    var maxWidth := Max(b.width, ChildrenWidth(kids));
    var leftIndent := (maxWidth - b.width) / 2;
    Box(b.node, kids, b.width, maxWidth, leftIndent, leftIndent + b.width - 1)
  }

  /** `calculateBoxMaxWidth`: children first, then this box's own geometry. */
  method CalculateBoxMaxWidth(b: Box) returns (laid: Box)
    ensures laid == Layout(b)
    decreases b
  {
    ghost var target := Layout(b);
    var kids: seq<Box> := [];
    var childrenWidth: nat := 0;
    for i := 0 to |b.children|
      invariant kids == target.children[..i]
      invariant childrenWidth == SumWidths(kids)
    {
      var child := CalculateBoxMaxWidth(b.children[i]);
      assert target.children[..i + 1] == kids + [child];
      kids := kids + [child];
      childrenWidth := childrenWidth + child.maxWidth;
    }
    assert kids == target.children;
    childrenWidth := childrenWidth + if |b.children| > 1 then |b.children| - 1 else 0;
    var maxWidth := Max(b.width, childrenWidth);
    var leftIndent := (maxWidth - b.width) / 2;
    laid := Box(b.node, kids, b.width, maxWidth, leftIndent, leftIndent + b.width - 1);
  }

  /**
   * A box after `calculateBoxMaxWidth`, throughout its tree: as wide as the wider
   * of itself and its children's row, and centred in that width.
   */
  ghost predicate LaidOut(b: Box)
    decreases b
  {
    && b.width >= 2
    && b.width <= b.maxWidth
    && b.maxWidth == Max(b.width, ChildrenWidth(b.children))
    && b.leftIndent == (b.maxWidth - b.width) / 2
    && b.lastCharPosition == b.leftIndent + b.width - 1
    && forall i :: 0 <= i < |b.children| ==> LaidOut(b.children[i])
  }

  /** Every box the visualizer builds for a plan is laid out. */
  lemma {:induction false} LayoutOfTreeIsLaidOut(root: PlanNode)
    ensures LaidOut(Layout(InitialBox(root)))
    ensures Layout(InitialBox(root)).node == root
    ensures Layout(InitialBox(root)).width == LongestLine(root.boxString) + 2
    ensures |Layout(InitialBox(root)).children| == |root.children|
    decreases root
  {
    var b := Layout(InitialBox(root));
    forall i | 0 <= i < |b.children|
      ensures LaidOut(b.children[i])
    {
      LayoutOfTreeIsLaidOut(root.children[i]);
    }
  }

  /**
   * A laid-out box sits centred in its width: as much room on the left as on the
   * right, one more on the right when the slack is odd, and its last border
   * column inside the width.
   */
  lemma Centred(b: Box)
    requires LaidOut(b)
    ensures var right := b.maxWidth - 1 - b.lastCharPosition;
      0 <= right && (right == b.leftIndent || right == b.leftIndent + 1)
    ensures b.leftIndent < b.lastCharPosition < b.maxWidth
  {
  }

  /** `getChildMidPosition`: the columns of the children before it, each with its separator, then half its own width. */
  function MidPosition(cs: seq<Box>, idx: nat): nat
    requires idx < |cs|
  {
    SumWidths(cs[..idx]) + idx + cs[idx].maxWidth / 2
  }

  /** `getChildMidPosition`. */
  method GetChildMidPosition(b: Box, idx: nat) returns (left: nat)
    requires idx < |b.children|
    ensures left == MidPosition(b.children, idx)
  {
    left := 0;
    for i := 0 to idx
      invariant left == SumWidths(b.children[..i]) + i
    {
      assert b.children[..i + 1][..i] == b.children[..i];
      left := left + b.children[i].maxWidth;
      left := left + 1;
    }
    left := left + b.children[idx].maxWidth / 2;
  }

  /** Children's middles go strictly left to right. */
  lemma MidPositionsIncrease(cs: seq<Box>, i: nat, j: nat)
    requires i < j < |cs|
    ensures MidPosition(cs, i) < MidPosition(cs, j)
    decreases j - i
  {
    assert cs[..i + 1][..i] == cs[..i];
    if i + 1 < j {
      MidPositionsIncrease(cs, i + 1, j);
    }
  }

  /** With every child at least one column wide, every middle lies inside the children's row. */
  lemma MidPositionInsideRow(cs: seq<Box>, idx: nat)
    requires idx < |cs| && forall k :: 0 <= k < |cs| ==> cs[k].maxWidth >= 1
    ensures MidPosition(cs, idx) < ChildrenWidth(cs)
  {
    SumWidthsPrefix(cs, idx + 1);
    assert cs[..idx + 1][..idx] == cs[..idx];
  }

  lemma {:induction false} SumWidthsPrefix(cs: seq<Box>, n: nat)
    requires n <= |cs|
    ensures SumWidths(cs[..n]) <= SumWidths(cs)
    ensures n < |cs| ==> SumWidths(cs[..n]) + cs[n].maxWidth <= SumWidths(cs)
    decreases |cs| - n
  {
    if n < |cs| {
      assert cs[..n + 1][..n] == cs[..n];
      SumWidthsPrefix(cs, n + 1);
    } else {
      assert cs[..n] == cs;
    }
  }

  // ---------------------------------------------------------------------------
  // The lines of one box

  /** `printBoxEdge`; it recomputes the left indent from the widths. */
  function EdgeLine(b: Box, top: bool): string
  {
    var leftIndent := TruncDiv(b.maxWidth - b.width, 2);
    seq(b.maxWidth, i =>
      if i < leftIndent || i > b.lastCharPosition then INDENT
      else if i == leftIndent then (if top then LEFT_TOP else LEFT_BOTTOM)
      else if i == b.lastCharPosition then (if top then RIGHT_TOP else RIGHT_BOTTOM)
      else HENG)
  }

  method PrintBoxEdge(b: Box, top: bool) returns (s: string)
    ensures s == EdgeLine(b, top)
  {
    var leftIndent := TruncDiv(b.maxWidth - b.width, 2);
    s := "";
    for i := 0 to b.maxWidth
      invariant s == EdgeLine(b, top)[..i]
    {
      if i < leftIndent {
        s := s + [INDENT];
        continue;
      }
      if i > b.lastCharPosition {
        s := s + [INDENT];
        continue;
      }
      if i == leftIndent {
        s := s + [if top then LEFT_TOP else LEFT_BOTTOM];
        continue;
      }
      if i == b.lastCharPosition {
        s := s + [if top then RIGHT_TOP else RIGHT_BOTTOM];
        continue;
      }
      s := s + [HENG];
    }
  }

  /**
   * An edge spans the box's whole width: its corners at the two border columns,
   * horizontal rule strictly between them, spaces outside.
   */
  lemma EdgeShape(b: Box, top: bool)
    requires LaidOut(b)
    ensures var e := EdgeLine(b, top);
      && |e| == b.maxWidth
      && e[b.leftIndent] == (if top then LEFT_TOP else LEFT_BOTTOM)
      && e[b.lastCharPosition] == (if top then RIGHT_TOP else RIGHT_BOTTOM)
      && (forall i :: b.leftIndent < i < b.lastCharPosition ==> e[i] == HENG)
      && (forall i :: 0 <= i < b.maxWidth && (i < b.leftIndent || i > b.lastCharPosition) ==> e[i] == INDENT)
  {
  }

  /** One text line of the box between its two vertical borders. */
  function ValueLine(b: Box, text: string): string
  {
    seq(b.maxWidth, i =>
      if i < b.leftIndent || i > b.lastCharPosition then INDENT
      else if i == b.leftIndent || i == b.lastCharPosition then SHU
      else if i - b.leftIndent - 1 < |text| then text[i - b.leftIndent - 1]
      else INDENT)
  }

  method PrintValueLine(b: Box, text: string) returns (s: string)
    ensures s == ValueLine(b, text)
  {
    s := "";
    for i := 0 to b.maxWidth
      invariant s == ValueLine(b, text)[..i]
    {
      if i < b.leftIndent {
        s := s + [INDENT];
        continue;
      }
      if i > b.lastCharPosition {
        s := s + [INDENT];
        continue;
      }
      if i == b.leftIndent || i == b.lastCharPosition {
        s := s + [SHU];
        continue;
      }
      if i - b.leftIndent - 1 < |text| {
        s := s + [text[i - b.leftIndent - 1]];
      } else {
        s := s + [INDENT];
      }
    }
  }

  /**
   * A text line of a laid-out box: borders at the two border columns, the text
   * starting right after the left border, nothing of it cut off, spaces elsewhere.
   */
  lemma ValueLineShape(b: Box, text: string)
    requires LaidOut(b) && |text| <= b.width - 2
    ensures var v := ValueLine(b, text);
      && |v| == b.maxWidth
      && v[b.leftIndent] == SHU && v[b.lastCharPosition] == SHU
      && (forall k :: 0 <= k < |text| ==> v[b.leftIndent + 1 + k] == text[k])
      && (forall i :: b.leftIndent + 1 + |text| <= i < b.lastCharPosition ==> v[i] == INDENT)
      && (forall i :: 0 <= i < b.maxWidth && (i < b.leftIndent || i > b.lastCharPosition) ==> v[i] == INDENT)
  {
    Centred(b);
    ValueLineCells(b, text);
  }

  /** The cells of a text line, given only where the borders fall. */
  lemma ValueLineCells(b: Box, text: string)
    requires 0 <= b.leftIndent < b.lastCharPosition < b.maxWidth
    requires |text| <= b.lastCharPosition - b.leftIndent - 1
    ensures var v := ValueLine(b, text);
      && |v| == b.maxWidth
      && v[b.leftIndent] == SHU && v[b.lastCharPosition] == SHU
      && (forall k :: 0 <= k < |text| ==> v[b.leftIndent + 1 + k] == text[k])
      && (forall i :: b.leftIndent + 1 + |text| <= i < b.lastCharPosition ==> v[i] == INDENT)
      && (forall i :: 0 <= i < b.maxWidth && (i < b.leftIndent || i > b.lastCharPosition) ==> v[i] == INDENT)
  {
  }

  /** The top edge, one line per box-string line, the bottom edge. */
  function BoxHead(b: Box): seq<string>
  {
    [EdgeLine(b, true)]
    + seq(|b.node.boxString|, k requires 0 <= k < |b.node.boxString| => ValueLine(b, b.node.boxString[k]))
    + [EdgeLine(b, false)]
  }

  // ---------------------------------------------------------------------------
  // Connector lines

  /** `shangPosition`. */
  function ShangPosition(b: Box): int
  {
    b.maxWidth / 2 - 1
  }

  /** A connector line for a single child: one vertical bar. */
  function SingleConnector(b: Box): string
  {
    seq(b.maxWidth, j => if j == ShangPosition(b) then SHU else INDENT)
  }

  method PrintSingleConnector(b: Box) returns (s: string)
    ensures s == SingleConnector(b)
  {
    var shangPosition := b.maxWidth / 2 - 1;
    s := "";
    for j := 0 to b.maxWidth
      invariant s == SingleConnector(b)[..j]
    {
      if j == shangPosition {
        s := s + [SHU];
      } else {
        s := s + [INDENT];
      }
    }
  }

  /** The corner or tee drawn above child i of k. */
  function SymbolFor(i: nat, k: nat): char
  {
    if i == 0 then LEFT_TOP else if i == k - 1 then RIGHT_TOP else XIA
  }

  /** `symbolMap` after the `put` of `shangPosition` and of the first `count` children's middles. */
  function PutSymbols(b: Box, count: nat): map<int, char>
    requires count <= |b.children|
  {
    if count == 0 then map[ShangPosition(b) := SHANG]
    else PutSymbols(b, count - 1)[MidPosition(b.children, count - 1) := SymbolFor(count - 1, |b.children|)]
  }

  method BuildSymbolMap(b: Box) returns (symbolMap: map<int, char>)
    ensures symbolMap == PutSymbols(b, |b.children|)
  {
    var shangPosition := b.maxWidth / 2 - 1;
    symbolMap := map[shangPosition := SHANG];
    for i := 0 to |b.children|
      invariant symbolMap == PutSymbols(b, i)
    {
      var mid := GetChildMidPosition(b, i);
      symbolMap := symbolMap[mid := if i == 0 then LEFT_TOP else if i == |b.children| - 1 then RIGHT_TOP else XIA];
    }
  }

  /** Column p is some child's middle. */
  ghost predicate IsMid(cs: seq<Box>, p: int)
  {
    exists i :: 0 <= i < |cs| && MidPosition(cs, i) == p
  }

  /**
   * The symbol map holds each child's corner or tee at its middle and, unless a
   * middle covers it, the upward tee at `shangPosition`; it holds nothing else.
   */
  lemma SymbolMapContents(b: Box, count: nat)
    requires count <= |b.children|
    ensures forall i :: 0 <= i < count ==>
      MidPosition(b.children, i) in PutSymbols(b, count)
      && PutSymbols(b, count)[MidPosition(b.children, i)] == SymbolFor(i, |b.children|)
    ensures ShangPosition(b) in PutSymbols(b, count)
    ensures (forall i :: 0 <= i < count ==> MidPosition(b.children, i) != ShangPosition(b)) ==>
      PutSymbols(b, count)[ShangPosition(b)] == SHANG
    ensures forall p :: p in PutSymbols(b, count) ==>
      p == ShangPosition(b) || exists i :: 0 <= i < count && MidPosition(b.children, i) == p
  {
    SymbolMapMids(b, count);
    SymbolMapShang(b, count);
    SymbolMapKeys(b, count);
  }

  /** Each of the first `count` middles maps to its child's corner or tee. */
  lemma {:induction false} SymbolMapMids(b: Box, count: nat)
    requires count <= |b.children|
    ensures forall i :: 0 <= i < count ==>
      MidPosition(b.children, i) in PutSymbols(b, count)
      && PutSymbols(b, count)[MidPosition(b.children, i)] == SymbolFor(i, |b.children|)
    decreases count
  {
    if count > 0 {
      SymbolMapMids(b, count - 1);
      var prev := PutSymbols(b, count - 1);
      var mid := MidPosition(b.children, count - 1);
      var next := PutSymbols(b, count);
      assert next == prev[mid := SymbolFor(count - 1, |b.children|)];
      forall i | 0 <= i < count
        ensures MidPosition(b.children, i) in next
          && next[MidPosition(b.children, i)] == SymbolFor(i, |b.children|)
      {
        if i < count - 1 {
          MidPositionsIncrease(b.children, i, count - 1);
          assert next[MidPosition(b.children, i)] == prev[MidPosition(b.children, i)];
        }
      }
    }
  }

  /** `shangPosition` stays in the map, with the upward tee unless a middle overwrote it. */
  lemma {:induction false} SymbolMapShang(b: Box, count: nat)
    requires count <= |b.children|
    ensures ShangPosition(b) in PutSymbols(b, count)
    ensures (forall i :: 0 <= i < count ==> MidPosition(b.children, i) != ShangPosition(b)) ==>
      PutSymbols(b, count)[ShangPosition(b)] == SHANG
    decreases count
  {
    if count > 0 {
      SymbolMapShang(b, count - 1);
    }
  }

  /** The map holds no key but `shangPosition` and the first `count` middles. */
  lemma {:induction false} SymbolMapKeys(b: Box, count: nat)
    requires count <= |b.children|
    ensures forall p :: p in PutSymbols(b, count) ==>
      p == ShangPosition(b) || exists i :: 0 <= i < count && MidPosition(b.children, i) == p
    decreases count
  {
    if count > 0 {
      SymbolMapKeys(b, count - 1);
      var mid := MidPosition(b.children, count - 1);
      assert PutSymbols(b, count).Keys == PutSymbols(b, count - 1).Keys + {mid};
      forall p | p in PutSymbols(b, count)
        ensures p == ShangPosition(b) || exists i :: 0 <= i < count && MidPosition(b.children, i) == p
      {
        if p != mid && p != ShangPosition(b) {
          var i :| 0 <= i < count - 1 && MidPosition(b.children, i) == p;
          assert 0 <= i < count;
        }
      }
    }
  }

  /** The first connector line of several children. */
  function ConnectorLine1(b: Box, symbolMap: map<int, char>): string
    requires |b.children| >= 1
  {
    var first := MidPosition(b.children, 0);
    var last := MidPosition(b.children, |b.children| - 1);
    seq(b.maxWidth, i =>
      if i < first || i > last then INDENT
      else if i in symbolMap then symbolMap[i]
      else HENG)
  }

  /** The second connector line of several children. */
  function ConnectorLine2(b: Box, symbolMap: map<int, char>): string
    requires |b.children| >= 1
  {
    var first := MidPosition(b.children, 0);
    var last := MidPosition(b.children, |b.children| - 1);
    seq(b.maxWidth, i =>
      if i < first || i > last then INDENT
      else if i in symbolMap && i != ShangPosition(b) then SHU
      else INDENT)
  }

  method PrintConnectorLine1(b: Box, symbolMap: map<int, char>) returns (s: string)
    requires |b.children| >= 1
    ensures s == ConnectorLine1(b, symbolMap)
  {
    var first := GetChildMidPosition(b, 0);
    var last := GetChildMidPosition(b, |b.children| - 1);
    s := "";
    for i := 0 to b.maxWidth
      invariant s == ConnectorLine1(b, symbolMap)[..i]
    {
      if i < first {
        s := s + [INDENT];
        continue;
      }
      if i > last {
        s := s + [INDENT];
        continue;
      }
      s := s + [if i in symbolMap then symbolMap[i] else HENG];
    }
  }

  method PrintConnectorLine2(b: Box, symbolMap: map<int, char>) returns (s: string)
    requires |b.children| >= 1
    ensures s == ConnectorLine2(b, symbolMap)
  {
    var shangPosition := b.maxWidth / 2 - 1;
    var first := GetChildMidPosition(b, 0);
    var last := GetChildMidPosition(b, |b.children| - 1);
    s := "";
    for i := 0 to b.maxWidth
      invariant s == ConnectorLine2(b, symbolMap)[..i]
    {
      if i < first {
        s := s + [INDENT];
        continue;
      }
      if i > last {
        s := s + [INDENT];
        continue;
      }
      if i in symbolMap && i != shangPosition {
        s := s + [SHU];
      } else {
        s := s + [INDENT];
      }
    }
  }

  /** The two connector lines under a box with children. */
  function Connectors(b: Box): seq<string>
    requires |b.children| >= 1
  {
    if |b.children| == 1 then [SingleConnector(b), SingleConnector(b)]
    else
      var symbolMap := PutSymbols(b, |b.children|);
      [ConnectorLine1(b, symbolMap), ConnectorLine2(b, symbolMap)]
  }

  /**
   * Under several children the first connector line has the left corner above the
   * first child, the right corner above the last, a tee above each other child,
   * and between the outer middles a horizontal rule, broken by the upward tee at
   * `shangPosition` when no middle falls there. The second line has a vertical bar
   * above each child's middle, except one that falls on `shangPosition`. Both are
   * as wide as the box and blank outside the outer middles.
   */
  lemma ConnectorShape(b: Box)
    requires |b.children| >= 2
    ensures var k := |b.children|;
      var first, last := MidPosition(b.children, 0), MidPosition(b.children, k - 1);
      var lines := Connectors(b);
      && |lines| == 2 && |lines[0]| == b.maxWidth && |lines[1]| == b.maxWidth
      && (forall i :: 0 <= i < k && MidPosition(b.children, i) < b.maxWidth ==>
            lines[0][MidPosition(b.children, i)] == SymbolFor(i, k))
      && (forall i :: 0 <= i < k && MidPosition(b.children, i) < b.maxWidth ==>
            lines[1][MidPosition(b.children, i)] ==
              (if MidPosition(b.children, i) == ShangPosition(b) then INDENT else SHU))
      && (forall p :: 0 <= p < b.maxWidth && first <= p <= last && !IsMid(b.children, p) ==>
            lines[0][p] == (if p == ShangPosition(b) then SHANG else HENG) && lines[1][p] == INDENT)
      && (forall p :: 0 <= p < b.maxWidth && (p < first || p > last) ==>
            lines[0][p] == INDENT && lines[1][p] == INDENT)
  {
    var k := |b.children|;
    var symbolMap := PutSymbols(b, k);
    assert Connectors(b) == [ConnectorLine1(b, symbolMap), ConnectorLine2(b, symbolMap)];
    SymbolMapContents(b, k);
    MidsWithinOuter(b);
    ConnectorLine1Shape(b, symbolMap);
    ConnectorLine2Shape(b, symbolMap);
  }

  /** Every child's middle lies between the first child's and the last child's. */
  lemma MidsWithinOuter(b: Box)
    requires |b.children| >= 1
    ensures forall i :: 0 <= i < |b.children| ==>
      MidPosition(b.children, 0) <= MidPosition(b.children, i) <= MidPosition(b.children, |b.children| - 1)
  {
    var k := |b.children|;
    forall i | 0 <= i < k
      ensures MidPosition(b.children, 0) <= MidPosition(b.children, i) <= MidPosition(b.children, k - 1)
    {
      if 0 < i { MidPositionsIncrease(b.children, 0, i); }
      if i < k - 1 { MidPositionsIncrease(b.children, i, k - 1); }
    }
  }

  /** The first connector line, position by position, given what the symbol map holds. */
  lemma ConnectorLine1Shape(b: Box, symbolMap: map<int, char>)
    requires |b.children| >= 2
    requires forall i :: 0 <= i < |b.children| ==>
      MidPosition(b.children, i) in symbolMap && symbolMap[MidPosition(b.children, i)] == SymbolFor(i, |b.children|)
    requires ShangPosition(b) in symbolMap
    requires (forall i :: 0 <= i < |b.children| ==> MidPosition(b.children, i) != ShangPosition(b)) ==>
      symbolMap[ShangPosition(b)] == SHANG
    requires forall p :: p in symbolMap ==> p == ShangPosition(b) || IsMid(b.children, p)
    requires forall i :: 0 <= i < |b.children| ==>
      MidPosition(b.children, 0) <= MidPosition(b.children, i) <= MidPosition(b.children, |b.children| - 1)
    ensures var k := |b.children|;
      var first, last := MidPosition(b.children, 0), MidPosition(b.children, k - 1);
      var line := ConnectorLine1(b, symbolMap);
      && |line| == b.maxWidth
      && (forall i :: 0 <= i < k && MidPosition(b.children, i) < b.maxWidth ==>
            line[MidPosition(b.children, i)] == SymbolFor(i, k))
      && (forall p :: 0 <= p < b.maxWidth && first <= p <= last && !IsMid(b.children, p) ==>
            line[p] == (if p == ShangPosition(b) then SHANG else HENG))
      && (forall p :: 0 <= p < b.maxWidth && (p < first || p > last) ==> line[p] == INDENT)
  {
  }

  /** The second connector line, position by position, given what the symbol map holds. */
  lemma ConnectorLine2Shape(b: Box, symbolMap: map<int, char>)
    requires |b.children| >= 2
    requires forall i :: 0 <= i < |b.children| ==> MidPosition(b.children, i) in symbolMap
    requires forall p :: p in symbolMap ==> p == ShangPosition(b) || IsMid(b.children, p)
    requires forall i :: 0 <= i < |b.children| ==>
      MidPosition(b.children, 0) <= MidPosition(b.children, i) <= MidPosition(b.children, |b.children| - 1)
    ensures var k := |b.children|;
      var first, last := MidPosition(b.children, 0), MidPosition(b.children, k - 1);
      var line := ConnectorLine2(b, symbolMap);
      && |line| == b.maxWidth
      && (forall i :: 0 <= i < k && MidPosition(b.children, i) < b.maxWidth ==>
            line[MidPosition(b.children, i)] ==
              (if MidPosition(b.children, i) == ShangPosition(b) then INDENT else SHU))
      && (forall p :: 0 <= p < b.maxWidth && first <= p <= last && !IsMid(b.children, p) ==>
            line[p] == INDENT)
      && (forall p :: 0 <= p < b.maxWidth && (p < first || p > last) ==> line[p] == INDENT)
  {
  }

  /** A single child hangs from one vertical bar at `shangPosition`, drawn twice. */
  lemma SingleConnectorShape(b: Box)
    requires |b.children| == 1 && b.maxWidth >= 2
    ensures Connectors(b) == [SingleConnector(b), SingleConnector(b)]
    ensures |SingleConnector(b)| == b.maxWidth
    ensures 0 <= ShangPosition(b) < b.maxWidth && SingleConnector(b)[ShangPosition(b)] == SHU
    ensures forall j :: 0 <= j < b.maxWidth && j != ShangPosition(b) ==> SingleConnector(b)[j] == INDENT
  {
  }

  // ---------------------------------------------------------------------------
  // The children's rows

  /** `Box.getLine`: a stored line, or a blank line as wide as the box past the end. */
  function LineOr(lines: seq<string>, maxWidth: nat, idx: nat): (s: string)
    ensures idx < |lines| ==> s == lines[idx]
    ensures idx >= |lines| ==> s == Spaces(maxWidth)
  {
    if idx < |lines| then lines[idx] else Spaces(maxWidth)
  }

  method GetLine(lines: seq<string>, maxWidth: nat, idx: nat) returns (s: string)
    ensures s == LineOr(lines, maxWidth, idx)
  {
    if idx < |lines| {
      return lines[idx];
    }
    s := PrintIndent(maxWidth);
  }

  /** `getChildrenLineCount`: the most lines any child has. */
  function MaxLineCount(childLines: seq<seq<string>>): nat
  {
    if childLines == [] then 0
    else Max(MaxLineCount(childLines[..|childLines| - 1]), |childLines[|childLines| - 1]|)
  }

  /** The count bounds every child's number of lines and, with at least one child, is one of them. */
  lemma {:induction false} MaxLineCountIsMax(childLines: seq<seq<string>>)
    ensures forall j :: 0 <= j < |childLines| ==> |childLines[j]| <= MaxLineCount(childLines)
    ensures childLines != [] ==>
      exists j :: 0 <= j < |childLines| && |childLines[j]| == MaxLineCount(childLines)
    decreases |childLines|
  {
    if childLines != [] {
      var n := |childLines|;
      var init := childLines[..n - 1];
      MaxLineCountIsMax(init);
      forall j | 0 <= j < n - 1
        ensures |childLines[j]| <= MaxLineCount(childLines)
      {
        assert childLines[j] == init[j];
      }
      if init != [] && MaxLineCount(init) >= |childLines[n - 1]| {
        var j :| 0 <= j < |init| && |init[j]| == MaxLineCount(init);
        assert childLines[j] == init[j];
      }
    }
  }

  method GetChildrenLineCount(childLines: seq<seq<string>>) returns (count: nat)
    ensures count == MaxLineCount(childLines)
    ensures forall j :: 0 <= j < |childLines| ==> |childLines[j]| <= count
    ensures childLines != [] ==> exists j :: 0 <= j < |childLines| && |childLines[j]| == count
  {
    count := 0;
    for j := 0 to |childLines|
      invariant count == MaxLineCount(childLines[..j])
    {
      assert childLines[..j + 1][..j] == childLines[..j];
      count := Max(count, |childLines[j]|);
    }
    assert childLines[..|childLines|] == childLines;
    MaxLineCountIsMax(childLines);
  }

  /** Child row `i` over the first `j` children: each child's line `i` followed by one space. */
  function Row(childLines: seq<seq<string>>, cs: seq<Box>, i: nat, j: nat): string
    requires |childLines| == |cs| && j <= |cs|
  {
    if j == 0 then ""
    else Row(childLines, cs, i, j - 1) + LineOr(childLines[j - 1], cs[j - 1].maxWidth, i) + [INDENT]
  }

  method PrintChildRow(b: Box, childLines: seq<seq<string>>, i: nat) returns (line: string)
    requires |childLines| == |b.children|
    ensures line == Row(childLines, b.children, i, |b.children|)
  {
    line := "";
    for j := 0 to |b.children|
      invariant line == Row(childLines, b.children, i, j)
    {
      var part := GetLine(childLines[j], b.children[j].maxWidth, i);
      line := line + part;
      line := line + [INDENT];
    }
  }

  /** The child rows as a row of children's lines, one per line of the tallest child. */
  function ChildRows(b: Box, childLines: seq<seq<string>>): seq<string>
    requires |childLines| == |b.children|
  {
    seq(MaxLineCount(childLines), i requires 0 <= i => Row(childLines, b.children, i, |b.children|))
  }

  /** A child row is as long as the children's lines it takes, with one space after each. */
  lemma {:induction false} RowLength(childLines: seq<seq<string>>, cs: seq<Box>, i: nat, j: nat)
    requires |childLines| == |cs| && j <= |cs|
    ensures |Row(childLines, cs, i, j)| == RowWidth(childLines, cs, i, j)
    decreases j
  {
    if j > 0 {
      RowLength(childLines, cs, i, j - 1);
    }
  }

  /** The sum over the first j children of the length of line i plus one. */
  function RowWidth(childLines: seq<seq<string>>, cs: seq<Box>, i: nat, j: nat): nat
    requires |childLines| == |cs| && j <= |cs|
  {
    if j == 0 then 0 else RowWidth(childLines, cs, i, j - 1) + |LineOr(childLines[j - 1], cs[j - 1].maxWidth, i)| + 1
  }

  // ---------------------------------------------------------------------------
  // All the lines of a box

  /** A box's lines below its head: the connectors, then the child rows. */
  function Assemble(b: Box, childLines: seq<seq<string>>): seq<string>
    requires |b.children| >= 1 && |childLines| == |b.children|
  {
    BoxHead(b) + Connectors(b) + ChildRows(b, childLines)
  }

  /** `box.lines` after `buildBoxLines(box)`. */
  function BoxLines(b: Box): seq<string>
    decreases b, 1
  {
    if b.children == [] then BoxHead(b)
    else Assemble(b, ChildLinesOf(b))
  }

  /** The lines of each child of b, in order. */
  function ChildLinesOf(b: Box): (r: seq<seq<string>>)
    ensures |r| == |b.children|
    decreases b, 0
  {
    seq(|b.children|, j requires 0 <= j < |b.children| => BoxLines(b.children[j]))
  }

  /** The first half of `buildBoxLines`: the box's top edge, its text lines, its bottom edge. */
  method PrintBoxHead(b: Box) returns (lines: seq<string>)
    ensures lines == BoxHead(b)
  {
    var top := PrintBoxEdge(b, true);
    lines := [top];
    for k := 0 to |b.node.boxString|
      invariant lines == [EdgeLine(b, true)]
        + seq(k, k' requires 0 <= k' < k => ValueLine(b, b.node.boxString[k']))
    {
      var line := PrintValueLine(b, b.node.boxString[k]);
      lines := lines + [line];
    }
    var bottom := PrintBoxEdge(b, false);
    lines := lines + [bottom];
  }

  /** The connector part of `buildBoxLines`, for a box with children. */
  method PrintConnectors(b: Box) returns (lines: seq<string>)
    requires |b.children| >= 1
    ensures lines == Connectors(b)
  {
    if |b.children| == 1 {
      lines := [];
      for i := 0 to 2
        invariant lines == seq(i, _ => SingleConnector(b))
      {
        var sb := PrintSingleConnector(b);
        lines := lines + [sb];
      }
    } else {
      var symbolMap := BuildSymbolMap(b);
      var line1 := PrintConnectorLine1(b, symbolMap);
      var line2 := PrintConnectorLine2(b, symbolMap);
      lines := [line1, line2];
    }
  }

  /** The children's half of `buildBoxLines`: one row per line of the tallest child. */
  method PrintChildRows(b: Box, childLines: seq<seq<string>>) returns (rows: seq<string>)
    requires |childLines| == |b.children|
    ensures rows == ChildRows(b, childLines)
  {
    var count := GetChildrenLineCount(childLines);
    rows := [];
    for i := 0 to count
      invariant rows == ChildRows(b, childLines)[..i]
    {
      var row := PrintChildRow(b, childLines, i);
      rows := rows + [row];
    }
  }

  /** `buildBoxLines`: this box's edges and text, the connectors, then the children's rows. */
  method BuildBoxLines(b: Box) returns (lines: seq<string>)
    ensures lines == BoxLines(b)
    decreases b, 1
  {
    var head := PrintBoxHead(b);
    if |b.children| == 0 {
      return head;
    }
    var connectors := PrintConnectors(b);
    var childLines := BuildChildrenLines(b);
    var rows := PrintChildRows(b, childLines);
    lines := head + connectors + rows;
  }

  /** The recursive calls of `buildBoxLines`, one per child in order. */
  method BuildChildrenLines(b: Box) returns (childLines: seq<seq<string>>)
    ensures childLines == ChildLinesOf(b)
    decreases b, 0
  {
    childLines := [];
    for j := 0 to |b.children|
      invariant |childLines| == j
      invariant forall j' :: 0 <= j' < j ==> childLines[j'] == BoxLines(b.children[j'])
    {
      assert b.children[j] in b.children;
      var cl := BuildBoxLines(b.children[j]);
      childLines := childLines + [cl];
    }
  }

  /** `getBoxLines`: build the tree, lay it out, draw it. */
  method GetBoxLines(root: PlanNode) returns (lines: seq<string>)
    ensures lines == BoxLines(Layout(InitialBox(root)))
  {
    var box := BuildBoxTree(root);
    box := CalculateBoxMaxWidth(box);
    lines := BuildBoxLines(box);
  }

  /**
   * A box without children is drawn as exactly its top edge, one line per line of
   * its text, and its bottom edge, every line as wide as the box.
   */
  lemma LeafLines(b: Box)
    requires LaidOut(b) && b.children == []
    ensures |BoxLines(b)| == |b.node.boxString| + 2
    ensures BoxLines(b)[0] == EdgeLine(b, true)
    ensures BoxLines(b)[|BoxLines(b)| - 1] == EdgeLine(b, false)
    ensures forall k :: 0 <= k < |b.node.boxString| ==> BoxLines(b)[k + 1] == ValueLine(b, b.node.boxString[k])
    ensures AllWidth(BoxLines(b), b.maxWidth)
  {
    HeadWidth(b);
  }

  /** A box with children has its head, two connector lines and one row per line of its tallest child. */
  lemma LineCount(b: Box)
    requires b.children != []
    ensures |BoxLines(b)| == |b.node.boxString| + 4
      + MaxLineCount(ChildLinesOf(b))
  {
  }

  // ---------------------------------------------------------------------------
  // Row widths: a child row is not as wide as the box above it

  /** Every line in `lines` has width w. */
  ghost predicate AllWidth(lines: seq<string>, w: nat)
  {
    forall k :: 0 <= k < |lines| ==> |lines[k]| == w
  }

  /** When each child's lines are as wide as that child, row i over j children is their widths plus j spaces. */
  lemma {:induction false} RowWidthOfUniformChildren(childLines: seq<seq<string>>, cs: seq<Box>, i: nat, j: nat)
    requires |childLines| == |cs| && j <= |cs|
    requires forall j' :: 0 <= j' < |cs| ==> AllWidth(childLines[j'], cs[j'].maxWidth)
    ensures |Row(childLines, cs, i, j)| == SumWidths(cs[..j]) + j
    decreases j
  {
    RowLength(childLines, cs, i, j);
    if j > 0 {
      RowWidthOfUniformChildren(childLines, cs, i, j - 1);
      assert cs[..j][..j - 1] == cs[..j - 1];
    }
  }

  /**
   * As written, a box whose leaf children are together at least as wide as the
   * box has every child row one column wider than its own head lines: each child
   * line is followed by a space, the last one included.
   */
  lemma ChildRowsOneTooWide(b: Box)
    requires LaidOut(b) && b.children != []
    requires forall j :: 0 <= j < |b.children| ==> b.children[j].children == []
    requires ChildrenWidth(b.children) >= b.width
    ensures AllWidth(BoxHead(b), b.maxWidth)
    ensures AllWidth(ChildRows(b, ChildLinesOf(b)), b.maxWidth + 1)
  {
    HeadWidth(b);
    var cs := b.children;
    var childLines := ChildLinesOf(b);
    forall j | 0 <= j < |cs|
      ensures AllWidth(childLines[j], cs[j].maxWidth)
    {
      assert LaidOut(cs[j]);
      LeafLines(cs[j]);
    }
    RowsOfUniformChildren(b, childLines);
  }

  /** The rows under children whose lines are as wide as they are have their widths plus one space each. */
  lemma RowsOfUniformChildren(b: Box, childLines: seq<seq<string>>)
    requires |childLines| == |b.children|
    requires forall j' :: 0 <= j' < |b.children| ==> AllWidth(childLines[j'], b.children[j'].maxWidth)
    ensures AllWidth(ChildRows(b, childLines), SumWidths(b.children) + |b.children|)
  {
    var cs := b.children;
    var rows := ChildRows(b, childLines);
    forall i | 0 <= i < |rows|
      ensures |rows[i]| == SumWidths(cs) + |cs|
    {
      RowWidthOfUniformChildren(childLines, cs, i, |cs|);
      assert cs[..|cs|] == cs;
    }
  }

  /** The plan fragment of a two-character node over a four-character leaf. */
  function NarrowOverWide(): PlanNode
  {
    PlanNode(["ab"], [PlanNode(["abcd"], [])])
  }

  /**
   * Drawing `NarrowOverWide` as written: its box is 6 columns wide (the leaf's),
   * its head lines have 6 columns and its first child row has 7.
   */
  lemma NarrowOverWideMisdrawn()
    ensures var b := Layout(InitialBox(NarrowOverWide()));
      && b.maxWidth == 6
      && |BoxLines(b)| == 8
      && |BoxLines(b)[0]| == 6
      && |BoxLines(b)[5]| == 7
  {
    var root := NarrowOverWide();
    var leaf := root.children[0];
    assert LongestLine(leaf.boxString) == 4 by {
      assert leaf.boxString == ["abcd"];
      assert leaf.boxString[..0] == [];
    }
    assert LongestLine(root.boxString) == 2 by {
      assert root.boxString == ["ab"];
      assert root.boxString[..0] == [];
    }
    var lb := Layout(InitialBox(leaf));
    var b := Layout(InitialBox(root));
    assert lb.maxWidth == 6;
    assert b.children == [lb];
    assert [lb][..0] == [];
    assert b.maxWidth == 6;
    LayoutOfTreeIsLaidOut(root);
    ChildRowsOneTooWide(b);
    LeafLines(lb);
    assert MaxLineCount([BoxLines(lb)]) == 3 by {
      var one := [BoxLines(lb)];
      assert one[..0] == [];
    }
    var childLines := ChildLinesOf(b);
    assert childLines == [BoxLines(lb)];
    assert |ChildRows(b, childLines)| == 3;
  }

  // ---------------------------------------------------------------------------
  // The evidently intended child rows

  /** Row i over the first j children joined by single spaces, with no trailing space. */
  function PaddedRow(childLines: seq<seq<string>>, cs: seq<Box>, i: nat, j: nat): string
    requires |childLines| == |cs| && j <= |cs|
  {
    if j == 0 then ""
    else
      var separator := if j > 1 then [INDENT] else [];
      PaddedRow(childLines, cs, i, j - 1) + separator + LineOr(childLines[j - 1], cs[j - 1].maxWidth, i)
  }

  /** Pad s on the right with spaces up to width w. */
  function PadTo(s: string, w: nat): (r: string)
    ensures |s| <= w ==> |r| == w && r[..|s|] == s
    ensures |s| > w ==> r == s
  {
    if |s| < w then s + Spaces(w - |s|) else s
  }

  /** The child rows, each joined without a trailing space and padded to the box's width. */
  function PaddedChildRows(b: Box, childLines: seq<seq<string>>): seq<string>
    requires |childLines| == |b.children|
  {
    seq(MaxLineCount(childLines), i requires 0 <= i =>
      PadTo(PaddedRow(childLines, b.children, i, |b.children|), b.maxWidth))
  }

  /** The box's lines with padded child rows. */
  function PaddedBoxLines(b: Box): seq<string>
    decreases b, 1
  {
    if b.children == [] then BoxHead(b)
    else BoxHead(b) + Connectors(b) + PaddedChildRows(b, PaddedChildLinesOf(b))
  }

  /** The padded lines of each child of b, in order. */
  function PaddedChildLinesOf(b: Box): (r: seq<seq<string>>)
    ensures |r| == |b.children|
    decreases b, 0
  {
    seq(|b.children|, j requires 0 <= j < |b.children| => PaddedBoxLines(b.children[j]))
  }

  /** Row i of uniformly wide children is exactly the children's width, separators included. */
  lemma {:induction false} PaddedRowWidth(childLines: seq<seq<string>>, cs: seq<Box>, i: nat, j: nat)
    requires |childLines| == |cs| && j <= |cs|
    requires forall j' :: 0 <= j' < |cs| ==> AllWidth(childLines[j'], cs[j'].maxWidth)
    ensures |PaddedRow(childLines, cs, i, j)| == ChildrenWidth(cs[..j])
    decreases j
  {
    if j > 0 {
      PaddedRowWidth(childLines, cs, i, j - 1);
      assert cs[..j][..j - 1] == cs[..j - 1];
    }
  }

  /** The head lines of a box, and its connector lines, are as wide as the box. */
  lemma HeadWidth(b: Box)
    ensures AllWidth(BoxHead(b), b.maxWidth)
    ensures |b.children| >= 1 ==> AllWidth(Connectors(b), b.maxWidth)
  {
    var head := BoxHead(b);
    var n := |b.node.boxString|;
    assert |head| == n + 2;
    forall k | 0 <= k < |head|
      ensures |head[k]| == b.maxWidth
    {
      if k == 0 {
        assert head[k] == EdgeLine(b, true);
      } else if k == n + 1 {
        assert head[k] == EdgeLine(b, false);
      } else {
        assert head[k] == ValueLine(b, b.node.boxString[k - 1]);
      }
    }
  }

  /** With padded child rows, every line of a laid-out box has the box's width, at every depth. */
  lemma {:induction false} PaddedLinesUniform(b: Box)
    requires LaidOut(b)
    ensures AllWidth(PaddedBoxLines(b), b.maxWidth)
    decreases b
  {
    HeadWidth(b);
    if b.children != [] {
      var cs := b.children;
      var childLines := PaddedChildLinesOf(b);
      forall j | 0 <= j < |cs|
        ensures AllWidth(childLines[j], cs[j].maxWidth)
      {
        assert cs[j] in cs;
        PaddedLinesUniform(cs[j]);
      }
      PaddedRowsWidth(b, childLines);
      AllWidthConcat(BoxHead(b), Connectors(b), b.maxWidth);
      AllWidthConcat(BoxHead(b) + Connectors(b), PaddedChildRows(b, childLines), b.maxWidth);
    }
  }

  /** Padded rows of uniformly wide children are as wide as a laid-out parent. */
  lemma PaddedRowsWidth(b: Box, childLines: seq<seq<string>>)
    requires |childLines| == |b.children|
    requires b.maxWidth >= ChildrenWidth(b.children)
    requires forall j :: 0 <= j < |b.children| ==> AllWidth(childLines[j], b.children[j].maxWidth)
    ensures AllWidth(PaddedChildRows(b, childLines), b.maxWidth)
  {
    var cs := b.children;
    assert cs[..|cs|] == cs;
    forall i: nat | i < MaxLineCount(childLines)
      ensures |PadTo(PaddedRow(childLines, cs, i, |cs|), b.maxWidth)| == b.maxWidth
    {
      PaddedRowWidth(childLines, cs, i, |cs|);
    }
  }

  /** Two runs of lines of one width join into a run of that width. */
  lemma AllWidthConcat(xs: seq<string>, ys: seq<string>, w: nat)
    requires AllWidth(xs, w) && AllWidth(ys, w)
    ensures AllWidth(xs + ys, w)
  {
    forall k | 0 <= k < |xs + ys|
      ensures |(xs + ys)[k]| == w
    {
      if k >= |xs| { assert (xs + ys)[k] == ys[k - |xs|]; }
    }
  }

  /** A leaf is drawn the same way with or without the padding. */
  lemma PaddingKeepsLeaves(b: Box)
    requires b.children == []
    ensures PaddedBoxLines(b) == BoxLines(b)
  {
  }
}
