/**
 * The career map page: zoom buttons with a clamped scale, panning with the
 * mouse, and the horizontal layout of the career nodes and the lines that
 * join them. The scale is kept in hundredths (1 is 100), which turns the
 * 0.2 zoom step into an exact 20.
 */
module CareerMap {
  import opened Common

  datatype NodeType = Past | Current | Future

  const NodeWidth: int := 180
  const NodeGap: int := 100
  const StartX: int := 100
  const CenterY: int := 200

  const MinScale: int := 50
  const MaxScale: int := 200
  const ScaleStep: int := 20

  /** The types of the seven sample nodes: three past positions, the current one, three possible futures. */
  const SampleTypes: seq<NodeType> := [Past, Past, Past, Current, Future, Future, Future]

  class MapView {
    /** The zoom level in hundredths. */
    var scale: int
    var panX: int
    var panY: int
    var isPanning: bool
    var startPanX: int
    var startPanY: int

    predicate Valid()
      reads this
    {
      MinScale <= scale <= MaxScale
    }

    constructor()
      ensures Valid()
      ensures scale == 100 && panX == 0 && panY == 0 && !isPanning && startPanX == 0 && startPanY == 0
    {
      scale := 100;
      panX, panY := 0, 0;
      isPanning := false;
      startPanX, startPanY := 0, 0;
    }

    /** handleZoomIn: one step up, never past 2. */
    method ZoomIn()
      requires Valid()
      modifies this
      ensures Valid()
      ensures scale == Min(old(scale) + ScaleStep, MaxScale)
      ensures old(scale) == MaxScale ==> scale == MaxScale
      ensures old(scale) < MaxScale ==> scale > old(scale)
      ensures panX == old(panX) && panY == old(panY) && isPanning == old(isPanning)
      ensures startPanX == old(startPanX) && startPanY == old(startPanY)
    {
      scale := Min(scale + ScaleStep, MaxScale);
    }

    /** handleZoomOut: one step down, never below 0.5. */
    method ZoomOut()
      requires Valid()
      modifies this
      ensures Valid()
      ensures scale == Max(old(scale) - ScaleStep, MinScale)
      ensures old(scale) == MinScale ==> scale == MinScale
      ensures old(scale) > MinScale ==> scale < old(scale)
      ensures panX == old(panX) && panY == old(panY) && isPanning == old(isPanning)
      ensures startPanX == old(startPanX) && startPanY == old(startPanY)
    {
      scale := Max(scale - ScaleStep, MinScale);
    }

    /** handleReset: scale 1 and no pan. */
    method Reset()
      requires Valid()
      modifies this
      ensures Valid()
      ensures scale == 100 && panX == 0 && panY == 0
      ensures isPanning == old(isPanning) && startPanX == old(startPanX) && startPanY == old(startPanY)
    {
      scale := 100;
      panX, panY := 0, 0;
    }

    /** handleMouseDown: only the main button starts panning, remembering the cursor relative to the pan. */
    method MouseDown(button: int, clientX: int, clientY: int)
      requires Valid()
      modifies this
      ensures Valid()
      ensures button != 0 ==>
        isPanning == old(isPanning) && startPanX == old(startPanX) && startPanY == old(startPanY)
      ensures button == 0 ==>
        isPanning && startPanX == clientX - old(panX) && startPanY == clientY - old(panY)
      ensures scale == old(scale) && panX == old(panX) && panY == old(panY)
    {
      if button != 0 {
        return;
      }
      isPanning := true;
      startPanX, startPanY := clientX - panX, clientY - panY;
    }

    /** handleMouseMove: while panning the pan follows the cursor; otherwise nothing changes. */
    method MouseMove(clientX: int, clientY: int)
      requires Valid()
      modifies this
      ensures Valid()
      ensures !old(isPanning) ==> panX == old(panX) && panY == old(panY)
      ensures old(isPanning) ==> panX == clientX - startPanX && panY == clientY - startPanY
      ensures scale == old(scale) && isPanning == old(isPanning)
      ensures startPanX == old(startPanX) && startPanY == old(startPanY)
    {
      if !isPanning {
        return;
      }
      panX, panY := clientX - startPanX, clientY - startPanY;
    }

    /** handleMouseUp, also bound to leaving the canvas: panning ends. */
    method MouseUp()
      requires Valid()
      modifies this
      ensures Valid()
      ensures !isPanning
      ensures scale == old(scale) && panX == old(panX) && panY == old(panY)
      ensures startPanX == old(startPanX) && startPanY == old(startPanY)
    {
      isPanning := false;
    }
  }

  /** A press of the main button followed by moves: the pan is the pan at the press plus the cursor's travel since. */
  method DragThenMove(m: MapView, x0: int, y0: int, moves: seq<(int, int)>)
    requires m.Valid()
    modifies m
    ensures m.Valid() && m.isPanning && m.scale == old(m.scale)
    ensures moves == [] ==> m.panX == old(m.panX) && m.panY == old(m.panY)
    ensures moves != [] ==>
      m.panX == old(m.panX) + (moves[|moves| - 1].0 - x0) && m.panY == old(m.panY) + (moves[|moves| - 1].1 - y0)
  {
    m.MouseDown(0, x0, y0);
    var i := 0;
    while i < |moves|
      invariant 0 <= i <= |moves|
      invariant m.Valid() && m.isPanning && m.scale == old(m.scale)
      invariant m.startPanX == x0 - old(m.panX) && m.startPanY == y0 - old(m.panY)
      invariant i == 0 ==> m.panX == old(m.panX) && m.panY == old(m.panY)
      invariant i > 0 ==> m.panX == old(m.panX) + (moves[i - 1].0 - x0) && m.panY == old(m.panY) + (moves[i - 1].1 - y0)
    {
      m.MouseMove(moves[i].0, moves[i].1);
      i := i + 1;
    }
  }

  /** Zooming in n times from any valid scale stays within [0.5, 2], and eight presses reach 2 from anywhere. */
  lemma {:induction false} ZoomInStaysBounded(s: int, n: nat)
    requires MinScale <= s <= MaxScale
    ensures MinScale <= ZoomInTimes(s, n) <= MaxScale
    ensures n >= 8 ==> ZoomInTimes(s, n) == MaxScale
    decreases n
  {
    if n > 0 {
      ZoomInStaysBounded(Min(s + ScaleStep, MaxScale), n - 1);
      if n >= 8 {
        assert ScaleStep * n >= ScaleStep * 8;
        ZoomInReaches(s, n);
      }
    }
  }

  lemma {:induction false} ZoomInReaches(s: int, n: nat)
    requires MinScale <= s <= MaxScale && s + ScaleStep * n >= MaxScale
    ensures ZoomInTimes(s, n) == MaxScale
    decreases n
  {
    if n > 0 {
      if s + ScaleStep >= MaxScale {
        ZoomInAtMax(n - 1);
      } else {
        ZoomInReaches(s + ScaleStep, n - 1);
      }
    }
  }

  lemma {:induction false} ZoomInAtMax(n: nat)
    ensures ZoomInTimes(MaxScale, n) == MaxScale
  {
    if n > 0 {
      ZoomInAtMax(n - 1);
    }
  }

  /** The scale after n presses of the zoom-in button. */
  function ZoomInTimes(s: int, n: nat): int
    decreases n
  {
    if n == 0 then s else ZoomInTimes(Min(s + ScaleStep, MaxScale), n - 1)
  }

  /** The left edge of node `i`: each node is 180 wide and followed by a 100 gap. */
  function NodeX(i: nat): int
  {
    StartX + i * (NodeWidth + NodeGap)
  }

  /** One connecting line: its two ends on the centre line and its style. */
  datatype Line = Line(x1: int, x2: int, dashed: bool, halfOpacity: bool)

  /** A line is drawn as a future path when either end is a possible future position. */
  predicate IsFuturePath(types: seq<NodeType>, i: nat)
    requires i + 1 < |types|
  {
    types[i] == Future || types[i + 1] == Future
  }

  /** The lines between consecutive nodes: every node but the last draws one to its successor. */
  function Connectors(types: seq<NodeType>): (ls: seq<Line>)
    ensures |ls| == if types == [] then 0 else |types| - 1
  {
    if |types| <= 1 then []
    else
      seq(|types| - 1, i requires 0 <= i < |types| - 1 =>
        var f := IsFuturePath(types, i);
        Line(NodeX(i) + NodeWidth, NodeX(i + 1), f, f))
  }

  /** Each line starts at the right edge of its node, ends at the left edge of the next, and spans exactly the gap. */
  lemma ConnectorGeometry(types: seq<NodeType>, i: nat)
    requires i + 1 < |types|
    ensures var l := Connectors(types)[i];
      && l.x1 == NodeX(i) + NodeWidth && l.x2 == NodeX(i + 1)
      && l.x2 - l.x1 == NodeGap
      && (l.dashed <==> types[i] == Future || types[i + 1] == Future)
      && l.dashed == l.halfOpacity
  {
  }

  /** Nodes never overlap: each ends before the next begins. */
  lemma NodesDisjoint(i: nat, j: nat)
    requires i < j
    ensures NodeX(i) + NodeWidth < NodeX(j)
  {
    assert (j - i) * (NodeWidth + NodeGap) >= NodeWidth + NodeGap;
    assert NodeX(j) - NodeX(i) == (j - i) * (NodeWidth + NodeGap);
  }

  /** On the sample path the three lines through the past are solid and the three that reach a future are dashed. */
  lemma SampleLines()
    ensures var ls := Connectors(SampleTypes);
      && |ls| == 6
      && (forall i :: 0 <= i < 3 ==> !ls[i].dashed)
      && (forall i :: 3 <= i < 6 ==> ls[i].dashed)
  {
  }
}
