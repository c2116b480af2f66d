/**
 * `src/components/treeView/TreeGraph.tsx`: turning the topology payload into
 * nodes and edges, laying out the connected part (the layered layout itself
 * is an input), packing the disconnected nodes into a grid below it, and the
 * paint-order moves for hover and click.
 */
module TreeGraph {
  import opened Wrappers
  import opened TreeViewTypes
  import opened Utils

  // ================================================================ nodes and edges

  /** The node made of a machine: the two flags say whether its id is on the bypass and not-allowed lists. */
  function RawNode(t: TreeData, m: Machine): Node
  {
    Node(
      m.machineId,
      NodeData(m.machineId in t.bypassList, m.machineId in t.notAllowedList,
               m.name, m.stationNumber, m.inputStations),
      Point(0.0, 0.0), None, None, false)
  }

  /** `rawNodes`: one node per machine, in payload order. */
  function RawNodes(t: TreeData): (r: seq<Node>)
    ensures |r| == |t.machines|
    ensures forall i :: 0 <= i < |r| ==>
      && r[i].id == t.machines[i].machineId
      && (r[i].data.isBypass <==> t.machines[i].machineId in t.bypassList)
      && (r[i].data.isNotAllowed <==> t.machines[i].machineId in t.notAllowedList)
      && r[i].data.name == t.machines[i].name
      && r[i].data.stationNumber == t.machines[i].stationNumber
      && r[i].data.inputStations == t.machines[i].inputStations
      && r[i].position == Point(0.0, 0.0) && !r[i].selected
      && r[i].sourcePosition.None? && r[i].targetPosition.None?
  {
    seq(|t.machines|, i requires 0 <= i < |t.machines| => RawNode(t, t.machines[i]))
  }

  function MachineIds(ms: seq<Machine>): set<string> {
    set m | m in ms :: m.machineId
  }

  /** The edge from input station `input` into machine `target`. */
  function MakeEdge(input: string, target: string, edgeType: EdgeType, dir: Direction): Edge {
    Edge(input + "-" + target, input, target,
         if input == target then SelfConnecting else Styled(edgeType), dir)
  }

  /** `input_stations.filter(...)`: the listed inputs that are some machine's id, in list order. */
  function KnownInputs(inputs: seq<string>, ids: set<string>): seq<string>
  {
    if |inputs| == 0 then []
    else if inputs[0] in ids then [inputs[0]] + KnownInputs(inputs[1..], ids)
    else KnownInputs(inputs[1..], ids)
  }

  /**
   * The filter keeps every known input as often as it is listed, drops every
   * other one, and keeps the list order.
   */
  lemma {:induction false} KnownInputsKept(inputs: seq<string>, ids: set<string>)
    ensures forall x :: multiset(KnownInputs(inputs, ids))[x] == if x in ids then multiset(inputs)[x] else 0
    ensures Subsequence(KnownInputs(inputs, ids), inputs)
  {
    if |inputs| > 0 {
      KnownInputsKept(inputs[1..], ids);
      assert inputs == [inputs[0]] + inputs[1..];
      var r := KnownInputs(inputs, ids);
      if inputs[0] in ids {
        assert r[0] == inputs[0] && r[1..] == KnownInputs(inputs[1..], ids);
      } else if |r| > 0 {
        assert multiset(r)[r[0]] > 0;
        assert r[0] != inputs[0];
      }
    }
  }

  /** The edges into `target`: `.map` over the known inputs, one edge per known input, in list order. */
  function EdgesInto(inputs: seq<string>, target: string, ids: set<string>,
                     edgeType: EdgeType, dir: Direction): (r: seq<Edge>)
    ensures |r| == |KnownInputs(inputs, ids)|
    ensures forall k :: 0 <= k < |r| ==> r[k] == MakeEdge(KnownInputs(inputs, ids)[k], target, edgeType, dir)
    ensures forall e :: e in r <==>
      exists input :: input in inputs && input in ids && e == MakeEdge(input, target, edgeType, dir)
  {
    if |inputs| == 0 then []
    else
      var rest := EdgesInto(inputs[1..], target, ids, edgeType, dir);
      assert forall input :: input in inputs <==> input == inputs[0] || input in inputs[1..];
      if inputs[0] in ids then [MakeEdge(inputs[0], target, edgeType, dir)] + rest else rest
  }

  function EdgesOf(ms: seq<Machine>, ids: set<string>, edgeType: EdgeType, dir: Direction): seq<Edge>
  {
    if |ms| == 0 then []
    else EdgesInto(ms[0].inputStations, ms[0].machineId, ids, edgeType, dir) + EdgesOf(ms[1..], ids, edgeType, dir)
  }

  /** `rawEdges`: the `flatMap` over all machines of their edges. */
  function RawEdges(t: TreeData, edgeType: EdgeType, dir: Direction): seq<Edge>
  {
    EdgesOf(t.machines, MachineIds(t.machines), edgeType, dir)
  }

  lemma {:induction false} EdgesOfMembership(ms: seq<Machine>, ids: set<string>, edgeType: EdgeType, dir: Direction)
    ensures forall e :: e in EdgesOf(ms, ids, edgeType, dir) <==>
      exists m, input :: m in ms && input in m.inputStations && input in ids
                         && e == MakeEdge(input, m.machineId, edgeType, dir)
  {
    if |ms| > 0 {
      EdgesOfMembership(ms[1..], ids, edgeType, dir);
      assert forall m :: m in ms <==> m == ms[0] || m in ms[1..];
    }
  }

  /** The number of known inputs over all machines. */
  function KnownInputTotal(ms: seq<Machine>, ids: set<string>): nat
  {
    if |ms| == 0 then 0 else |KnownInputs(ms[0].inputStations, ids)| + KnownInputTotal(ms[1..], ids)
  }

  /**
   * The `flatMap` gives one edge per known input of each machine, machine by
   * machine: its edges are those into the first machine followed by those of
   * the rest, so there are as many as known inputs in total.
   */
  lemma {:induction false} EdgesOfLayout(ms: seq<Machine>, ids: set<string>, edgeType: EdgeType, dir: Direction)
    ensures |EdgesOf(ms, ids, edgeType, dir)| == KnownInputTotal(ms, ids)
    ensures |ms| > 0 ==> EdgesOf(ms, ids, edgeType, dir)[..|KnownInputs(ms[0].inputStations, ids)|]
                         == EdgesInto(ms[0].inputStations, ms[0].machineId, ids, edgeType, dir)
  {
    if |ms| > 0 {
      EdgesOfLayout(ms[1..], ids, edgeType, dir);
      var first := EdgesInto(ms[0].inputStations, ms[0].machineId, ids, edgeType, dir);
      assert (first + EdgesOf(ms[1..], ids, edgeType, dir))[..|first|] == first;
    }
  }

  /**
   * An edge exists exactly for each machine and each of its input stations
   * that is some machine's id; it runs from the input to the machine, and it
   * is a self-connecting edge exactly when the two are the same machine.
   */
  lemma RawEdgesCharacterized(t: TreeData, edgeType: EdgeType, dir: Direction)
    ensures forall e :: e in RawEdges(t, edgeType, dir) <==>
      exists m, input :: m in t.machines && input in m.inputStations && input in MachineIds(t.machines)
                         && e == MakeEdge(input, m.machineId, edgeType, dir)
    ensures forall e :: e in RawEdges(t, edgeType, dir) ==>
      && e.source in MachineIds(t.machines) && e.target in MachineIds(t.machines)
      && e.id == e.source + "-" + e.target
      && (e.kind == SelfConnecting <==> e.source == e.target)
      && (e.kind != SelfConnecting ==> e.kind == Styled(edgeType))
  {
    EdgesOfMembership(t.machines, MachineIds(t.machines), edgeType, dir);
  }

  /** `connectedNodeIds`: every id that is an end of some edge. */
  function Endpoints(edges: seq<Edge>): set<string> {
    (set e | e in edges :: e.source) + (set e | e in edges :: e.target)
  }

  // ================================================================ partition

  /** The nodes whose id is (`keep`) or is not (`!keep`) in `ids`, in their order: `filter`. */
  function KeepIf(nds: seq<Node>, ids: set<string>, keep: bool): seq<Node>
  {
    if |nds| == 0 then []
    else if (nds[0].id in ids) == keep then [nds[0]] + KeepIf(nds[1..], ids, keep)
    else KeepIf(nds[1..], ids, keep)
  }

  /** The filter keeps exactly the nodes whose id is (or is not) in `ids`. */
  lemma {:induction false} KeepIfMembers(nds: seq<Node>, ids: set<string>, keep: bool)
    ensures forall n :: n in KeepIf(nds, ids, keep) <==> n in nds && (n.id in ids) == keep
  {
    if |nds| > 0 {
      KeepIfMembers(nds[1..], ids, keep);
      assert forall n :: n in nds <==> n == nds[0] || n in nds[1..];
    }
  }

  function Connected(nds: seq<Node>, ids: set<string>): seq<Node> { KeepIf(nds, ids, true) }

  function Disconnected(nds: seq<Node>, ids: set<string>): seq<Node> { KeepIf(nds, ids, false) }

  /** `a` is `b` with some elements left out, the rest in their order. */
  predicate Subsequence<T(==)>(a: seq<T>, b: seq<T>)
    decreases |b|
  {
    if |a| == 0 then true
    else if |b| == 0 then false
    else if a[0] == b[0] then Subsequence(a[1..], b[1..])
    else Subsequence(a, b[1..])
  }

  lemma {:induction false} KeepIfIsSubsequence(nds: seq<Node>, ids: set<string>, keep: bool)
    ensures Subsequence(KeepIf(nds, ids, keep), nds)
  {
    if |nds| > 0 {
      KeepIfIsSubsequence(nds[1..], ids, keep);
      var r := KeepIf(nds, ids, keep);
      if (nds[0].id in ids) == keep {
        assert r[0] == nds[0] && r[1..] == KeepIf(nds[1..], ids, keep);
      } else if |r| > 0 {
        KeepIfMembers(nds[1..], ids, keep);
        assert r[0] in r;
        assert r[0] != nds[0];
      }
    }
  }

  lemma {:induction false} KeepIfPartition(nds: seq<Node>, ids: set<string>)
    ensures multiset(KeepIf(nds, ids, true)) + multiset(KeepIf(nds, ids, false)) == multiset(nds)
  {
    if |nds| > 0 {
      KeepIfPartition(nds[1..], ids);
      assert nds == [nds[0]] + nds[1..];
      var keep := nds[0].id in ids;
      assert KeepIf(nds, ids, keep) == [nds[0]] + KeepIf(nds[1..], ids, keep);
      assert KeepIf(nds, ids, !keep) == KeepIf(nds[1..], ids, !keep);
    }
  }

  /**
   * A node is connected exactly when its id ends some edge; the connected and
   * the disconnected nodes split the node list between them, each in list order.
   */
  lemma PartitionOfNodes(nds: seq<Node>, edges: seq<Edge>)
    ensures forall n :: n in Connected(nds, Endpoints(edges)) <==>
      n in nds && exists e :: e in edges && (e.source == n.id || e.target == n.id)
    ensures forall n :: n in Disconnected(nds, Endpoints(edges)) <==>
      n in nds && forall e :: e in edges ==> e.source != n.id && e.target != n.id
    ensures multiset(Connected(nds, Endpoints(edges))) + multiset(Disconnected(nds, Endpoints(edges))) == multiset(nds)
    ensures Subsequence(Connected(nds, Endpoints(edges)), nds)
    ensures Subsequence(Disconnected(nds, Endpoints(edges)), nds)
  {
    KeepIfMembers(nds, Endpoints(edges), true);
    KeepIfMembers(nds, Endpoints(edges), false);
    KeepIfPartition(nds, Endpoints(edges));
    KeepIfIsSubsequence(nds, Endpoints(edges), true);
    KeepIfIsSubsequence(nds, Endpoints(edges), false);
  }

  // ================================================================ connected layout

  function Max(a: real, b: real): real { if a >= b then a else b }

  /** A node placed by the layered layout: its box is centred on `centre`, its ports face the layout direction. */
  function Placed(n: Node, centre: Point, dir: Direction): (r: Node)
    ensures r == n.(position := r.position, sourcePosition := r.sourcePosition, targetPosition := r.targetPosition)
    ensures r.position.x + NodeWidth / 2.0 == centre.x && r.position.y + NodeHeight / 2.0 == centre.y
    ensures dir == TB ==> r.sourcePosition == Some(Bottom) && r.targetPosition == Some(Top)
    ensures dir == LR ==> r.sourcePosition == Some(Right) && r.targetPosition == Some(Left)
  {
    n.(position := Point(centre.x - NodeWidth / 2.0, centre.y - NodeHeight / 2.0),
       sourcePosition := Some(if dir == TB then Bottom else Right),
       targetPosition := Some(if dir == TB then Top else Left))
  }

  function PlaceAll(nds: seq<Node>, centreOf: string -> Point, dir: Direction): (r: seq<Node>)
    ensures |r| == |nds| && forall i :: 0 <= i < |nds| ==> r[i] == Placed(nds[i], centreOf(nds[i].id), dir)
  {
    seq(|nds|, i requires 0 <= i < |nds| => Placed(nds[i], centreOf(nds[i].id), dir))
  }

  /** `maxX` of the connected layout: the largest centre x plus a full node width, and never below 0. */
  function RightExtent(nds: seq<Node>, centreOf: string -> Point): real
  {
    if |nds| == 0 then 0.0
    else Max(RightExtent(nds[..|nds| - 1], centreOf), centreOf(nds[|nds| - 1].id).x + NodeWidth)
  }

  /** `maxY` of the connected layout: the largest centre y plus a full node height, and never below 0. */
  function BottomExtent(nds: seq<Node>, centreOf: string -> Point): real
  {
    if |nds| == 0 then 0.0
    else Max(BottomExtent(nds[..|nds| - 1], centreOf), centreOf(nds[|nds| - 1].id).y + NodeHeight)
  }

  /** The extents are maxima: not below 0 or any node's value, and equal to 0 or to some node's value. */
  lemma {:induction false} ExtentsAreMaxima(nds: seq<Node>, centreOf: string -> Point)
    ensures RightExtent(nds, centreOf) >= 0.0 && BottomExtent(nds, centreOf) >= 0.0
    ensures forall n :: n in nds ==>
      RightExtent(nds, centreOf) >= centreOf(n.id).x + NodeWidth
      && BottomExtent(nds, centreOf) >= centreOf(n.id).y + NodeHeight
    ensures RightExtent(nds, centreOf) == 0.0
         || exists n :: n in nds && RightExtent(nds, centreOf) == centreOf(n.id).x + NodeWidth
    ensures BottomExtent(nds, centreOf) == 0.0
         || exists n :: n in nds && BottomExtent(nds, centreOf) == centreOf(n.id).y + NodeHeight
  {
    if |nds| > 0 {
      var front := nds[..|nds| - 1];
      ExtentsAreMaxima(front, centreOf);
      assert nds == front + [nds[|nds| - 1]];
      assert forall n :: n in nds <==> n in front || n == nds[|nds| - 1];
    }
  }

  /**
   * The post-processing of `layoutConnectedNodes`: each node, in place, gets
   * the top-left corner of a box centred on its layout centre and the ports of
   * the direction, while `maxX`/`maxY` accumulate the extents.
   */
  method LayoutConnectedNodes(nodes: array<Node>, centreOf: string -> Point, dir: Direction)
    returns (maxX: real, maxY: real)
    modifies nodes
    ensures nodes[..] == PlaceAll(old(nodes[..]), centreOf, dir)
    ensures maxX == RightExtent(old(nodes[..]), centreOf) && maxY == BottomExtent(old(nodes[..]), centreOf)
  {
    maxX, maxY := 0.0, 0.0;
    var i := 0;
    while i < nodes.Length
      invariant 0 <= i <= nodes.Length
      invariant forall k :: 0 <= k < i ==> nodes[k] == Placed(old(nodes[k]), centreOf(old(nodes[k]).id), dir)
      invariant forall k :: i <= k < nodes.Length ==> nodes[k] == old(nodes[k])
      invariant maxX == RightExtent(old(nodes[..i]), centreOf) && maxY == BottomExtent(old(nodes[..i]), centreOf)
    {
      var centre := centreOf(nodes[i].id);
      assert old(nodes[..i + 1])[..i] == old(nodes[..i]);
      nodes[i] := Placed(nodes[i], centre, dir);
      maxX := Max(maxX, centre.x + NodeWidth);
      maxY := Max(maxY, centre.y + NodeHeight);
      i := i + 1;
    }
    assert old(nodes[..nodes.Length]) == old(nodes[..]);
  }

  // ================================================================ disconnected packing

  /** Move a cursor that would let a node pass `maxX` to the start of the next row. */
  function Wrap(c: Point, maxX: real): Point
  {
    if c.x + NodeWidth > maxX then Point(0.0, c.y + NodeHeight + 10.0) else c
  }

  /** The position of the `k`-th disconnected node, counted from 0. */
  function Slot(k: nat, maxX: real, maxY: real): Point
  {
    if k == 0 then Wrap(Point(0.0, maxY + 100.0), maxX)
    else
      var prev := Slot(k - 1, maxX, maxY);
      Wrap(Point(prev.x + NodeWidth + 10.0, prev.y), maxX)
  }

  /** The cursor `(currentX, currentY)` before the `k`-th node is placed. */
  function Cursor(k: nat, maxX: real, maxY: real): Point
  {
    if k == 0 then Point(0.0, maxY + 100.0)
    else
      var prev := Slot(k - 1, maxX, maxY);
      Point(prev.x + NodeWidth + 10.0, prev.y)
  }

  /** The packed nodes: only their positions change, to consecutive slots. */
  function Pack(nds: seq<Node>, maxX: real, maxY: real): (r: seq<Node>)
    ensures |r| == |nds|
    ensures forall i :: 0 <= i < |r| ==> r[i] == nds[i].(position := r[i].position)
  {
    seq(|nds|, i requires 0 <= i < |nds| => nds[i].(position := Slot(i, maxX, maxY)))
  }

  /** `layoutDisconnectedNodes`: walk a cursor along rows below `maxY`, wrapping before `maxX`. */
  method LayoutDisconnectedNodes(nodes: seq<Node>, maxX: real, maxY: real) returns (packed: seq<Node>)
    ensures packed == Pack(nodes, maxX, maxY)
  {
    var currentX := 0.0;
    var currentY := maxY + 100.0;
    packed := [];
    var i := 0;
    while i < |nodes|
      invariant 0 <= i <= |nodes|
      invariant packed == Pack(nodes, maxX, maxY)[..i]
      invariant Point(currentX, currentY) == Cursor(i, maxX, maxY)
    {
      ghost var cursor := Point(currentX, currentY);
      if currentX + NodeWidth > maxX {
        currentX := 0.0;
        currentY := currentY + NodeHeight + 10.0;
      }
      assert Point(currentX, currentY) == Wrap(cursor, maxX);
      PackStep(nodes, packed, i, maxX, maxY);
      packed := packed + [nodes[i].(position := Point(currentX, currentY))];
      currentX := currentX + NodeWidth + 10.0;
      i := i + 1;
    }
    WholePrefix(Pack(nodes, maxX, maxY));
  }

  lemma WholePrefix<T>(s: seq<T>)
    ensures s[..|s|] == s
  {
  }

  /** Placing node `i` at the wrapped cursor extends the packed prefix, and moves the cursor one step on. */
  lemma PackStep(nodes: seq<Node>, packed: seq<Node>, i: nat, maxX: real, maxY: real)
    requires i < |nodes| && packed == Pack(nodes, maxX, maxY)[..i]
    ensures var slot := Wrap(Cursor(i, maxX, maxY), maxX);
      && packed + [nodes[i].(position := slot)] == Pack(nodes, maxX, maxY)[..i + 1]
      && Cursor(i + 1, maxX, maxY) == Point(slot.x + NodeWidth + 10.0, slot.y)
  {
    SlotIsWrappedCursor(i, maxX, maxY);
    var goal := Pack(nodes, maxX, maxY);
    assert goal[i] == nodes[i].(position := Slot(i, maxX, maxY));
    PrefixExtend(goal, packed, i);
  }

  /** Extending the prefix of length `i` by the element at `i` gives the next prefix. */
  lemma PrefixExtend<T>(s: seq<T>, prefix: seq<T>, i: nat)
    requires i < |s| && prefix == s[..i]
    ensures prefix + [s[i]] == s[..i + 1]
  {
  }

  lemma SlotIsWrappedCursor(k: nat, maxX: real, maxY: real)
    ensures Slot(k, maxX, maxY) == Wrap(Cursor(k, maxX, maxY), maxX)
    ensures Cursor(k + 1, maxX, maxY) == Point(Slot(k, maxX, maxY).x + NodeWidth + 10.0, Slot(k, maxX, maxY).y)
  {
  }

  /** Every packed node lies at least 100 below `maxY`, and starts a row or ends left of `maxX`. */
  lemma {:induction false} SlotBounds(k: nat, maxX: real, maxY: real)
    ensures Slot(k, maxX, maxY).y >= maxY + 100.0
    ensures Slot(k, maxX, maxY).x >= 0.0
    ensures Slot(k, maxX, maxY).x == 0.0 || Slot(k, maxX, maxY).x + NodeWidth <= maxX
  {
    if k > 0 {
      SlotBounds(k - 1, maxX, maxY);
    }
  }

  /** The next node sits one step to the right in the same row, or at the start of the next row. */
  lemma SlotStep(k: nat, maxX: real, maxY: real)
    ensures var p, q := Slot(k, maxX, maxY), Slot(k + 1, maxX, maxY);
      || (q.x == p.x + NodeWidth + 10.0 && q.y == p.y && q.x + NodeWidth <= maxX)
      || (q.x == 0.0 && q.y == p.y + NodeHeight + 10.0)
  {
  }

  /** A later node is to the right in the same row, clear of the earlier box, or in a row below it. */
  predicate ClearAfter(p: Point, q: Point)
  {
    (q.y == p.y && q.x >= p.x + NodeWidth + 10.0) || q.y >= p.y + NodeHeight + 10.0
  }

  /** No two packed boxes overlap, so in particular no two packed nodes share a position. */
  lemma {:induction false} SlotsDoNotOverlap(i: nat, j: nat, maxX: real, maxY: real)
    requires i < j
    ensures ClearAfter(Slot(i, maxX, maxY), Slot(j, maxX, maxY))
    ensures Slot(i, maxX, maxY).y <= Slot(j, maxX, maxY).y
    ensures Slot(i, maxX, maxY) != Slot(j, maxX, maxY)
    decreases j
  {
    SlotStep(j - 1, maxX, maxY);
    if i < j - 1 {
      SlotsDoNotOverlap(i, j - 1, maxX, maxY);
    }
  }

  /**
   * When `maxX` is below one node width (0 when nothing is connected) every
   * node wraps, even the first: one column at x = 0 starting 170 below `maxY`.
   */
  lemma {:induction false} NarrowPackingIsOneColumn(k: nat, maxX: real, maxY: real)
    requires maxX < NodeWidth
    ensures Slot(k, maxX, maxY) == Point(0.0, maxY + 170.0 + (k as real) * 70.0)
  {
    if k > 0 {
      NarrowPackingIsOneColumn(k - 1, maxX, maxY);
    }
  }

  /** The first node wraps unless one node width fits under `maxX`. */
  lemma FirstSlot(maxX: real, maxY: real)
    ensures maxX >= NodeWidth ==> Slot(0, maxX, maxY) == Point(0.0, maxY + 100.0)
    ensures maxX < NodeWidth ==> Slot(0, maxX, maxY) == Point(0.0, maxY + 170.0)
  {
  }

  // ================================================================ whole layout

  /**
   * `formatRawDataAndSetLayout`: nothing happens without machines; otherwise
   * the disconnected nodes, packed below the connected layout, come first and
   * the laid-out connected nodes after them, with the raw edges. The layered
   * layout's node centres are the input `centreOf`.
   */
  method FormatRawDataAndSetLayout(t: TreeData, centreOf: string -> Point, dir: Direction, edgeType: EdgeType)
    returns (laidOut: Option<(seq<Node>, seq<Edge>)>)
    ensures laidOut.None? <==> |t.machines| == 0
    ensures laidOut.Some? ==>
      var raw := RawNodes(t);
      var ids := Endpoints(RawEdges(t, edgeType, dir));
      var connected := Connected(raw, ids);
      && laidOut.value.1 == RawEdges(t, edgeType, dir)
      && laidOut.value.0 == Pack(Disconnected(raw, ids), RightExtent(connected, centreOf), BottomExtent(connected, centreOf))
                            + PlaceAll(connected, centreOf, dir)
    ensures laidOut.Some? ==> multiset(Ids(laidOut.value.0)) == multiset(Ids(RawNodes(t)))
  {
    if |t.machines| == 0 {
      return None;
    }
    var raw := RawNodes(t);
    var edges := RawEdges(t, edgeType, dir);
    var ids := Endpoints(edges);
    var disconnected := Disconnected(raw, ids);
    var connected := Connected(raw, ids);
    var a := new Node[|connected|](i requires 0 <= i < |connected| => connected[i]);
    assert a[..] == connected;
    var maxX, maxY := LayoutConnectedNodes(a, centreOf, dir);
    var packed := LayoutDisconnectedNodes(disconnected, maxX, maxY);
    laidOut := Some((packed + a[..], edges));
    IdsAppend(packed, a[..]);
    IdsPreservedByLayout(raw, ids, packed, a[..]);
  }

  lemma IdsPreservedByLayout(raw: seq<Node>, ids: set<string>, packed: seq<Node>, placed: seq<Node>)
    requires |packed| == |Disconnected(raw, ids)| && forall i :: 0 <= i < |packed| ==> packed[i].id == Disconnected(raw, ids)[i].id
    requires |placed| == |Connected(raw, ids)| && forall i :: 0 <= i < |placed| ==> placed[i].id == Connected(raw, ids)[i].id
    ensures multiset(Ids(packed) + Ids(placed)) == multiset(Ids(raw))
  {
    var disc, conn := Disconnected(raw, ids), Connected(raw, ids);
    assert Ids(packed) == Ids(disc) by {
      forall i | 0 <= i < |packed| ensures Ids(packed)[i] == Ids(disc)[i] {}
    }
    assert Ids(placed) == Ids(conn) by {
      forall i | 0 <= i < |placed| ensures Ids(placed)[i] == Ids(conn)[i] {}
    }
    KeepIfPartitionIds(raw, ids);
    ConcatOfParts(Ids(packed), Ids(placed), multiset(Ids(raw)));
  }

  /** Two parts that together make up `whole` make it up in either order. */
  lemma ConcatOfParts<T>(a: seq<T>, b: seq<T>, whole: multiset<T>)
    requires multiset(b) + multiset(a) == whole
    ensures multiset(a + b) == whole
  {
  }

  lemma {:induction false} KeepIfPartitionIds(nds: seq<Node>, ids: set<string>)
    ensures multiset(Ids(KeepIf(nds, ids, true))) + multiset(Ids(KeepIf(nds, ids, false))) == multiset(Ids(nds))
  {
    if |nds| > 0 {
      var n, rest := nds[0], nds[1..];
      KeepIfPartitionIds(rest, ids);
      KeepIfConsIds(nds, ids);
      PartitionStep(multiset(Ids(KeepIf(nds, ids, true))), multiset(Ids(KeepIf(nds, ids, false))), multiset(Ids(nds)),
                    multiset(Ids(KeepIf(rest, ids, true))), multiset(Ids(KeepIf(rest, ids, false))), multiset(Ids(rest)),
                    multiset{n.id}, n.id in ids);
    }
  }

  /** The first node's id goes to the side of the filter its id belongs to. */
  lemma KeepIfConsIds(nds: seq<Node>, ids: set<string>)
    requires |nds| > 0
    ensures multiset(Ids(nds)) == multiset{nds[0].id} + multiset(Ids(nds[1..]))
    ensures nds[0].id in ids ==>
      && multiset(Ids(KeepIf(nds, ids, true))) == multiset{nds[0].id} + multiset(Ids(KeepIf(nds[1..], ids, true)))
      && multiset(Ids(KeepIf(nds, ids, false))) == multiset(Ids(KeepIf(nds[1..], ids, false)))
    ensures nds[0].id !in ids ==>
      && multiset(Ids(KeepIf(nds, ids, true))) == multiset(Ids(KeepIf(nds[1..], ids, true)))
      && multiset(Ids(KeepIf(nds, ids, false))) == multiset{nds[0].id} + multiset(Ids(KeepIf(nds[1..], ids, false)))
  {
    var n, rest := nds[0], nds[1..];
    assert [n] + rest == nds;
    IdsCons(n, rest);
    if n.id in ids {
      IdsCons(n, KeepIf(rest, ids, true));
    } else {
      IdsCons(n, KeepIf(rest, ids, false));
    }
  }

  /** Adding `x` to one side of a split of `rest` splits `x + rest`. */
  lemma PartitionStep<T>(left: multiset<T>, right: multiset<T>, whole: multiset<T>,
                         restLeft: multiset<T>, restRight: multiset<T>, rest: multiset<T>, x: multiset<T>, toLeft: bool)
    requires restLeft + restRight == rest && whole == x + rest
    requires toLeft ==> left == x + restLeft && right == restRight
    requires !toLeft ==> left == restLeft && right == x + restRight
    ensures left + right == whole
  {
  }

  lemma IdsCons(n: Node, t: seq<Node>)
    ensures multiset(Ids([n] + t)) == multiset{n.id} + multiset(Ids(t))
  {
    assert ([n] + t)[1..] == t;
    assert Ids([n] + t) == [n.id] + Ids(t);
  }

  // ================================================================ paint order

  /** `nds.find(n => n.id === id)`, as an index. */
  function Find(nds: seq<Node>, id: string): (r: Option<nat>)
    ensures r.Some? ==> r.value < |nds| && nds[r.value].id == id
    ensures r.Some? ==> forall k :: 0 <= k < r.value ==> nds[k].id != id
    ensures r.None? ==> forall k :: 0 <= k < |nds| ==> nds[k].id != id
  {
    if |nds| == 0 then None
    else if nds[0].id == id then Some(0)
    else match Find(nds[1..], id)
      case None => None
      case Some(k) => Some(k + 1)
  }

  /** `nds.filter(n => n.id !== id)`. */
  function WithoutId(nds: seq<Node>, id: string): seq<Node>
  {
    if |nds| == 0 then []
    else if nds[0].id != id then [nds[0]] + WithoutId(nds[1..], id)
    else WithoutId(nds[1..], id)
  }

  /** The filter keeps exactly the nodes with another id. */
  lemma {:induction false} WithoutIdMembers(nds: seq<Node>, id: string)
    ensures forall n :: n in WithoutId(nds, id) <==> n in nds && n.id != id
  {
    if |nds| > 0 {
      WithoutIdMembers(nds[1..], id);
      assert forall n :: n in nds <==> n == nds[0] || n in nds[1..];
    }
  }

  /** With unique ids, removing the one node with `id` keeps the others in order. */
  lemma {:induction false} WithoutUniqueId(nds: seq<Node>, id: string, k: nat)
    requires k < |nds| && nds[k].id == id
    requires forall j :: 0 <= j < |nds| && j != k ==> nds[j].id != id
    ensures WithoutId(nds, id) == nds[..k] + nds[k + 1..]
  {
    var tail := nds[1..];
    if k == 0 {
      WithoutAbsentId(tail, id);
      assert nds[..0] + nds[1..] == tail;
    } else {
      assert forall j :: 0 <= j < |tail| && j != k - 1 ==> tail[j].id != id by {
        forall j | 0 <= j < |tail| && j != k - 1 ensures tail[j].id != id {
          assert tail[j] == nds[j + 1];
        }
      }
      WithoutUniqueId(tail, id, k - 1);
      assert WithoutId(nds, id) == [nds[0]] + WithoutId(tail, id);
      DropAtCons(nds, k);
    }
  }

  /** Dropping the element at `k > 0` keeps the head in front of the tail with its element `k - 1` dropped. */
  lemma DropAtCons<T>(s: seq<T>, k: nat)
    requires 0 < k < |s|
    ensures s[..k] + s[k + 1..] == [s[0]] + (s[1..][..k - 1] + s[1..][k..])
  {
    assert s[..k] == [s[0]] + s[1..][..k - 1];
    assert s[k + 1..] == s[1..][k..];
  }

  lemma {:induction false} WithoutAbsentId(nds: seq<Node>, id: string)
    requires forall k :: 0 <= k < |nds| ==> nds[k].id != id
    ensures WithoutId(nds, id) == nds
  {
    if |nds| > 0 {
      WithoutAbsentId(nds[1..], id);
      assert nds == [nds[0]] + nds[1..];
    }
  }

  /** `bringToFront`: the node with `id` goes to the end of the list, painted on top. */
  function BringToFront(nds: seq<Node>, id: string): seq<Node>
  {
    match Find(nds, id)
    case None => nds
    case Some(k) => WithoutId(nds, id) + [nds[k]]
  }

  /** `onNodeClick`'s reorder: like `bringToFront`, and the moved node is marked selected. */
  function ClickNode(nds: seq<Node>, id: string): seq<Node>
  {
    match Find(nds, id)
    case None => nds
    case Some(k) => WithoutId(nds, id) + [nds[k].(selected := true)]
  }

  /**
   * With unique ids, `bringToFront` moves the one node with `id` to the end and
   * keeps the others in order, a permutation; an unknown id changes nothing.
   */
  lemma BringToFrontMovesToEnd(nds: seq<Node>, id: string)
    requires UniqueIds(nds)
    ensures (forall k :: 0 <= k < |nds| ==> nds[k].id != id) ==> BringToFront(nds, id) == nds
    ensures forall k :: 0 <= k < |nds| && nds[k].id == id ==>
      BringToFront(nds, id) == nds[..k] + nds[k + 1..] + [nds[k]]
    ensures multiset(BringToFront(nds, id)) == multiset(nds)
  {
    match Find(nds, id)
    case None =>
    case Some(k) =>
      WithoutUniqueId(nds, id, k);
      assert nds == nds[..k] + [nds[k]] + nds[k + 1..];
  }

  /**
   * With unique ids, the `onNodeClick` updater moves the clicked node to the
   * end with its `selected` set and leaves every other node as it was: this
   * updater by itself clears no other node's selection.
   */
  lemma ClickNodeSelectsOnlyTheMovedNode(nds: seq<Node>, id: string)
    requires UniqueIds(nds)
    ensures (forall k :: 0 <= k < |nds| ==> nds[k].id != id) ==> ClickNode(nds, id) == nds
    ensures forall k :: 0 <= k < |nds| && nds[k].id == id ==>
      ClickNode(nds, id) == nds[..k] + nds[k + 1..] + [nds[k].(selected := true)]
    ensures forall n :: n in nds && n.id != id ==> n in ClickNode(nds, id)
  {
    match Find(nds, id)
    case None =>
    case Some(k) =>
      WithoutUniqueId(nds, id, k);
      WithoutIdMembers(nds, id);
  }
}
