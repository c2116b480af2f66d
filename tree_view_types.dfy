/**
 * The values of the tree view: the topology payload (`src/types/treeViewTypes.ts`)
 * and the nodes and edges the graph widget is handed.
 */
module TreeViewTypes {
  import opened Wrappers

  /** One entry of `prod_machine_map`: a machine and the machines feeding it. */
  datatype Machine = Machine(
    machineId: string,
    name: string,
    stationNumber: string,
    inputStations: seq<string>)

  /** The topology payload. */
  datatype TreeData = TreeData(
    bypassList: seq<string>,
    notAllowedList: seq<string>,
    machines: seq<Machine>)

  datatype Point = Point(x: real, y: real)

  /** A side of a node box where edges attach. */
  datatype Side = Top | Bottom | Left | Right

  /** Layout direction: top-to-bottom or left-to-right. */
  datatype Direction = TB | LR

  /** The fields a machine node carries and the edit popup changes. */
  datatype NodeData = NodeData(
    isBypass: bool,
    isNotAllowed: bool,
    name: string,
    stationNumber: string,
    inputStations: seq<string>)

  /** A node of the graph widget; the ports stay unset until the connected layout assigns them. */
  datatype Node = Node(
    id: string,
    data: NodeData,
    position: Point,
    sourcePosition: Option<Side>,
    targetPosition: Option<Side>,
    selected: bool)

  /** The line style the user picked for ordinary edges. */
  datatype EdgeType = Step | Bezier

  /** Self-edges get the dedicated loop renderer; all others the picked style. */
  datatype EdgeKind = SelfConnecting | Styled(edgeType: EdgeType)

  datatype Edge = Edge(id: string, source: string, target: string, kind: EdgeKind, direction: Direction)

  predicate UniqueIds(nds: seq<Node>) {
    forall i, j :: 0 <= i < j < |nds| ==> nds[i].id != nds[j].id
  }

  function Ids(nds: seq<Node>): (r: seq<string>)
    ensures |r| == |nds| && forall i :: 0 <= i < |nds| ==> r[i] == nds[i].id
  {
    if |nds| == 0 then [] else [nds[0].id] + Ids(nds[1..])
  }

  lemma {:induction false} IdsAppend(a: seq<Node>, b: seq<Node>)
    ensures Ids(a + b) == Ids(a) + Ids(b)
  {
    forall i | 0 <= i < |a| + |b| ensures Ids(a + b)[i] == (Ids(a) + Ids(b))[i] {
      if i < |a| {
        assert (a + b)[i] == a[i];
      } else {
        assert (a + b)[i] == b[i - |a|];
      }
    }
  }
}
