/**
 * `src/components/treeView/CustomNode.tsx`: the edit popup of one machine
 * node. Its edit buffer (`nodeDetails`) keeps the bypass and not-allowed
 * flags mutually exclusive, is reset when the node is deselected, and Save
 * and Cancel rewrite the graph's shared node list.
 */
module CustomNode {
  import opened Wrappers
  import opened JsString
  import opened TreeViewTypes

  /** The edit buffer `nodeDetails`. */
  datatype Details = Details(isBypass: bool, isNotAllowed: bool, name: string, stationNumber: string)

  /** `initialNodeDetails`: the buffer seeded from the node's committed data. */
  function InitialDetails(data: NodeData): (d: Details)
    ensures d.isBypass == data.isBypass && d.isNotAllowed == data.isNotAllowed
    ensures d.name == data.name && d.stationNumber == data.stationNumber
  {
    Details(data.isBypass, data.isNotAllowed, data.name, data.stationNumber)
  }

  /** A `handleChange(field, value)` call. */
  datatype Edit =
    | SetName(name: string)
    | SetStationNumber(stationNumber: string)
    | SetBypass(isBypass: bool)
    | SetNotAllowed(isNotAllowed: bool)

  /** The guard of `handleChange`: switching one flag on while the other is on. */
  predicate Conflicts(d: Details, e: Edit)
  {
    (e == SetBypass(true) && d.isNotAllowed) || (e == SetNotAllowed(true) && d.isBypass)
  }

  predicate BothFlags(d: Details) {
    d.isBypass && d.isNotAllowed
  }

  /**
   * The buffer after `handleChange`, or `None` when the change is rejected
   * (the "Only one can be enabled" message) and the buffer stays as it was.
   * An accepted change sets the named field and no other, and it never makes
   * both flags true when they were not both true before.
   */
  function Changed(d: Details, e: Edit): (r: Option<Details>)
    ensures r.None? <==> Conflicts(d, e)
    ensures r.Some? && !BothFlags(d) ==> !BothFlags(r.value)
    ensures r.Some? ==> match e
      case SetName(s) => r.value.name == s && r.value == d.(name := s)
      case SetStationNumber(s) => r.value.stationNumber == s && r.value == d.(stationNumber := s)
      case SetBypass(b) => r.value.isBypass == b && r.value == d.(isBypass := b)
      case SetNotAllowed(b) => r.value.isNotAllowed == b && r.value == d.(isNotAllowed := b)
  {
    if Conflicts(d, e) then None
    else
      match e
      case SetName(s) => Some(d.(name := s))
      case SetStationNumber(s) => Some(d.(stationNumber := s))
      case SetBypass(b) => Some(d.(isBypass := b))
      case SetNotAllowed(b) => Some(d.(isNotAllowed := b))
  }

  /** The four buttons of the popup, by the branch of `handleClick` their label selects. */
  datatype Button = ToggleNotAllowed | ToggleBypass | Cancel | Save

  /**
   * The id Save gives the node: `String(+stationNumber.replace("M", ""))`,
   * the first "M" removed and the rest read as a number.
   */
  function NewId(stationNumber: string): string
  {
    NumberToString(ToNumber(RemoveFirst(stationNumber, 'M')))
  }

  /** For "M" followed by digits the id is the number the digits denote, leading zeros dropped. */
  lemma NewIdOfStation(digits: string)
    requires AllDigits(digits)
    ensures NewId("M" + digits) == NatToString(DigitsValue(digits))
  {
    FirstIndexAfterPrefix("", 'M', digits);
    assert RemoveFirst("M" + digits, 'M') == digits;
  }

  /**
   * Station numbers that differ only in a leading zero derive the same id
   * ("M034" and "M34" both give "34"), so Save can map two stations to one id.
   */
  lemma NewIdIgnoresLeadingZero(digits: string)
    requires AllDigits(digits)
    ensures NewId("M0" + digits) == NewId("M" + digits)
  {
    DigitsValueLeadingZero(digits);
    assert "M0" + digits == "M" + ("0" + digits);
    NewIdOfStation("0" + digits);
    NewIdOfStation(digits);
  }

  /**
   * An empty station number derives the id "0"; one whose text after the "M"
   * holds a character no numeric literal contains derives "NaN".
   */
  lemma NewIdDegenerate(rest: string)
    requires NeverNumeric(rest)
    ensures NewId("") == "0"
    ensures NewId("M" + rest) == "NaN"
  {
    assert NatToString(0) == "0";
    FirstIndexAfterPrefix("", 'M', rest);
    assert RemoveFirst("M" + rest, 'M') == rest;
  }

  /** The node list after `setNodes` in Save: the node(s) with `id` rewritten from the buffer, deselected. */
  function Rewritten(nd: Node, newId: string, committed: NodeData, d: Details): Node
  {
    nd.(id := newId,
        data := nd.data.(isBypass := d.isBypass,
                         isNotAllowed := d.isNotAllowed,
                         name := if d.name != "" then d.name else committed.name,
                         stationNumber := if d.stationNumber != "" then d.stationNumber else committed.stationNumber),
        selected := false)
  }

  predicate HasId(nds: seq<Node>, id: string) {
    exists k :: 0 <= k < |nds| && nds[k].id == id
  }

  /**
   * The `setNodes` of Save with the derived id `newId`: exactly the nodes
   * with the current `id` are rewritten from the buffer and deselected; each
   * other node and each other field is left as it was.
   */
  function Renamed(nds: seq<Node>, id: string, newId: string, committed: NodeData, d: Details): (r: seq<Node>)
    ensures |r| == |nds|
    ensures forall k :: 0 <= k < |nds| && nds[k].id != id ==> r[k] == nds[k]
    ensures forall k :: 0 <= k < |nds| && nds[k].id == id ==>
      && r[k].id == newId
      && !r[k].selected
      && r[k].data.isBypass == d.isBypass && r[k].data.isNotAllowed == d.isNotAllowed
      && r[k].data.name == (if d.name != "" then d.name else committed.name)
      && r[k].data.stationNumber == (if d.stationNumber != "" then d.stationNumber else committed.stationNumber)
      && r[k].data.inputStations == nds[k].data.inputStations
      && r[k].position == nds[k].position
      && r[k].sourcePosition == nds[k].sourcePosition && r[k].targetPosition == nds[k].targetPosition
  {
    seq(|nds|, k requires 0 <= k < |nds| =>
      if nds[k].id == id then Rewritten(nds[k], newId, committed, d) else nds[k])
  }

  /**
   * Save: rejected (`None`) when another node already has the id derived
   * from the station number; otherwise the nodes renamed to that id.
   */
  function SavedNodes(nds: seq<Node>, id: string, committed: NodeData, d: Details): (r: Option<seq<Node>>)
    ensures r.None? <==> HasId(nds, NewId(d.stationNumber)) && NewId(d.stationNumber) != id
    ensures r.Some? ==> r.value == Renamed(nds, id, NewId(d.stationNumber), committed, d)
  {
    var newId := NewId(d.stationNumber);
    if HasId(nds, newId) && newId != id then None
    else Some(Renamed(nds, id, newId, committed, d))
  }

  /** Renaming to an id no other node has, or to the same id, keeps node ids unique. */
  lemma RenameKeepsIdsUnique(nds: seq<Node>, id: string, newId: string, committed: NodeData, d: Details)
    requires UniqueIds(nds)
    requires newId == id || !HasId(nds, newId)
    ensures UniqueIds(Renamed(nds, id, newId, committed, d))
  {
    var r := Renamed(nds, id, newId, committed, d);
    forall i, j | 0 <= i < j < |r| ensures r[i].id != r[j].id {
      if nds[i].id == id || nds[j].id == id {
        if newId == id {
          assert r[i].id == nds[i].id && r[j].id == nds[j].id;
        } else {
          assert nds[i].id != newId && nds[j].id != newId;
        }
      }
    }
  }

  /** Cancel: every node deselected, nothing else changed. */
  function Deselected(nds: seq<Node>): (r: seq<Node>)
    ensures |r| == |nds|
    ensures forall k :: 0 <= k < |r| ==> !r[k].selected && r[k] == nds[k].(selected := false)
    ensures Ids(r) == Ids(nds)
  {
    seq(|nds|, k requires 0 <= k < |nds| => nds[k].(selected := false))
  }

  /**
   * One rendered machine node: its props (`id`, `data`, `selected`), its edit
   * buffer, and the graph's node list it reads with `getNode` and replaces
   * with `setNodes`.
   */
  class NodeEditor {
    const id: string
    const data: NodeData
    var selected: bool
    var details: Details
    var nodes: seq<Node>

    constructor (id: string, data: NodeData, selected: bool, nodes: seq<Node>)
      ensures this.id == id && this.data == data && this.selected == selected && this.nodes == nodes
      ensures details == InitialDetails(data)
    {
      this.id := id;
      this.data := data;
      this.selected := selected;
      this.nodes := nodes;
      this.details := InitialDetails(data);
    }

    /** `handleChange`: apply the edit to the buffer, or reject it and keep the buffer. */
    method HandleChange(e: Edit) returns (rejected: bool)
      modifies this`details
      ensures rejected <==> Conflicts(old(details), e)
      ensures rejected ==> details == old(details)
      ensures !rejected ==> Changed(old(details), e) == Some(details)
    {
      match Changed(details, e)
      case None =>
        rejected := true;
      case Some(d) =>
        rejected := false;
        details := d;
    }

    /**
     * The effect on `props.selected`: when the node becomes deselected the
     * buffer is reset to the committed name, station number and flags.
     */
    method SetSelected(sel: bool)
      modifies this`selected, this`details
      ensures selected == sel
      ensures sel != old(selected) && !sel ==> details == InitialDetails(data)
      ensures !(sel != old(selected) && !sel) ==> details == old(details)
    {
      if sel != selected {
        selected := sel;
        if !sel {
          details := InitialDetails(data);
        }
      }
    }

    /**
     * `handleClick`: Save commits the buffer to the node list or is rejected
     * with the list unchanged; Cancel deselects every node; each toggle asks
     * `handleChange` for the negation of its flag in the buffer.
     */
    method HandleClick(btn: Button) returns (rejected: bool)
      modifies this`nodes, this`details
      ensures btn == Save ==> details == old(details)
      ensures btn == Save ==> match SavedNodes(old(nodes), id, data, old(details))
        case None => rejected && nodes == old(nodes)
        case Some(r) => !rejected && nodes == r
      ensures btn == Cancel ==> !rejected && nodes == Deselected(old(nodes)) && details == old(details)
      ensures btn == ToggleNotAllowed || btn == ToggleBypass ==> nodes == old(nodes)
      ensures btn == ToggleNotAllowed ==>
        var e := SetNotAllowed(!old(details).isNotAllowed);
        (rejected <==> Conflicts(old(details), e))
        && details == Changed(old(details), e).GetOr(old(details))
      ensures btn == ToggleBypass ==>
        var e := SetBypass(!old(details).isBypass);
        (rejected <==> Conflicts(old(details), e))
        && details == Changed(old(details), e).GetOr(old(details))
    {
      rejected := false;
      match btn
      case Save =>
        var newId := NewId(details.stationNumber);
        var isExists := HasId(nodes, newId);
        if isExists && newId != id {
          rejected := true;
        } else {
          nodes := SavedNodes(nodes, id, data, details).value;
        }
      case Cancel =>
        nodes := Deselected(nodes);
      case ToggleNotAllowed =>
        rejected := HandleChange(SetNotAllowed(!details.isNotAllowed));
      case ToggleBypass =>
        rejected := HandleChange(SetBypass(!details.isBypass));
    }
  }
}
