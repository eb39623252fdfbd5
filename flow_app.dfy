/**
 * The state of the flowchart app: the reveal cursor, the position overlay and
 * the rendered node and edge lists, with the Next, Previous and Reset controls
 * and the renderer's drag and connect events.
 */
module FlowApp {
  import opened Wrappers
  import opened FlowGraph
  import opened FlowRender

  /** A node change event; only a position change that carries a position moves a node. */
  datatype NodeChange = PositionChange(id: string, position: Option<Pos>) | OtherChange(id: string)

  /** A connection the user drew between two handles. */
  datatype Connection = Connection(source: string, target: string,
                                   sourceHandle: Option<string>, targetHandle: Option<string>)

  /** The cursor after Next: one more step, unless every step is already shown. */
  function Advance(count: int): (r: int)
    ensures 1 <= count <= |AllSteps| ==> 1 <= r <= |AllSteps|
    ensures count < |AllSteps| ==> r == count + 1
    ensures count >= |AllSteps| ==> r == count
  {
    if count < |AllSteps| then count + 1 else count
  }

  /** The cursor after Previous: one step fewer, unless only the first step is shown. */
  function Retreat(count: int): (r: int)
    ensures 1 <= count <= |AllSteps| ==> 1 <= r <= |AllSteps|
    ensures count > 1 ==> r == count - 1
    ensures count <= 1 ==> r == count
  {
    if count > 1 then count - 1 else count
  }

  /** The cursor after `k` presses of Next. */
  function AdvanceTimes(k: nat, count: int): (c: int)
  {
    if k == 0 then count else AdvanceTimes(k - 1, Advance(count))
  }

  lemma {:induction false} AdvanceTimesFrom(k: nat, count: int)
    requires 1 <= count && count + k <= |AllSteps|
    ensures AdvanceTimes(k, count) == count + k
  {
    if k > 0 {
      AdvanceTimesFrom(k - 1, count + 1);
    }
  }

  /** From the first step, `|AllSteps| - 1` presses of Next show every step; one more changes nothing. */
  lemma AdvanceReachesLastStep()
    ensures AdvanceTimes(|AllSteps| - 1, 1) == |AllSteps|
    ensures Advance(|AllSteps|) == |AllSteps|
    ensures AdvanceTimes(|AllSteps|, 1) == |AllSteps|
  {
    AdvanceTimesFrom(|AllSteps| - 1, 1);
    AdvanceTimesThenOne(|AllSteps| - 1, 1);
  }

  lemma {:induction false} AdvanceTimesThenOne(k: nat, count: int)
    ensures AdvanceTimes(k + 1, count) == Advance(AdvanceTimes(k, count))
  {
    if k > 0 {
      AdvanceTimesThenOne(k - 1, Advance(count));
    }
  }

  /** Previous undoes Next below the last step. */
  lemma RetreatUndoesAdvance(count: int)
    requires 1 <= count < |AllSteps|
    ensures Retreat(Advance(count)) == count
  {
  }

  /** The overlay after the `forEach` of `onNodesChange` over `changes`. */
  function ApplyPositions(overlay: map<string, Pos>, changes: seq<NodeChange>): (r: map<string, Pos>)
    ensures overlay.Keys <= r.Keys
  {
    if changes == [] then overlay
    else
      var m := ApplyPositions(overlay, changes[..|changes| - 1]);
      match changes[|changes| - 1]
      case PositionChange(id, Some(p)) => m[id := p]
      case _ => m
  }

  /** The position carried by the last position change for `id`, if any. */
  function LastPosition(changes: seq<NodeChange>, id: string): (p: Option<Pos>)
  {
    if changes == [] then None
    else
      var c := changes[|changes| - 1];
      if c.PositionChange? && c.id == id && c.position.Some? then c.position
      else LastPosition(changes[..|changes| - 1], id)
  }

  /** After a batch of changes a node sits where its last drag left it; nodes not dragged keep their entry. */
  lemma {:induction false} ApplyPositionsAt(overlay: map<string, Pos>, changes: seq<NodeChange>, id: string)
    ensures var r := ApplyPositions(overlay, changes);
      && (id in r <==> id in overlay || LastPosition(changes, id).Some?)
      && (LastPosition(changes, id).Some? ==> r[id] == LastPosition(changes, id).value)
      && (LastPosition(changes, id).None? && id in overlay ==> r[id] == overlay[id])
  {
    if changes != [] {
      ApplyPositionsAt(overlay, changes[..|changes| - 1], id);
    }
  }

  /** `onConnect`: the edge the renderer adds for a new connection, always animated and opaque. */
  function ConnectedEdge(id: string, conn: Connection): (r: RenderEdge)
    ensures r.id == id && r.source == conn.source && r.target == conn.target
    ensures r.sourceHandle == conn.sourceHandle && r.targetHandle == conn.targetHandle
    ensures r.animated && r.caption.None? && r.opacity.None?
  {
    RenderEdge(id, conn.source, conn.target, conn.sourceHandle, conn.targetHandle, None, true, None)
  }

  class FlowState {
    /** How many steps are revealed (the reveal cursor). */
    var visibleCount: int
    /** The position overlay, `nodePositions.current`. */
    var positions: map<string, Pos>
    /** The node list last handed to the renderer. */
    var nodes: seq<RenderNode>
    /** The edge list last handed to the renderer. */
    var edges: seq<RenderEdge>

    ghost predicate Valid()
      reads this
    {
      1 <= visibleCount <= |AllSteps| && DefaultPositions.Keys <= positions.Keys
    }

    /** The state on start-up, restored by Reset. */
    predicate IsInitial()
      reads this
    {
      && visibleCount == 1
      && positions == DefaultPositions
      && nodes == GetNodes(1, DefaultPositions)
      && edges == InitialEdges()
    }

    constructor ()
      ensures Valid() && IsInitial()
    {
      visibleCount := 1;
      positions := DefaultPositions;
      nodes := GetNodes(1, DefaultPositions);
      edges := InitialEdges();
    }

    /** Where node `id` is drawn now. */
    function PositionOf(id: string): (p: Pos)
      reads this
      requires id in positions || id in DefaultPositions
    {
      NodePosition(positions, id)
    }

    /** `handleNext`: reveal one more step and re-project, or do nothing at the last step. */
    method Next()
      requires Valid()
      modifies this
      ensures Valid()
      ensures visibleCount == Advance(old(visibleCount)) && positions == old(positions)
      ensures old(visibleCount) < |AllSteps| ==>
        nodes == GetNodes(visibleCount, positions) && edges == SpecEdges(visibleCount)
      ensures old(visibleCount) == |AllSteps| ==> nodes == old(nodes) && edges == old(edges)
    {
      if visibleCount < |AllSteps| {
        var newCount := visibleCount + 1;
        visibleCount := newCount;
        nodes := GetNodes(newCount, positions);
        edges := SpecEdges(newCount);
      }
    }

    /** `handlePrev`: hide the last revealed step and re-project, or do nothing at the first step. */
    method Prev()
      requires Valid()
      modifies this
      ensures Valid()
      ensures visibleCount == Retreat(old(visibleCount)) && positions == old(positions)
      ensures old(visibleCount) > 1 ==>
        nodes == GetNodes(visibleCount, positions) && edges == SpecEdges(visibleCount)
      ensures old(visibleCount) == 1 ==> nodes == old(nodes) && edges == old(edges)
    {
      if visibleCount > 1 {
        var newCount := visibleCount - 1;
        visibleCount := newCount;
        nodes := GetNodes(newCount, positions);
        edges := SpecEdges(newCount);
      }
    }

    /** `handleReset`: back to the first step, the default layout and the hidden spec edges. */
    method Reset()
      modifies this
      ensures Valid() && IsInitial()
    {
      visibleCount := 1;
      positions := DefaultPositions;
      nodes := GetNodes(1, DefaultPositions);
      edges := InitialEdges();
    }

    /** The position branch of `onNodesChange`: record every drag in the overlay. */
    method ApplyPositionChanges(changes: seq<NodeChange>)
      requires Valid()
      modifies this`positions
      ensures Valid()
      ensures positions == ApplyPositions(old(positions), changes)
    {
      var i := 0;
      while i < |changes|
        invariant 0 <= i <= |changes|
        invariant positions == ApplyPositions(old(positions), changes[..i])
      {
        assert changes[..i + 1][..i] == changes[..i];
        match changes[i] {
          case PositionChange(id, Some(p)) =>
            positions := positions[id := p];
          case _ =>
        }
        i := i + 1;
      }
      assert changes[..i] == changes;
    }

    /** `onConnect`: append the renderer's new edge. */
    method Connect(id: string, conn: Connection)
      requires Valid()
      modifies this`edges
      ensures Valid()
      ensures edges == old(edges) + [ConnectedEdge(id, conn)]
    {
      edges := edges + [ConnectedEdge(id, conn)];
    }
  }

  /** A dragged node keeps its place when the user then presses Next and Previous. */
  method DragThenNextPrev(app: FlowState, id: string, p: Pos)
    requires app.Valid()
    modifies app
    ensures app.Valid() && id in app.positions && app.PositionOf(id) == p
    ensures app.nodes == GetNodes(app.visibleCount, app.positions)
    ensures forall i :: 0 <= i < |AllSteps| && AllSteps[i].id == id ==> app.nodes[i].position == p
    ensures forall j :: 0 <= j < |Notes| && Notes[j].id == id ==> app.nodes[|AllSteps| + j].position == p
    ensures old(app.visibleCount) < |AllSteps| ==> app.visibleCount == old(app.visibleCount)
  {
    app.ApplyPositionChanges([PositionChange(id, Some(p))]);
    assert app.positions == old(app.positions)[id := p];
    app.Next();
    app.Prev();
  }
}
