/**
 * The visibility engine and render adapter of the flowchart: pure projections
 * from the reveal cursor (`count`) and the position overlay to the nodes and
 * edges handed to the diagram renderer.
 */
module FlowRender {
  import opened Wrappers
  import opened FlowGraph

  datatype PointerEvents = Auto | NoPointer

  /** A step node carries its title, phase and optional colour; a note node carries nothing modelled. */
  datatype NodeKind = Custom(title: string, phase: Phase, color: Option<string>) | NoteKind

  datatype RenderNode = RenderNode(id: string, kind: NodeKind, position: Pos,
                                   opacity: int, pointerEvents: PointerEvents)

  /** `opacity` is None when the edge's style sets no opacity (fully opaque). */
  datatype RenderEdge = RenderEdge(id: string, source: string, target: string,
                                   sourceHandle: Option<string>, targetHandle: Option<string>,
                                   caption: Option<string>, animated: bool, opacity: Option<int>)

  /** The step at `index` is revealed: the cursor counts the revealed steps from the first. */
  predicate StepVisible(index: int, count: int)
  {
    index < count
  }

  /** The shown steps form a prefix of the step list, and that prefix only grows with the cursor. */
  lemma ShownStepsFormGrowingPrefix(i: int, j: int, count: int)
    requires StepVisible(i, count) && j <= i
    ensures StepVisible(j, count) && StepVisible(i, count + 1)
  {
  }

  /** A note appearing with step `n` (counted from 1) is shown exactly when step `n` is. */
  predicate NoteVisible(note: Note, count: int)
    ensures NoteVisible(note, count) <==> StepVisible(note.appearsWithStep - 1, count)
  {
    count >= note.appearsWithStep
  }

  /**
   * `getEdgeVisibility`: both endpoints' `findIndex` results are below the cursor.
   * Between two steps this means both steps are revealed, whatever the edge's
   * direction; an end naming no step (index -1) never holds the edge back.
   */
  predicate EdgeVisible(conn: EdgeSpec, count: int)
    ensures ((exists i :: 0 <= i < |AllSteps| && AllSteps[i].id == conn.source)
          && (exists i :: 0 <= i < |AllSteps| && AllSteps[i].id == conn.target)) ==>
      (EdgeVisible(conn, count) <==>
        forall i :: 0 <= i < |AllSteps| && (AllSteps[i].id == conn.source || AllSteps[i].id == conn.target)
          ==> StepVisible(i, count))
    ensures 0 <= count && FindIndex(conn.source) == -1 && FindIndex(conn.target) == -1 ==> EdgeVisible(conn, count)
  {
    StepIdsDistinct();
    StepVisible(FindIndex(conn.source), count) && StepVisible(FindIndex(conn.target), count)
  }

  /** The rendered id of an edge, `e{source}-{target}`. */
  function EdgeId(source: string, target: string): (id: string)
    ensures |id| == |source| + |target| + 2
    ensures id[0] == 'e' && id[1..1 + |source|] == source
    ensures id[1 + |source|] == '-' && id[2 + |source|..] == target
  {
    "e" + source + "-" + target
  }

  /** `position || positions[id]`: the overlay entry when there is one, else the default. */
  function PositionFrom(overlay: Option<Pos>, id: string): (p: Pos)
    requires overlay.Some? || id in DefaultPositions
  {
    if overlay.Some? then overlay.value else DefaultPositions[id]
  }

  /** `nodePositions.current[id]`: the overlay entry, or `undefined` when the id has none. */
  function Lookup(overlay: map<string, Pos>, id: string): (r: Option<Pos>)
  {
    if id in overlay then Some(overlay[id]) else None
  }

  function CreateNode(step: Step, visible: bool, position: Option<Pos>): (r: RenderNode)
    requires position.Some? || step.id in DefaultPositions
    ensures r.id == step.id && r.kind == Custom(step.title, step.phase, step.color)
    ensures r.position == PositionFrom(position, step.id)
    ensures r.opacity == (if visible then 1 else 0)
    ensures r.pointerEvents == Auto <==> visible
  {
    RenderNode(step.id, Custom(step.title, step.phase, step.color), PositionFrom(position, step.id),
               if visible then 1 else 0, if visible then Auto else NoPointer)
  }

  function CreateNoteNode(note: Note, visible: bool, position: Option<Pos>): (r: RenderNode)
    requires position.Some? || note.id in DefaultPositions
    ensures r.id == note.id && r.kind == NoteKind
    ensures r.position == PositionFrom(position, note.id)
    ensures r.opacity == (if visible then 1 else 0)
    ensures r.pointerEvents == Auto <==> visible
  {
    RenderNode(note.id, NoteKind, PositionFrom(position, note.id),
               if visible then 1 else 0, if visible then Auto else NoPointer)
  }

  /**
   * A spec edge drawn as visible or hidden: a hidden edge shows no label and
   * does not animate; a visible one shows the spec's label and animates.
   */
  function CreateEdge(conn: EdgeSpec, visible: bool): (r: RenderEdge)
    ensures r.id == EdgeId(conn.source, conn.target)
    ensures r.source == conn.source && r.target == conn.target
    ensures r.sourceHandle == conn.sourceHandle && r.targetHandle == conn.targetHandle
    ensures r.animated == visible && r.opacity == Some(if visible then 1 else 0)
    ensures r.caption.Some? ==> visible
    ensures visible ==> r.caption == conn.caption
  {
    RenderEdge(EdgeId(conn.source, conn.target), conn.source, conn.target,
               conn.sourceHandle, conn.targetHandle,
               if visible then conn.caption else None, visible, Some(if visible then 1 else 0))
  }

  /** Where a node is drawn: its overlay entry when present, else its default. */
  function NodePosition(overlay: map<string, Pos>, id: string): (p: Pos)
    requires id in overlay || id in DefaultPositions
    ensures id in overlay ==> p == overlay[id]
    ensures id !in overlay ==> p == DefaultPositions[id]
  {
    PositionFrom(Lookup(overlay, id), id)
  }

  /**
   * `getNodes(count)`: all step nodes in declaration order, then all note nodes;
   * step `i` is shown iff `i < count`, a note iff `count` reached its step.
   */
  function GetNodes(count: int, overlay: map<string, Pos>): (r: seq<RenderNode>)
    ensures |r| == |AllSteps| + |Notes|
    ensures forall i :: 0 <= i < |AllSteps| ==>
      r[i].id == AllSteps[i].id
      && r[i].kind == Custom(AllSteps[i].title, AllSteps[i].phase, AllSteps[i].color)
      && r[i].position == NodePosition(overlay, AllSteps[i].id)
      && (r[i].opacity == 1 <==> i < count) && (r[i].opacity == 0 <==> count <= i)
      && (r[i].pointerEvents == Auto <==> i < count)
    ensures forall j :: 0 <= j < |Notes| ==>
      var n := r[|AllSteps| + j];
      n.id == Notes[j].id && n.kind == NoteKind
      && n.position == NodePosition(overlay, Notes[j].id)
      && (n.opacity == 1 <==> count >= Notes[j].appearsWithStep)
      && (n.pointerEvents == Auto <==> count >= Notes[j].appearsWithStep)
  {
    DefaultsCoverAllNodes();
    var stepNodes := seq(|AllSteps|, i requires 0 <= i < |AllSteps| =>
      CreateNode(AllSteps[i], StepVisible(i, count), Lookup(overlay, AllSteps[i].id)));
    var noteNodes := seq(|Notes|, j requires 0 <= j < |Notes| =>
      CreateNoteNode(Notes[j], NoteVisible(Notes[j], count), Lookup(overlay, Notes[j].id)));
    stepNodes + noteNodes
  }

  /** The spec edges rendered at cursor `count` (`handleNext`/`handlePrev`). */
  function SpecEdges(count: int): (r: seq<RenderEdge>)
    ensures |r| == |EdgeConnections|
    ensures forall k :: 0 <= k < |r| ==> r[k] == CreateEdge(EdgeConnections[k], EdgeVisible(EdgeConnections[k], count))
  {
    seq(|EdgeConnections|, k requires 0 <= k < |EdgeConnections| =>
      CreateEdge(EdgeConnections[k], EdgeVisible(EdgeConnections[k], count)))
  }

  /** The spec edges of the initial and the reset state, each built with `index < 0`. */
  function InitialEdges(): (r: seq<RenderEdge>)
    ensures |r| == |EdgeConnections|
  {
    seq(|EdgeConnections|, k requires 0 <= k < |EdgeConnections| => CreateEdge(EdgeConnections[k], k < 0))
  }

  /**
   * Direction-independent edge rule: a spec edge is visible iff every step it
   * touches has been revealed, whichever of its two ends comes later.
   */
  lemma SpecEdgeVisibleIffEndsRevealed(k: int, count: int)
    requires 0 <= k < |EdgeConnections|
    ensures var e := EdgeConnections[k];
      EdgeVisible(e, count) <==>
        forall i :: 0 <= i < |AllSteps| && (AllSteps[i].id == e.source || AllSteps[i].id == e.target)
          ==> StepVisible(i, count)
  {
    EdgeEndsAt(k);
    StepIdsDistinct();
    var e := EdgeConnections[k];
    var (si, ti) := EdgeEnds[k];
    assert AllSteps[si].id == e.source && AllSteps[ti].id == e.target;
  }

  /** The loop-back edge `12` to `4` joins indices 14 and 3: hidden, label and all, until the cursor reaches 15. */
  lemma BackEdgeRevealedAtFifteen(count: int)
    ensures EdgeConnections[17].source == "12" && EdgeConnections[17].target == "4"
    ensures EdgeVisible(EdgeConnections[17], count) <==> count >= 15
    ensures SpecEdges(count)[17].animated <==> count >= 15
    ensures SpecEdges(count)[17].caption == if count >= 15 then Some("More stories") else None
  {
    EdgeEndsAt(17);
  }

  /** The initial (and reset) edge list equals the projection at cursor 1: every spec edge hidden. */
  lemma InitialEdgesMatchCursorOne()
    ensures InitialEdges() == SpecEdges(1)
    ensures forall k :: 0 <= k < |EdgeConnections| ==>
      !InitialEdges()[k].animated && InitialEdges()[k].caption.None?
  {
    forall k | 0 <= k < |EdgeConnections|
      ensures !EdgeVisible(EdgeConnections[k], 1)
    {
      EdgeEndsAt(k);
      assert EdgeEnds[k].0 >= 1 || EdgeEnds[k].1 >= 1;
    }
  }

  /** `e{source}-{target}` determines the endpoints when the sources contain no `-`. */
  lemma EdgeIdInjective(a: string, b: string, c: string, d: string)
    requires '-' !in a && '-' !in c
    requires EdgeId(a, b) == EdgeId(c, d)
    ensures a == c && b == d
  {
    var x := EdgeId(a, b);
    assert a == x[1..1 + |a|] == c;
    assert b == x[2 + |a|..] == d;
  }

  /** No spec edge's source id contains `-`. */
  lemma SpecSourcesHaveNoDash(k: int)
    requires 0 <= k < |EdgeConnections|
    ensures '-' !in EdgeConnections[k].source
  {
  }

  /** No two spec edges join the same pair of step indices. */
  lemma EdgeEndsDistinct(k: int, l: int)
    requires 0 <= k < l < |EdgeEnds|
    ensures EdgeEnds[k] != EdgeEnds[l]
  {
  }

  /** The nineteen spec edges get nineteen different rendered ids. */
  lemma SpecEdgeIdsDistinct(count: int, k: int, l: int)
    requires 0 <= k < l < |EdgeConnections|
    ensures SpecEdges(count)[k].id != SpecEdges(count)[l].id
  {
    var ek, el := EdgeConnections[k], EdgeConnections[l];
    SpecSourcesHaveNoDash(k);
    SpecSourcesHaveNoDash(l);
    if EdgeId(ek.source, ek.target) == EdgeId(el.source, el.target) {
      EdgeIdInjective(ek.source, ek.target, el.source, el.target);
      EdgeEndsAt(k);
      EdgeEndsAt(l);
      EdgeEndsDistinct(k, l);
    }
  }

  /** The number of nodes drawn fully opaque. */
  function CountShown(ns: seq<RenderNode>): (n: nat) {
    if ns == [] then 0
    else CountShown(ns[..|ns| - 1]) + (if ns[|ns| - 1].opacity == 1 then 1 else 0)
  }

  lemma {:induction false} CountShownPrefix(ns: seq<RenderNode>, count: int, i: nat)
    requires i <= |ns| && 0 <= count
    requires forall j :: 0 <= j < |ns| ==> (ns[j].opacity == 1 <==> j < count)
    ensures CountShown(ns[..i]) == if i < count then i else count
  {
    if i > 0 {
      CountShownPrefix(ns, count, i - 1);
      assert ns[..i][..i - 1] == ns[..i - 1];
    }
  }

  /** At cursor `count` exactly `count` step nodes are shown. */
  lemma ShownStepsEqualCursor(count: int, overlay: map<string, Pos>)
    requires 0 <= count <= |AllSteps|
    ensures CountShown(GetNodes(count, overlay)[..|AllSteps|]) == count
  {
    var steps := GetNodes(count, overlay)[..|AllSteps|];
    CountShownPrefix(steps, count, |AllSteps|);
    assert steps[..|AllSteps|] == steps;
  }
}

