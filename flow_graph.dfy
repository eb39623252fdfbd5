/**
 * The static workflow graph of the flowchart: the sixteen steps in reveal
 * order, the four notes, the default layout table and the nineteen spec edges.
 */
module FlowGraph {
  import opened Wrappers

  /** A node coordinate (x, y). */
  type Pos = (int, int)

  datatype Phase = Entry | Setup | Coordination | Agents | Loop | Decision | Done

  datatype Step = Step(id: string, title: string, phase: Phase, color: Option<string>)

  datatype Note = Note(id: string, appearsWithStep: int, position: Pos)

  datatype EdgeSpec = EdgeSpec(source: string, target: string,
                               sourceHandle: Option<string>, targetHandle: Option<string>,
                               caption: Option<string>)

  /** The steps in declaration order; a step's index is its reveal order. */
  const AllSteps: seq<Step> := [
    Step("1", "Run /flow start", Entry, None),
    Step("2", "Load PRD", Setup, None),
    Step("3", "Read Progress", Setup, None),
    Step("4", "flow-iteration agent (🟡)", Coordination, None),
    Step("5a", "development-agent (🟢)", Agents, Some("green")),
    Step("5b", "refactor-agent (🔵)", Agents, Some("blue")),
    Step("5c", "quality-agent (🟣)", Agents, Some("purple")),
    Step("5d", "security-agent (🔴)", Agents, Some("red")),
    Step("6", "Implement Story", Loop, None),
    Step("7", "Quality Hooks", Loop, None),
    Step("8", "Stop Hook", Loop, None),
    Step("9", "Commit Changes", Loop, None),
    Step("10", "Update PRD", Loop, None),
    Step("11", "Log Progress", Loop, None),
    Step("12", "All stories complete?", Decision, None),
    Step("13", "FLOW_COMPLETE", Done, None)
  ]

  const Notes: seq<Note> := [
    Note("note-prd", 2, (550, 80)),
    Note("note-agents", 5, (600, 330)),
    Note("note-hooks", 7, (850, 550)),
    Note("note-architecture", 6, (100, 500))
  ]

  /**
   * The default layout: one entry per step, then each note's own position
   * (the notes' entries are written out; `DefaultsCoverAllNodes` ties them to `Notes`).
   */
  const DefaultPositions: map<string, Pos> := map[
    "1" := (50, 20), "2" := (50, 130), "3" := (50, 240), "4" := (50, 360),
    "5a" := (400, 320), "5b" := (400, 420), "5c" := (400, 520), "5d" := (400, 620),
    "6" := (800, 320), "7" := (800, 430), "8" := (800, 540), "9" := (800, 650),
    "10" := (800, 760), "11" := (800, 870), "12" := (400, 870), "13" := (400, 990),
    "note-prd" := (550, 80), "note-agents" := (600, 330),
    "note-hooks" := (850, 550), "note-architecture" := (100, 500)
  ]

  const EdgeConnections: seq<EdgeSpec> := [
    EdgeSpec("1", "2", Some("bottom"), Some("top"), None),
    EdgeSpec("2", "3", Some("bottom"), Some("top"), None),
    EdgeSpec("3", "4", Some("bottom"), Some("top"), None),
    EdgeSpec("4", "5a", Some("right"), Some("left"), None),
    EdgeSpec("4", "5b", Some("right"), Some("left"), None),
    EdgeSpec("4", "5c", Some("right"), Some("left"), None),
    EdgeSpec("4", "5d", Some("right"), Some("left"), None),
    EdgeSpec("5a", "6", Some("right"), Some("left"), None),
    EdgeSpec("5b", "6", Some("right"), Some("left"), None),
    EdgeSpec("5c", "6", Some("right"), Some("left"), None),
    EdgeSpec("5d", "6", Some("right"), Some("left"), None),
    EdgeSpec("6", "7", Some("bottom"), Some("top"), None),
    EdgeSpec("7", "8", Some("bottom"), Some("top"), None),
    EdgeSpec("8", "9", Some("bottom"), Some("top"), None),
    EdgeSpec("9", "10", Some("bottom"), Some("top"), None),
    EdgeSpec("10", "11", Some("bottom"), Some("top"), None),
    EdgeSpec("11", "12", Some("bottom"), Some("left"), None),
    EdgeSpec("12", "4", Some("top"), Some("bottom"), Some("More stories")),
    EdgeSpec("12", "13", Some("bottom"), Some("top"), Some("All done"))
  ]

  /**
   * `allSteps.findIndex(s => s.id === id)`, searching from index `from`:
   * the first index holding `id`, or -1 when there is none.
   */
  function FindIndexFrom(id: string, from: nat): (r: int)
    requires from <= |AllSteps|
    ensures r == -1 <==> forall j :: from <= j < |AllSteps| ==> AllSteps[j].id != id
    ensures r != -1 ==> from <= r < |AllSteps| && AllSteps[r].id == id
    ensures r != -1 ==> forall j :: from <= j < r ==> AllSteps[j].id != id
    decreases |AllSteps| - from
  {
    if from == |AllSteps| then -1
    else if AllSteps[from].id == id then from
    else FindIndexFrom(id, from + 1)
  }

  /** `allSteps.findIndex(s => s.id === id)`: -1 when no step has `id`, otherwise the first index holding it. */
  function FindIndex(id: string): (r: int)
    ensures r == -1 <==> forall j :: 0 <= j < |AllSteps| ==> AllSteps[j].id != id
    ensures r != -1 ==>
      0 <= r < |AllSteps| && AllSteps[r].id == id && forall j :: 0 <= j < r ==> AllSteps[j].id != id
  {
    FindIndexFrom(id, 0)
  }

  lemma StepIdsDistinct()
    ensures forall i, j :: 0 <= i < j < |AllSteps| ==> AllSteps[i].id != AllSteps[j].id
  {
  }


  /** Every step is found at its own index. */
  lemma FindIndexOfStep(i: int)
    requires 0 <= i < |AllSteps|
    ensures FindIndex(AllSteps[i].id) == i
  {
    StepIdsDistinct();
  }

  /** Where the two endpoints of each spec edge sit in `AllSteps` (checked by `EdgeEndsAt`). */
  const EdgeEnds: seq<(nat, nat)> := [
    (0, 1), (1, 2), (2, 3), (3, 4), (3, 5), (3, 6), (3, 7), (4, 8), (5, 8), (6, 8),
    (7, 8), (8, 9), (9, 10), (10, 11), (11, 12), (12, 13), (13, 14), (14, 3), (14, 15)
  ]

  /** `findIndex` places the source and target of spec edge `k` at the indices of `EdgeEnds`. */
  lemma EdgeEndsAt(k: int)
    requires 0 <= k < |EdgeConnections|
    ensures |EdgeEnds| == |EdgeConnections| && EdgeEnds[k].0 < |AllSteps| && EdgeEnds[k].1 < |AllSteps|
    ensures FindIndex(EdgeConnections[k].source) == EdgeEnds[k].0
    ensures FindIndex(EdgeConnections[k].target) == EdgeEnds[k].1
  {
    assert EdgeEnds[k].0 < |AllSteps| && AllSteps[EdgeEnds[k].0].id == EdgeConnections[k].source;
    assert EdgeEnds[k].1 < |AllSteps| && AllSteps[EdgeEnds[k].1].id == EdgeConnections[k].target;
    FindIndexOfStep(EdgeEnds[k].0);
    FindIndexOfStep(EdgeEnds[k].1);
  }

  /** Every step and every note has a default position; a note's default is its own position. */
  lemma DefaultsCoverAllNodes()
    ensures forall i :: 0 <= i < |AllSteps| ==> AllSteps[i].id in DefaultPositions
    ensures forall j :: 0 <= j < |Notes| ==>
      Notes[j].id in DefaultPositions && DefaultPositions[Notes[j].id] == Notes[j].position
  {
  }
}

