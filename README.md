# Maven Flow: step-reveal flowchart and PRD MCP migration

This project models two pieces of the Maven Flow repository in Dafny, and proves properties of both models.

**The step-reveal flowchart** (`flowchart/src/App.tsx`). It draws a fixed workflow graph of 16 steps, 4 notes and 19 edges, and reveals it one step at a time.
- A single cursor, `visibleCount`, drives the whole view. Step `i` is shown iff `i < visibleCount`. A note is shown once the cursor reaches its `appearsWithStep`. A spec edge is shown iff the `findIndex` of both its endpoints is below the cursor.
- Next and Previous move the cursor within `[1, 16]` and rebuild the node and edge lists. Reset restores the start-up state.
- Drag events write into a position overlay. Every projection reads the overlay, so a moved node stays where it was put when the cursor moves.
- Module `FlowGraph` holds the static data, `FlowRender` the pure projections, and `FlowApp` the state class `FlowState` with its controls and event handlers.

**The PRD migration** (`convert-prd-mcp.js`). Module `PrdConvert` covers this part.
- Each user story that has an `availableMcpTools` entry (agent → tool list) loses it.
- In its place the story gains `mcpTools` (`step{n}` → deduplicated MCP names), built from its `mavenSteps` through the fixed `STEP_TO_AGENT` table. It gains `mcpTools` only when that object would be non-empty.
- A truthy top-level `mcpDiscovery` is removed.
- `ConvertPrdFile` is the loop over the stories. `BuildStepTools` is the loop over `mavenSteps`. Both are proved against the functions `ConvertPrd` and `BuildMcpTools`.

Modelling choices worth knowing:
- `getEdgeVisibility` uses `findIndex`, which returns -1 for an unknown id. The model keeps this (`FindIndexFrom`). `EdgeEndsAt` proves that no spec edge is affected.
- `STEP_TO_AGENT[step]` is `undefined` for a step outside 1–11. The property read is then `availableMcpTools["undefined"]`. `AgentKey` models exactly that.
- A converted story whose steps yield no names keeps any `mcpTools` it already had: the source neither sets nor deletes it.
- `mcpDiscovery` is deleted only when it is truthy, so falsy values survive. `Opaque.truthy` records that.
- Reset rebuilds the edges with `index < 0`, not through the visibility rule. `InitialEdgesMatchCursorOne` proves the result equals the projection at cursor 1.

Three behaviours of the code that are easy to get wrong, and that the model follows:
- **Reset.** Reset does not clear the overlay. It sets it to a copy of the default table (App.tsx:451), so `Reset` ensures `positions == DefaultPositions`.
- **Step count.** There are 16 steps, and the loop-back edge `12`→`4` joins indices 14 and 3. So that edge appears from cursor 15 on (`BackEdgeRevealedAtFifteen`).
- **Duplicate edges.** `onConnect` itself does not reject a duplicate connection. Any such rejection would happen inside the rendering library's `addEdge`, which this model does not include.

## Model

| member | source | states |
|---|---|---|
| FlowGraph.FindIndexFrom | flowchart/src/App.tsx:415-417 | `findIndex`: -1 iff no step from `from` on has the id; otherwise the first index holding it |
| FlowGraph.FindIndex | flowchart/src/App.tsx:416-417 | `allSteps.findIndex`: -1 iff no step has the id; otherwise the first index holding it |
| FlowGraph.StepIdsDistinct | flowchart/src/App.tsx:36-68 | the 16 step ids are pairwise distinct |
| FlowGraph.FindIndexOfStep | flowchart/src/App.tsx:416-417 | every step is found by `findIndex` at its own index |
| FlowGraph.EdgeEndsAt | flowchart/src/App.tsx:248-279 | both endpoints of every spec edge are steps, at the indices given by the table `EdgeEnds` (never -1) |
| FlowGraph.DefaultsCoverAllNodes | flowchart/src/App.tsx:217-246 | the default layout has an entry for every step and every note, and a note's entry is the note's own position |
| FlowRender.NodePosition | flowchart/src/App.tsx:285 | where a node is drawn, `position \|\| positions[id]` with `position` read from `nodePositions.current` (line 360): its overlay entry when the overlay has the id, else its default position |
| FlowRender.ShownStepsFormGrowingPrefix | flowchart/src/App.tsx:359-361 | under the test `index < count`, the shown steps are a prefix of the step list (a shown step's predecessors are shown), and a step shown at one cursor stays shown at the next |
| FlowRender.NoteVisible | flowchart/src/App.tsx:363 | a note is shown iff the step it appears with (counted from 1) is shown |
| FlowRender.EdgeVisible | flowchart/src/App.tsx:415-419 | between two steps, an edge is visible iff every step it touches is shown; an edge whose ends name no step is visible at any cursor ≥ 0 |
| FlowRender.EdgeId | flowchart/src/App.tsx:305 | the id is `e`, then the source, then `-`, then the target, at those exact positions |
| FlowRender.CreateNode | flowchart/src/App.tsx:281-301 | a step node has the step's id, title, phase and colour and the overlay-or-default position; opacity is 1 when visible and 0 when hidden; pointer events are on iff visible |
| FlowRender.CreateNoteNode | flowchart/src/App.tsx:337-352 | a note node follows the same opacity, pointer-event and position rule as a step node |
| FlowRender.CreateEdge | flowchart/src/App.tsx:303-335 | id `e{source}-{target}`, endpoints and handles copied; `animated` equals visibility; a label appears only on a visible edge, and a visible edge shows the spec's label |
| FlowRender.GetNodes | flowchart/src/App.tsx:358-367 | all 16 step nodes in order with their titles, phases and colours, then all 4 note nodes; step `i` is shown iff `i < count`; a note is shown iff `count >= appearsWithStep`; each position is the overlay entry if present, else the default |
| FlowRender.SpecEdges | flowchart/src/App.tsx:427-431 | exactly one rendered edge per spec edge, in order, each built with the edge visibility rule |
| FlowRender.InitialEdges | flowchart/src/App.tsx:370-372 | the start-up edge list has one entry per spec edge |
| FlowRender.SpecEdgeVisibleIffEndsRevealed | flowchart/src/App.tsx:415-419 | a spec edge is visible iff every step it touches is revealed, whichever end comes later (covers back edges) |
| FlowRender.BackEdgeRevealedAtFifteen | flowchart/src/App.tsx:275 | the loop-back edge `12`→`4` is visible, animated and labelled "More stories" iff the cursor is at least 15 |
| FlowRender.InitialEdgesMatchCursorOne | flowchart/src/App.tsx:369-372 | the edges built with `index < 0` equal the projection at cursor 1, and every one is hidden, unanimated and unlabelled |
| FlowRender.EdgeIdInjective | flowchart/src/App.tsx:305 | `e{source}-{target}` determines source and target when the sources contain no `-` |
| FlowRender.SpecEdgeIdsDistinct | flowchart/src/App.tsx:305 | the 19 rendered spec edges have pairwise distinct ids |
| FlowRender.ShownStepsEqualCursor | flowchart/src/App.tsx:359-361 | at cursor `count` in `[0, 16]`, exactly `count` step nodes are drawn opaque |
| FlowApp.Advance | flowchart/src/App.tsx:422-423 | Next adds one below the last step and is otherwise a no-op; it keeps the cursor in `[1, 16]` |
| FlowApp.Retreat | flowchart/src/App.tsx:436-437 | Previous subtracts one above the first step and is otherwise a no-op; it keeps the cursor in `[1, 16]` |
| FlowApp.AdvanceReachesLastStep | flowchart/src/App.tsx:422-424 | from cursor 1, 15 presses of Next reach 16; a further press changes nothing |
| FlowApp.RetreatUndoesAdvance | flowchart/src/App.tsx:421-447 | below the last step, Previous after Next restores the cursor |
| FlowApp.ApplyPositions | flowchart/src/App.tsx:379-383 | applying changes never removes an overlay entry |
| FlowApp.ApplyPositionsAt | flowchart/src/App.tsx:379-383 | after a batch of changes, a node's entry is the position of its last position change with a position; an id with no such change keeps its entry |
| FlowApp.ConnectedEdge | flowchart/src/App.tsx:398-403 | a user-drawn edge keeps the connection's endpoints and handles, is animated, has no label and does not set opacity |
| FlowApp.FlowState.constructor | flowchart/src/App.tsx:355-375 | start-up state: cursor 1, overlay equal to the default table, nodes projected at cursor 1, all spec edges hidden |
| FlowApp.FlowState.Next | flowchart/src/App.tsx:421-433 | the cursor becomes `Advance(cursor)` and the overlay is unchanged; when it moved, the nodes and edges are re-projected, discarding user edges; otherwise nothing changes |
| FlowApp.FlowState.Prev | flowchart/src/App.tsx:435-447 | the same as Next, with `Retreat` |
| FlowApp.FlowState.Reset | flowchart/src/App.tsx:449-454 | the state equals the start-up state again (cursor, overlay, nodes and edges) |
| FlowApp.FlowState.ApplyPositionChanges | flowchart/src/App.tsx:377-387 | the overlay becomes `ApplyPositions(old overlay, changes)`; the cursor and the node and edge lists are untouched |
| FlowApp.FlowState.Connect | flowchart/src/App.tsx:396-406 | the validity invariant is kept, and the new connection's edge is appended to the edge list |
| FlowApp.DragThenNextPrev | flowchart/src/App.tsx:421-447 | a node dragged to `p` is still at `p` after Next then Previous: the overlay holds `p`, the node list is the projection of the final cursor and overlay, and the redrawn step or note node with that id is drawn at `p`; the cursor is restored when it was below the last step |
| PrdConvert.StepToAgent | convert-prd-mcp.js:13-25 | the step-to-agent table, defined exactly for steps 1 to 11 |
| PrdConvert.AgentKey | convert-prd-mcp.js:56-57 | the property read in `availableMcpTools`: the step's agent for steps 1 to 11, and `"undefined"` for any other step |
| PrdConvert.Digits | convert-prd-mcp.js:66 | the decimal rendering of `n` is a non-empty string of digits, with no leading zero unless it is `0`, whose decimal value is `n` |
| PrdConvert.Numeral | convert-prd-mcp.js:66 | `${n}` for an integer: a `-` exactly for negative `n`, then the canonical digits (no leading zero) of `\|n\|` |
| PrdConvert.DigitsOfDecimalValue | convert-prd-mcp.js:66 | the other half of the round trip: every canonical numeral is the rendering of its own value, so `Digits` is a bijection between naturals and canonical numerals |
| PrdConvert.NumeralInjective | convert-prd-mcp.js:66 | different integers print differently |
| PrdConvert.StepKey | convert-prd-mcp.js:66 | the key is `step` followed by the step's numeral |
| PrdConvert.StepKeyInjective | convert-prd-mcp.js:66 | different steps get different keys |
| PrdConvert.McpNames | convert-prd-mcp.js:61-63 | every name kept is non-empty and comes from some item (a string item names itself, an object item is named by its `mcp`); every item with a truthy (non-empty) name contributes it |
| PrdConvert.McpNamesOne | convert-prd-mcp.js:61-63 | a single item yields its name (the string itself, or the object's `mcp`) if that is a non-empty string, and nothing otherwise |
| PrdConvert.McpNamesAppend | convert-prd-mcp.js:61-63 | the names of `a + b` are the names of `a` followed by those of `b`; with `McpNamesOne`, this fixes the source order |
| PrdConvert.Dedupe | convert-prd-mcp.js:66 | `[...new Set(s)]`: no duplicates, the same elements as `s`, and in the order of their first occurrence in `s` |
| PrdConvert.StepEntry | convert-prd-mcp.js:56-68 | a step contributes names iff its agent's entry is an array yielding at least one name; the names are then that array's names, deduplicated |
| PrdConvert.Put | convert-prd-mcp.js:66 | `mcpTools[k] = v`: the pair is present afterwards; a new key is appended at the end; an existing key keeps the key order |
| PrdConvert.PutEntries | convert-prd-mcp.js:66 | assigning `mcpTools[k]` keeps keys distinct, holds the new pair, and keeps every entry under another key |
| PrdConvert.BuildMcpTools | convert-prd-mcp.js:55-69 | the `mcpTools` object of one story has distinct keys and at most one entry per listed step |
| PrdConvert.BuildEntriesFromSteps | convert-prd-mcp.js:55-69 | every entry is `step{n}` for a listed step `n` that yields names, mapped to those names |
| PrdConvert.BuildKeysCoverSteps | convert-prd-mcp.js:55-69 | every listed step that yields names has its key under `mcpTools` |
| PrdConvert.BuildMcpToolsIsFor | convert-prd-mcp.js:55-69 | every key is some listed step's `step{n}`, mapped to that step's names; keys are distinct; every listed step that yields names has its key |
| PrdConvert.BuildMcpToolsEmpty | convert-prd-mcp.js:75-77 | `mcpTools` is empty iff no listed step yields names |
| PrdConvert.ConvertStory | convert-prd-mcp.js:48-81 | `availableMcpTools` is gone afterwards; the other fields and `mavenSteps` are kept; a story without `availableMcpTools` is returned unchanged |
| PrdConvert.ConvertStoryMcpTools | convert-prd-mcp.js:72-77 | a converted story gets non-empty, well-formed `mcpTools` iff some step yields names, and otherwise keeps its old `mcpTools` |
| PrdConvert.ConvertStoryWithoutSteps | convert-prd-mcp.js:52-55 | a story with tools but no `mavenSteps` only loses `availableMcpTools` |
| PrdConvert.CountWithTools | convert-prd-mcp.js:79 | the converted count never exceeds the number of stories |
| PrdConvert.ConvertPrd | convert-prd-mcp.js:44-89 | other top-level fields are kept; each story is converted, in place and in order; a truthy `mcpDiscovery` is removed and any other is kept |
| PrdConvert.ConvertStoryWellFormed | convert-prd-mcp.js:48-81 | conversion keeps a story well formed and keeps its opaque fields |
| PrdConvert.ConvertPrdDropsAvailableTools | convert-prd-mcp.js:72 | after conversion no story has the dedicated `availableMcpTools`; conversion keeps a document well formed (no opaque field shadows a dedicated one), so no story keeps a truthy `availableMcpTools` anywhere |
| PrdConvert.BuildStepTools | convert-prd-mcp.js:55-69 | the `mavenSteps` loop computes `BuildMcpTools`, which is well-formed and empty iff no step yields names |
| PrdConvert.ConvertOneStory | convert-prd-mcp.js:48-81 | the loop body rewrites a story as `ConvertStory`, and counts it iff it had `availableMcpTools` |
| PrdConvert.ConvertPrdFile | convert-prd-mcp.js:34-96 | a parse failure returns false and writes nothing; otherwise returns true, writes the converted document, and counts the stories that had `availableMcpTools` |

## Left out

- React and JSX are not modelled: the `CustomNode`/`NoteNode` markup, the hooks and the `ReactFlow` props (fit view, pan, zoom, delete keys) are UI plumbing. The hook state is modelled as the fields of `FlowState`.
- The rendering library's `applyNodeChanges`, `applyEdgeChanges`, `addEdge` and `reconnectEdge` are foreign code. So `onEdgesChange` and `onReconnect` are not modelled.
- FlowApp.FlowState.ApplyPositionChanges: leaves the `nodes` list unchanged. In the source, the library's `applyNodeChanges` also moves the rendered node; only the overlay write is modelled.
- FlowApp.FlowState.Connect: does not model `addEdge`'s duplicate check or its generation of the edge id. The id is a parameter, and the edge is always appended.
- Styling constants are not modelled: stroke colours and widths, transitions, label backgrounds, markers and the `phaseColors` table. The colour fallback in `CustomNode` is also left out, since it only picks hex colours. Step nodes keep their phase and colour tag.
- Step descriptions, note texts and note colours are display data and are not modelled. The step titles are modelled exactly as written, emoji included, and each step node carries its title.
- Coordinates are integer pairs. At run time, drag positions may be fractional.
- The file I/O of `convert-prd-mcp.js` is not modelled: reading, writing and `existsSync`, glob expansion, `process.argv`, `process.exit`, the console output, `main` and its `successCount`. `JSON.parse` is an `Option` input, and `JSON.stringify` is left out.
- JSON values the migration does not inspect are opaque text in a field map. So the key order of stories and of the document is not modelled. The key order inside `mcpTools` is modelled.
- Inputs on which the source throws a `TypeError` are not modelled: a `null` entry of `userStories` (`story.id` throws), a `null` item in a tool list, a truthy `mavenSteps` that is not an array, and a parsed document that is `null`.
- Entries of `mavenSteps` are modelled as mathematical integers. JavaScript numbers differ in three ways that are not captured: a non-integer or string step, whose `STEP_TO_AGENT` lookup and key text follow string conversion; a step of magnitude 1e21 or more, which `${step}` prints in exponent form; and an integer beyond 2^53, which `JSON.parse` has already rounded.
- PrdConvert.McpNames: an object item's `mcp` is either absent or a string. A truthy non-string `mcp` (a number, an object, `true`) passes the source's filter and is kept in `mcpTools`; the model cannot express it.
- A falsy `availableMcpTools` or `mavenSteps` is absent from the dedicated field. It may sit among the opaque fields, which the migration leaves as they are (`WellFormedStory`), so it stays in the written JSON. A truthy `availableMcpTools` that is not an object reads no agent arrays, so it is modelled as an empty map. A `userStories` that is not an array is kept with the opaque fields.
