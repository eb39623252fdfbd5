/**
 * The PRD format migration: each user story's `availableMcpTools` (agent to
 * tool list) is replaced by `mcpTools` (`step{n}` to deduplicated MCP names),
 * and the top-level `mcpDiscovery` is dropped.
 */
module PrdConvert {
  import opened Wrappers

  /** An entry of an agent's tool list: a bare MCP name, or an object whose `mcp` field names it. */
  datatype ToolItem = NameItem(name: string) | ObjectItem(mcp: Option<string>)

  /** An agent's entry in `availableMcpTools`; only arrays are read. */
  datatype AgentTools = ToolArray(items: seq<ToolItem>) | NotArray

  /** A JSON object from step keys to MCP names, in key insertion order. */
  type McpTools = seq<(string, seq<string>)>

  /** A JSON value kept as its text, with its JavaScript truthiness. */
  datatype Opaque = Opaque(raw: string, truthy: bool)

  /**
   * A user story: the fields the migration reads or writes, and all others.
   * An absent or falsy field is None.
   */
  datatype Story = Story(fields: map<string, Opaque>,
                         mavenSteps: Option<seq<int>>,
                         availableMcpTools: Option<map<string, AgentTools>>,
                         mcpTools: Option<McpTools>)

  /** The PRD document; `userStories` is None unless it is an array. */
  datatype Prd = Prd(fields: map<string, Opaque>,
                     userStories: Option<seq<Story>>,
                     mcpDiscovery: Option<Opaque>)

  /** `STEP_TO_AGENT`: the agent that runs each Maven step. */
  function StepToAgent(step: int): (r: Option<string>)
    ensures r.Some? <==> 1 <= step <= 11
  {
    if step == 1 || step == 2 || step == 7 || step == 9 then Some("development-agent")
    else if step == 3 || step == 4 || step == 6 then Some("refactor-agent")
    else if step == 5 then Some("quality-agent")
    else if step == 8 || step == 10 then Some("security-agent")
    else if step == 11 then Some("design-agent")
    else None
  }

  /** The property name `availableMcpTools[STEP_TO_AGENT[step]]` reads: an unknown step reads `"undefined"`. */
  function AgentKey(step: int): (k: string)
    ensures 1 <= step <= 11 ==> Some(k) == StepToAgent(step)
    ensures !(1 <= step <= 11) ==> k == "undefined"
  {
    StepToAgent(step).GetOr("undefined")
  }

  function DigitChar(d: int): (c: char)
    requires 0 <= d < 10
    ensures '0' <= c <= '9' && c as int - '0' as int == d
  {
    ('0' as int + d) as char
  }

  /** A decimal numeral as JavaScript prints one: digits only, and no leading zero unless it is `0`. */
  predicate Canonical(s: string) {
    |s| >= 1 && (forall i :: 0 <= i < |s| ==> '0' <= s[i] <= '9') && (|s| > 1 ==> s[0] != '0')
  }

  /** The decimal digits of `n`, most significant first. */
  function Digits(n: nat): (s: string)
    ensures |s| >= 1
    ensures forall i :: 0 <= i < |s| ==> '0' <= s[i] <= '9'
    ensures |s| > 1 ==> s[0] != '0'
    ensures DecimalValue(s) == n
  {
    if n < 10 then [DigitChar(n)]
    else
      var s := Digits(n / 10) + [DigitChar(n % 10)];
      assert s[..|s| - 1] == Digits(n / 10);
      s
  }

  /** The number a string of decimal digits spells (the inverse of `Digits`). */
  function DecimalValue(s: string): (n: nat)
  {
    if s == [] then 0
    else
      var d := s[|s| - 1] as int - '0' as int;
      DecimalValue(s[..|s| - 1]) * 10 + (if 0 <= d < 10 then d else 0)
  }

  /** How a JavaScript template literal prints an integer: a `-` before the digits of a negative one. */
  function Numeral(n: int): (s: string)
    ensures |s| >= 1 && (s[0] == '-' <==> n < 0)
    ensures n < 0 ==> Canonical(s[1..]) && DecimalValue(s[1..]) == -n
    ensures n >= 0 ==> Canonical(s) && DecimalValue(s) == n
  {
    if n < 0 then
      var s := "-" + Digits(-n);
      assert s[1..] == Digits(-n);
      s
    else Digits(n)
  }

  /** A numeral that does not start with `0` has a non-zero value. */
  lemma {:induction false} CanonicalPositive(s: string)
    requires Canonical(s) && s[0] != '0'
    ensures DecimalValue(s) >= 1
  {
    if |s| > 1 {
      var t := s[..|s| - 1];
      assert t[0] == s[0];
      CanonicalPositive(t);
    }
  }

  /** `Digits` is onto the canonical numerals: reading one and printing it back gives it again. */
  lemma {:induction false} DigitsOfDecimalValue(s: string)
    requires Canonical(s)
    ensures Digits(DecimalValue(s)) == s
  {
    var t, d := s[..|s| - 1], s[|s| - 1] as int - '0' as int;
    var v := DecimalValue(t);
    assert DecimalValue(s) == v * 10 + d;
    if |s| == 1 {
      assert DecimalValue(s) == d;
      assert s == [DigitChar(d)];
    } else {
      assert t[0] == s[0];
      CanonicalPositive(t);
      DigitsOfDecimalValue(t);
      assert (v * 10 + d) / 10 == v && (v * 10 + d) % 10 == d;
      assert s == t + [DigitChar(d)];
    }
  }

  /** Different integers print differently. */
  lemma NumeralInjective(a: int, b: int)
    requires Numeral(a) == Numeral(b)
    ensures a == b
  {
  }

  /** The key `step${step}`. */
  function StepKey(step: int): (k: string)
    ensures |k| > 4 && k[..4] == "step" && k[4..] == Numeral(step)
  {
    "step" + Numeral(step)
  }

  /** Different steps get different keys. */
  lemma StepKeyInjective(a: int, b: int)
    requires StepKey(a) == StepKey(b)
    ensures a == b
  {
    assert Numeral(a) == StepKey(a)[4..] == StepKey(b)[4..] == Numeral(b);
    NumeralInjective(a, b);
  }

  /** `typeof item === 'string' ? item : item.mcp`. */
  function NameOf(item: ToolItem): (r: Option<string>)
  {
    match item
    case NameItem(n) => Some(n)
    case ObjectItem(m) => m
  }

  /** Kept by `.filter(mcp => mcp)`: `undefined` and the empty string are falsy, every other string truthy. */
  predicate Truthy(name: Option<string>)
  {
    name.Some? && name.value != ""
  }

  /** The MCP names of a tool list, item by item, falsy ones dropped. */
  function McpNames(items: seq<ToolItem>): (r: seq<string>)
    ensures |r| <= |items|
    ensures forall x :: x in r ==> x != "" && exists i :: 0 <= i < |items| && NameOf(items[i]) == Some(x)
    ensures forall i :: 0 <= i < |items| && Truthy(NameOf(items[i])) ==> NameOf(items[i]).value in r
  {
    if items == [] then []
    else
      var rest := McpNames(items[..|items| - 1]);
      var n := NameOf(items[|items| - 1]);
      if Truthy(n) then rest + [n.value] else rest
  }

  /** A single item contributes its name when that name is truthy, and nothing otherwise. */
  lemma McpNamesOne(item: ToolItem)
    ensures McpNames([item]) == if Truthy(NameOf(item)) then [NameOf(item).value] else []
  {
    assert [item][..0] == [];
  }

  /** `map` and `filter` keep the items' order: the names of a concatenation are the concatenated names. */
  lemma {:induction false} McpNamesAppend(a: seq<ToolItem>, b: seq<ToolItem>)
    ensures McpNames(a + b) == McpNames(a) + McpNames(b)
  {
    if b == [] {
      assert a + b == a;
    } else {
      var b' := b[..|b| - 1];
      McpNamesAppend(a, b');
      assert (a + b)[..|a + b| - 1] == a + b';
      assert (a + b)[|a + b| - 1] == b[|b| - 1];
    }
  }

  predicate NoDuplicates(s: seq<string>)
  {
    forall i, j :: 0 <= i < j < |s| ==> s[i] != s[j]
  }

  /** The index of the first occurrence of `x` in `s`. */
  function FirstIndex(s: seq<string>, x: string): (r: nat)
    requires x in s
    ensures r < |s| && s[r] == x
    ensures forall j :: 0 <= j < r ==> s[j] != x
  {
    if x in s[..|s| - 1] then FirstIndex(s[..|s| - 1], x) else |s| - 1
  }

  /** `[...new Set(s)]`: each element once, in order of first occurrence. */
  function Dedupe(s: seq<string>): (r: seq<string>)
    ensures NoDuplicates(r)
    ensures forall x :: x in r <==> x in s
    ensures forall i, j :: 0 <= i < j < |r| ==> FirstIndex(s, r[i]) < FirstIndex(s, r[j])
  {
    if s == [] then []
    else
      var init := s[..|s| - 1];
      var p := Dedupe(init);
      var x := s[|s| - 1];
      assert forall y :: y in init ==> FirstIndex(s, y) == FirstIndex(init, y);
      if x in p then p else p + [x]
  }

  /** The names step `step` contributes, when the agent's entry is an array yielding any. */
  function StepEntry(tools: map<string, AgentTools>, step: int): (r: Option<seq<string>>)
    ensures r.Some? <==>
      AgentKey(step) in tools && tools[AgentKey(step)].ToolArray? && McpNames(tools[AgentKey(step)].items) != []
    ensures r.Some? ==>
      && r.value != [] && NoDuplicates(r.value)
      && r.value == Dedupe(McpNames(tools[AgentKey(step)].items))
      && forall x :: x in r.value <==> x in McpNames(tools[AgentKey(step)].items)
  {
    var agent := AgentKey(step);
    if agent in tools && tools[agent].ToolArray? then
      var names := McpNames(tools[agent].items);
      if names != [] then Some(Dedupe(names)) else None
    else None
  }

  /** The keys of an object, in order. */
  function Keys(m: McpTools): (ks: seq<string>)
    ensures |ks| == |m| && forall i :: 0 <= i < |m| ==> ks[i] == m[i].0
  {
    seq(|m|, i requires 0 <= i < |m| => m[i].0)
  }

  predicate DistinctKeys(m: McpTools) { NoDuplicates(Keys(m)) }

  /** Where key `k` sits in `m`, or -1. */
  function KeyIndex(m: McpTools, k: string): (r: int)
    ensures r == -1 <==> forall i :: 0 <= i < |m| ==> m[i].0 != k
    ensures r != -1 ==> 0 <= r < |m| && m[r].0 == k
  {
    if m == [] then -1
    else if m[|m| - 1].0 == k then |m| - 1
    else KeyIndex(m[..|m| - 1], k)
  }

  /** `obj[k] = v`: an existing key keeps its place, a new key goes last. */
  function Put(m: McpTools, k: string, v: seq<string>): (r: McpTools)
    ensures (k, v) in r
    ensures k !in Keys(m) ==> r == m + [(k, v)]
    ensures k in Keys(m) ==> Keys(r) == Keys(m)
  {
    var i := KeyIndex(m, k);
    if i == -1 then m + [(k, v)]
    else
      var r := m[i := (k, v)];
      assert forall j :: 0 <= j < |m| ==> Keys(r)[j] == Keys(m)[j];
      assert r[i] == (k, v);
      r
  }

  lemma PutEntries(m: McpTools, k: string, v: seq<string>)
    requires DistinctKeys(m)
    ensures var r := Put(m, k, v);
      && DistinctKeys(r) && (k, v) in r
      && (forall e :: e in r ==> e == (k, v) || (e in m && e.0 != k))
      && (forall e :: e in m && e.0 != k ==> e in r)
  {
    var i := KeyIndex(m, k);
    var r := Put(m, k, v);
    if i == -1 {
      assert r[|m|] == (k, v);
      assert forall j :: 0 <= j < |m| ==> Keys(r)[j] == Keys(m)[j];
    } else {
      assert r[i] == (k, v);
      assert forall j :: 0 <= j < |m| ==> Keys(r)[j] == Keys(m)[j];
      forall e | e in r ensures e == (k, v) || (e in m && e.0 != k) {
        var j :| 0 <= j < |r| && r[j] == e;
        if j != i {
          assert Keys(m)[j] != Keys(m)[i];
        }
      }
      forall e | e in m && e.0 != k ensures e in r {
        var j :| 0 <= j < |m| && m[j] == e;
        assert r[j] == e;
      }
    }
  }

  /** The `mcpTools` object `mavenSteps.forEach` fills: at most one key per step, no key twice. */
  function BuildMcpTools(tools: map<string, AgentTools>, steps: seq<int>): (r: McpTools)
    ensures DistinctKeys(r) && |r| <= |steps|
  {
    if steps == [] then []
    else
      var m := BuildMcpTools(tools, steps[..|steps| - 1]);
      var n := steps[|steps| - 1];
      match StepEntry(tools, n)
      case Some(names) =>
        PutEntries(m, StepKey(n), names);
        Put(m, StepKey(n), names)
      case None => m
  }

  /** Each entry is `step{n}` with the names of some step `n` listed in `steps`. */
  ghost predicate EntriesFromSteps(m: McpTools, tools: map<string, AgentTools>, steps: seq<int>)
  {
    forall e :: e in m ==> exists n :: n in steps && e.0 == StepKey(n) && StepEntry(tools, n) == Some(e.1)
  }

  /** Every listed step that yields names has its key. */
  ghost predicate KeysCoverSteps(m: McpTools, tools: map<string, AgentTools>, steps: seq<int>)
  {
    forall n :: n in steps && StepEntry(tools, n).Some? ==> StepKey(n) in Keys(m)
  }

  /**
   * What the converter promises of `mcpTools`: distinct keys; each entry is
   * `step{n}` with the names of some step `n` listed in `steps`; and every
   * listed step that yields names is present under its own key with its own names.
   */
  ghost predicate McpToolsFor(m: McpTools, tools: map<string, AgentTools>, steps: seq<int>)
  {
    && DistinctKeys(m)
    && EntriesFromSteps(m, tools, steps)
    && (forall n :: n in steps && StepEntry(tools, n).Some? ==> (StepKey(n), StepEntry(tools, n).value) in m)
  }

  lemma {:induction false} BuildEntriesFromSteps(tools: map<string, AgentTools>, steps: seq<int>)
    ensures EntriesFromSteps(BuildMcpTools(tools, steps), tools, steps)
  {
    if steps != [] {
      var init := steps[..|steps| - 1];
      var n := steps[|steps| - 1];
      var m := BuildMcpTools(tools, init);
      BuildEntriesFromSteps(tools, init);
      assert forall x :: x in init ==> x in steps;
      match StepEntry(tools, n)
      case None =>
      case Some(names) =>
        var r := Put(m, StepKey(n), names);
        PutEntries(m, StepKey(n), names);
        forall e | e in r
          ensures exists n' :: n' in steps && e.0 == StepKey(n') && StepEntry(tools, n') == Some(e.1)
        {
          if e == (StepKey(n), names) {
            assert n in steps;
          }
        }
    }
  }

  lemma {:induction false} BuildKeysCoverSteps(tools: map<string, AgentTools>, steps: seq<int>)
    ensures KeysCoverSteps(BuildMcpTools(tools, steps), tools, steps)
  {
    if steps != [] {
      var init := steps[..|steps| - 1];
      var n := steps[|steps| - 1];
      var m := BuildMcpTools(tools, init);
      BuildKeysCoverSteps(tools, init);
      match StepEntry(tools, n)
      case None =>
      case Some(names) =>
        var r := Put(m, StepKey(n), names);
        PutEntries(m, StepKey(n), names);
        forall n' | n' in steps && StepEntry(tools, n').Some?
          ensures StepKey(n') in Keys(r)
        {
          if StepKey(n') == StepKey(n) {
            var j :| 0 <= j < |r| && r[j] == (StepKey(n), names);
            assert Keys(r)[j] == StepKey(n');
          } else {
            assert n' in init;
            var j :| 0 <= j < |m| && Keys(m)[j] == StepKey(n');
            assert m[j] in r;
            var j' :| 0 <= j' < |r| && r[j'] == m[j];
            assert Keys(r)[j'] == StepKey(n');
          }
        }
    }
  }

  lemma BuildMcpToolsIsFor(tools: map<string, AgentTools>, steps: seq<int>)
    ensures McpToolsFor(BuildMcpTools(tools, steps), tools, steps)
  {
    var m := BuildMcpTools(tools, steps);
    BuildEntriesFromSteps(tools, steps);
    BuildKeysCoverSteps(tools, steps);
    forall n | n in steps && StepEntry(tools, n).Some?
      ensures (StepKey(n), StepEntry(tools, n).value) in m
    {
      var j :| 0 <= j < |m| && Keys(m)[j] == StepKey(n);
      assert m[j] in m;
      var n' :| n' in steps && m[j].0 == StepKey(n') && StepEntry(tools, n') == Some(m[j].1);
      StepKeyInjective(n, n');
    }
  }

  /** Some step listed in `steps` yields MCP names. */
  ghost predicate AnyStepYields(tools: map<string, AgentTools>, steps: seq<int>)
  {
    exists n :: n in steps && StepEntry(tools, n).Some?
  }

  /** `Object.keys(mcpTools).length > 0` exactly when some listed step yields names. */
  lemma BuildMcpToolsEmpty(tools: map<string, AgentTools>, steps: seq<int>)
    ensures BuildMcpTools(tools, steps) == [] <==> !AnyStepYields(tools, steps)
  {
    var m := BuildMcpTools(tools, steps);
    BuildMcpToolsIsFor(tools, steps);
    if AnyStepYields(tools, steps) {
      var n :| n in steps && StepEntry(tools, n).Some?;
      assert StepKey(n) in Keys(m);
    }
    if m != [] {
      assert m[0] in m;
    }
  }

  /**
   * One story of the `userStories.forEach`: a story with `availableMcpTools`
   * loses it and gains the `mcpTools` built from its `mavenSteps` when that
   * is non-empty; any other story is untouched.
   */
  function ConvertStory(s: Story): (r: Story)
    ensures r.availableMcpTools.None?
    ensures r.fields == s.fields && r.mavenSteps == s.mavenSteps
    ensures s.availableMcpTools.None? ==> r == s
  {
    match s.availableMcpTools
    case None => s
    case Some(tools) =>
      var m := BuildMcpTools(tools, s.mavenSteps.GetOr([]));
      s.(availableMcpTools := None, mcpTools := if m != [] then Some(m) else s.mcpTools)
  }

  /**
   * A converted story gets well-formed `mcpTools` when some step yields names,
   * and otherwise keeps whatever `mcpTools` it had.
   */
  lemma ConvertStoryMcpTools(s: Story)
    requires s.availableMcpTools.Some?
    ensures var tools, steps := s.availableMcpTools.value, s.mavenSteps.GetOr([]);
      var r := ConvertStory(s);
      && (!AnyStepYields(tools, steps) ==> r.mcpTools == s.mcpTools)
      && (AnyStepYields(tools, steps) ==>
            r.mcpTools.Some? && r.mcpTools.value != [] && McpToolsFor(r.mcpTools.value, tools, steps))
  {
    var tools, steps := s.availableMcpTools.value, s.mavenSteps.GetOr([]);
    BuildMcpToolsEmpty(tools, steps);
    BuildMcpToolsIsFor(tools, steps);
  }

  /** A story with tools but no `mavenSteps` only loses `availableMcpTools`. */
  lemma ConvertStoryWithoutSteps(s: Story)
    requires s.availableMcpTools.Some? && s.mavenSteps.None?
    ensures ConvertStory(s) == s.(availableMcpTools := None)
  {
  }

  /** How many stories carry `availableMcpTools` (`convertedCount`). */
  function CountWithTools(stories: seq<Story>): (n: nat)
    ensures n <= |stories|
  {
    if stories == [] then 0
    else CountWithTools(stories[..|stories| - 1])
         + (if stories[|stories| - 1].availableMcpTools.Some? then 1 else 0)
  }

  /** The converted document, as `convertPrdFile` writes it back. */
  function ConvertPrd(prd: Prd): (r: Prd)
    ensures r.fields == prd.fields
    ensures r.userStories.None? <==> prd.userStories.None?
    ensures prd.userStories.Some? ==>
      && |r.userStories.value| == |prd.userStories.value|
      && forall i :: 0 <= i < |prd.userStories.value| ==>
           r.userStories.value[i] == ConvertStory(prd.userStories.value[i])
    ensures prd.mcpDiscovery.Some? && prd.mcpDiscovery.value.truthy ==> r.mcpDiscovery.None?
    ensures !(prd.mcpDiscovery.Some? && prd.mcpDiscovery.value.truthy) ==> r.mcpDiscovery == prd.mcpDiscovery
  {
    var stories := match prd.userStories
      case None => None
      case Some(ss) => Some(seq(|ss|, i requires 0 <= i < |ss| => ConvertStory(ss[i])));
    var discovery := if prd.mcpDiscovery.Some? && prd.mcpDiscovery.value.truthy then None else prd.mcpDiscovery;
    Prd(prd.fields, stories, discovery)
  }

  /**
   * A story whose opaque fields do not shadow the dedicated ones: a falsy
   * `availableMcpTools` or `mavenSteps` may sit among the opaque fields (the
   * migration ignores it), a truthy one may not, and `mcpTools` never does.
   */
  predicate WellFormedStory(s: Story) {
    && ("availableMcpTools" in s.fields ==> !s.fields["availableMcpTools"].truthy && s.availableMcpTools.None?)
    && ("mavenSteps" in s.fields ==> !s.fields["mavenSteps"].truthy && s.mavenSteps.None?)
    && "mcpTools" !in s.fields
  }

  /** A document whose opaque fields hold neither `mcpDiscovery` nor an array `userStories`, with well-formed stories. */
  predicate WellFormedPrd(prd: Prd) {
    && "mcpDiscovery" !in prd.fields
    && ("userStories" in prd.fields ==> prd.userStories.None?)
    && (prd.userStories.Some? ==> forall s :: s in prd.userStories.value ==> WellFormedStory(s))
  }

  /** Conversion keeps a story well formed, and what is kept there is exactly the input's opaque fields. */
  lemma ConvertStoryWellFormed(s: Story)
    requires WellFormedStory(s)
    ensures WellFormedStory(ConvertStory(s)) && ConvertStory(s).fields == s.fields
  {
  }

  /**
   * After conversion no story keeps a truthy `availableMcpTools`: the dedicated
   * field is gone, and a well-formed document holds no truthy one elsewhere.
   */
  lemma ConvertPrdDropsAvailableTools(prd: Prd)
    ensures var r := ConvertPrd(prd);
      r.userStories.Some? ==> forall s :: s in r.userStories.value ==> s.availableMcpTools.None?
    ensures WellFormedPrd(prd) ==> WellFormedPrd(ConvertPrd(prd))
    ensures WellFormedPrd(prd) && ConvertPrd(prd).userStories.Some? ==>
      forall s :: s in ConvertPrd(prd).userStories.value ==>
        !("availableMcpTools" in s.fields && s.fields["availableMcpTools"].truthy)
  {
    if WellFormedPrd(prd) && prd.userStories.Some? {
      var ss := prd.userStories.value;
      forall s | s in ConvertPrd(prd).userStories.value
        ensures WellFormedStory(s)
      {
        var i :| 0 <= i < |ss| && s == ConvertStory(ss[i]);
        ConvertStoryWellFormed(ss[i]);
      }
    }
  }

  /** The `mavenSteps.forEach` loop filling `mcpTools`. */
  method BuildStepTools(tools: map<string, AgentTools>, steps: seq<int>) returns (m: McpTools)
    ensures m == BuildMcpTools(tools, steps)
    ensures McpToolsFor(m, tools, steps)
    ensures m == [] <==> !AnyStepYields(tools, steps)
  {
    m := [];
    var i := 0;
    while i < |steps|
      invariant 0 <= i <= |steps|
      invariant m == BuildMcpTools(tools, steps[..i])
    {
      assert steps[..i + 1][..i] == steps[..i];
      var step := steps[i];
      var agent := AgentKey(step);
      if agent in tools && tools[agent].ToolArray? {
        var names := McpNames(tools[agent].items);
        if |names| > 0 {
          m := Put(m, StepKey(step), Dedupe(names));
        }
      }
      i := i + 1;
    }
    assert steps[..i] == steps;
    BuildMcpToolsIsFor(tools, steps);
    BuildMcpToolsEmpty(tools, steps);
  }

  /** The body of the `userStories.forEach`, rewriting one story. */
  method ConvertOneStory(story: Story) returns (r: Story, converted: bool)
    ensures converted <==> story.availableMcpTools.Some?
    ensures r == ConvertStory(story)
  {
    r := story;
    converted := story.availableMcpTools.Some?;
    if converted {
      var m := BuildStepTools(story.availableMcpTools.value, story.mavenSteps.GetOr([]));
      r := r.(availableMcpTools := None);
      if |m| > 0 {
        r := r.(mcpTools := Some(m));
      }
    }
  }

  /**
   * `convertPrdFile` with the file read and write taken out: `parsed` is the
   * result of `JSON.parse` (None when it threw). Returns whether the file was
   * converted, the document written back, and the number of converted stories.
   */
  method ConvertPrdFile(parsed: Option<Prd>) returns (ok: bool, written: Option<Prd>, convertedCount: nat)
    ensures ok <==> parsed.Some?
    ensures !ok ==> written.None? && convertedCount == 0
    ensures ok ==> written == Some(ConvertPrd(parsed.value))
    ensures ok && parsed.value.userStories.Some? ==> convertedCount == CountWithTools(parsed.value.userStories.value)
    ensures ok && parsed.value.userStories.None? ==> convertedCount == 0
  {
    if parsed.None? {
      return false, None, 0;
    }
    var prd := parsed.value;
    convertedCount := 0;
    if prd.userStories.Some? {
      ghost var original := prd.userStories.value;
      var stories := prd.userStories.value;
      var i := 0;
      while i < |stories|
        invariant 0 <= i <= |stories| == |original|
        invariant forall j :: 0 <= j < i ==> stories[j] == ConvertStory(original[j])
        invariant forall j :: i <= j < |stories| ==> stories[j] == original[j]
        invariant convertedCount == CountWithTools(original[..i])
      {
        assert original[..i + 1][..i] == original[..i];
        var story, converted := ConvertOneStory(stories[i]);
        if converted {
          stories := stories[i := story];
          convertedCount := convertedCount + 1;
        }
        i := i + 1;
      }
      assert original[..i] == original;
      assert stories == ConvertPrd(parsed.value).userStories.value;
      prd := prd.(userStories := Some(stories));
    }
    if prd.mcpDiscovery.Some? && prd.mcpDiscovery.value.truthy {
      prd := prd.(mcpDiscovery := None);
    }
    return true, Some(prd), convertedCount;
  }
}

