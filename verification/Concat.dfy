/**
 `FlowFrame.concat`: the frames become the inputs of one node, each source wired once,
 and the node's code names the inputs under the binding convention of the Polars-code
 node.
 */
module Concat {
  import opened Wrappers
  import opened Text

  /** A frame is a handle on one output of a graph node; `concat` rewrites `flowId` and
      `nodeId` when it moves the frame to a combined graph. */
  class FlowFrame {
    var flowId: int
    var nodeId: int
    const output: nat

    constructor (flowId: int, nodeId: int, output: nat)
      ensures this.flowId == flowId && this.nodeId == nodeId && this.output == output
    {
      this.flowId, this.nodeId, this.output := flowId, nodeId, output;
    }
  }

  /** What a node runs: the union, or code listing variables to concatenate. */
  datatype Plan = Union | Code(vars: seq<string>, how: string, rechunk: bool, parallel: bool)

  class Node {
    const plan: Plan
    var mainInputs: seq<int>
    var handles: map<int, nat>

    constructor (plan: Plan)
      ensures this.plan == plan && mainInputs == [] && handles == map[]
    {
      this.plan, mainInputs, handles := plan, [], map[];
    }

    /** Appends an input; the output it is read from is kept per source node. */
    method AddConnection(source: int, output: nat)
      modifies this
      ensures mainInputs == old(mainInputs) + [source] && handles == old(handles)[source := output]
    {
      mainInputs := mainInputs + [source];
      handles := handles[source := output];
    }

    /** The tables the node receives, in wiring order. */
    function Tables<T>(outputs: (int, nat) -> T): seq<T>
      reads this
    {
      Gather(mainInputs, handles, outputs)
    }

    /** The call of `pl.concat` the node makes; None when the code names an input that is
        not bound. */
    function Run<T>(outputs: (int, nat) -> T): Option<Call<T>>
      reads this
    {
      match plan
      case Union => Some(Call(Tables(outputs), "diagonal_relaxed", false, true))
      case Code(vars, how, rechunk, parallel) =>
        var tables := Resolve(vars, Binding(Tables(outputs)));
        if tables.None? then None else Some(Call(tables.value, how, rechunk, parallel))
    }
  }

  /** Each source read from the output its connection names, the first by default. */
  function Gather<T>(sources: seq<int>, handles: map<int, nat>, outputs: (int, nat) -> T): seq<T> {
    seq(|sources|, k requires 0 <= k < |sources| => outputs(sources[k], HandleOf(handles, sources[k])))
  }

  function HandleOf(handles: map<int, nat>, source: int): nat {
    if source in handles then handles[source] else 0
  }

  /** The values of the variables; an unbound one is an error. */
  function Resolve<T>(vars: seq<string>, bound: map<string, T>): Option<seq<T>> {
    if exists k :: 0 <= k < |vars| && vars[k] !in bound then None
    else Some(seq(|vars|, k requires 0 <= k < |vars| => bound[vars[k]]))
  }

  datatype Call<T> = Call(tables: seq<T>, how: string, rechunk: bool, parallel: bool)

  // --- the binding convention ---

  function Numbered(k: nat): string {
    "input_df_" + NatText(k)
  }

  /** `input_df_1`, `input_df_2`, ... for the first `n` tables. */
  function BindFirst<T>(tables: seq<T>, n: nat): map<string, T>
    requires n <= |tables|
  {
    if n == 0 then map[] else BindFirst(tables, n - 1)[Numbered(n) := tables[n - 1]]
  }

  /** One input is `input_df`, several are numbered from one. */
  function Binding<T>(tables: seq<T>): map<string, T> {
    if |tables| == 1 then map["input_df" := tables[0]] else BindFirst(tables, |tables|)
  }

  lemma NumberedInjective(j: nat, k: nat)
    requires Numbered(j) == Numbered(k)
    ensures j == k
  {
    assert Numbered(j)[|"input_df_"|..] == NatText(j) && Numbered(k)[|"input_df_"|..] == NatText(k);
    NatRoundTrip(j);
    NatRoundTrip(k);
  }

  lemma {:induction false} BoundFirst<T>(tables: seq<T>, n: nat, k: nat)
    requires 1 <= k <= n <= |tables|
    ensures Numbered(k) in BindFirst(tables, n) && BindFirst(tables, n)[Numbered(k)] == tables[k - 1]
  {
    if k < n {
      BoundFirst(tables, n - 1, k);
      if Numbered(k) == Numbered(n) { NumberedInjective(k, n); }
    }
  }

  /** The names as the Polars-code node has them. */
  lemma BindingNames<T>(a: T, b: T)
    ensures Binding([a]) == map["input_df" := a]
    ensures Binding([a, b]) == map["input_df_1" := a, "input_df_2" := b]
    ensures Numbered(10) == "input_df_10"
  {
    Decimal(0, 1);
    Decimal(0, 2);
    Decimal(1, 0);
    assert NatText(10) == "10";
    assert Numbered(1) == "input_df_1" && Numbered(2) == "input_df_2";
    var tables := [a, b];
    assert BindFirst(tables, 1) == map[Numbered(1) := a];
    assert BindFirst(tables, 2) == map[Numbered(1) := a][Numbered(2) := b];
  }

  // --- moving the frames to one graph ---

  predicate Distinct<T(==)>(s: seq<T>) {
    forall i, j :: 0 <= i < j < |s| ==> s[i] != s[j]
  }

  /** Each frame is looked up and rewritten in turn.  The combined graph has an id of its
      own, so a frame that occurs twice is not found the second time: the call succeeds
      exactly when no frame is repeated.  A failure leaves the frames before it moved. */
  method MoveFrames(frames: seq<FlowFrame>, mapping: map<(int, int), int>, combinedId: int) returns (ok: bool)
    requires forall key :: key in mapping ==> key.0 != combinedId
    requires forall f :: f in frames ==> (f.flowId, f.nodeId) in mapping
    modifies frames
    ensures ok <==> Distinct(frames)
    ensures ok ==> forall f :: f in frames ==> f.flowId == combinedId && f.nodeId == mapping[old((f.flowId, f.nodeId))]
    ensures forall f :: f in frames ==>
      || (f.flowId == old(f.flowId) && f.nodeId == old(f.nodeId))
      || (f.flowId == combinedId && f.nodeId == mapping[old((f.flowId, f.nodeId))])
  {
    var k := 0;
    while k < |frames|
      invariant 0 <= k <= |frames|
      invariant Distinct(frames[..k])
      invariant forall j :: 0 <= j < k ==>
        && frames[j].flowId == combinedId
        && frames[j].nodeId == mapping[old((frames[j].flowId, frames[j].nodeId))]
      invariant forall f :: f in frames && f !in frames[..k] ==> f.flowId == old(f.flowId) && f.nodeId == old(f.nodeId)
    {
      var f := frames[k];
      if (f.flowId, f.nodeId) !in mapping {
        assert f in frames[..k];
        return false;
      }
      assert f !in frames[..k];
      f.nodeId := mapping[(f.flowId, f.nodeId)];
      f.flowId := combinedId;
      assert frames[..k + 1] == frames[..k] + [f];
      k := k + 1;
    }
    assert frames[..k] == frames;
    ok := true;
  }

  // --- the sources, each once ---

  function Ids(frames: seq<FlowFrame>): (ids: seq<int>)
    reads frames
    ensures |ids| == |frames| && forall k :: 0 <= k < |ids| ==> ids[k] == frames[k].nodeId
  {
    seq(|frames|, k requires 0 <= k < |frames| reads frames => frames[k].nodeId)
  }

  /** The different ids of a list, in the order of their first occurrence. */
  function Unique(ids: seq<int>): (r: seq<int>)
    ensures |r| <= |ids|
    ensures forall id :: id in r <==> id in ids
  {
    if ids == [] then []
    else
      var before, last := Unique(ids[..|ids| - 1]), ids[|ids| - 1];
      assert forall id :: id in ids <==> id in ids[..|ids| - 1] || id == last;
      if last in before then before else before + [last]
  }

  lemma UniqueStep(ids: seq<int>, k: nat)
    requires k < |ids|
    ensures Unique(ids[..k + 1]) ==
            if ids[k] in ids[..k] then Unique(ids[..k]) else Unique(ids[..k]) + [ids[k]]
    ensures forall id :: id in ids[..k + 1] <==> id in ids[..k] || id == ids[k]
  {
    assert ids[..k + 1][..k] == ids[..k];
    assert ids[..k + 1] == ids[..k] + [ids[k]];
  }

  lemma {:induction false} UniqueIsDistinct(ids: seq<int>)
    ensures Distinct(Unique(ids))
  {
    if ids != [] { UniqueIsDistinct(ids[..|ids| - 1]); }
  }

  /** The sources of the first ids are the first sources: each stands where it first occurs. */
  lemma {:induction false} UniqueKeepsOrder(ids: seq<int>, k: nat)
    requires k <= |ids|
    ensures Unique(ids[..k]) <= Unique(ids)
  {
    if k == |ids| {
      assert ids[..k] == ids;
    } else {
      var front := ids[..|ids| - 1];
      assert front[..k] == ids[..k];
      UniqueKeepsOrder(front, k);
    }
  }

  lemma DistinctFront(ids: seq<int>)
    requires ids != []
    ensures Distinct(ids) <==> Distinct(ids[..|ids| - 1]) && ids[|ids| - 1] !in ids[..|ids| - 1]
  {
    var front, last := ids[..|ids| - 1], ids[|ids| - 1];
    if Distinct(ids) {
      forall i, j | 0 <= i < j < |front| ensures front[i] != front[j] { assert ids[i] != ids[j]; }
    }
  }

  lemma {:induction false} UniqueShorterIff(ids: seq<int>)
    ensures |Unique(ids)| < |ids| <==> !Distinct(ids)
  {
    if ids != [] {
      DistinctFront(ids);
      UniqueShorterIff(ids[..|ids| - 1]);
    }
  }

  /** Where each id stands among the sources. */
  predicate Positions(ids: seq<int>, unique: seq<int>, position: map<int, nat>) {
    forall id :: id in ids ==> id in position && position[id] < |unique| && unique[position[id]] == id
  }

  function Variable(unique: seq<int>, position: map<int, nat>, id: int): string
    requires id in position
  {
    if |unique| == 1 then "input_df" else Numbered(position[id] + 1)
  }

  method Sources(ids: seq<int>) returns (unique: seq<int>, position: map<int, nat>)
    ensures unique == Unique(ids) && Positions(ids, unique, position)
  {
    unique, position := [], map[];
    var k := 0;
    while k < |ids|
      invariant 0 <= k <= |ids|
      invariant unique == Unique(ids[..k])
      invariant forall id :: id in position <==> id in ids[..k]
      invariant forall id :: id in position ==> position[id] < |unique| && unique[position[id]] == id
    {
      UniqueStep(ids, k);
      if ids[k] !in position {
        position := position[ids[k] := |unique|];
        unique := unique + [ids[k]];
      }
      k := k + 1;
    }
    assert ids[..k] == ids;
  }

  method InputVars(ids: seq<int>, unique: seq<int>, position: map<int, nat>) returns (vars: seq<string>)
    requires Positions(ids, unique, position)
    ensures |vars| == |ids|
    ensures forall k :: 0 <= k < |vars| ==> ids[k] in position && vars[k] == Variable(unique, position, ids[k])
  {
    vars := [];
    if |unique| == 1 {
      for k := 0 to |ids|
        invariant |vars| == k
        invariant forall j :: 0 <= j < k ==> ids[j] in position && vars[j] == Variable(unique, position, ids[j])
      {
        var id := ids[k];
        assert id in ids;
        assert id in position;
        vars := vars + ["input_df"];
      }
    } else {
      for k := 0 to |ids|
        invariant |vars| == k
        invariant forall j :: 0 <= j < k ==> ids[j] in position && vars[j] == Variable(unique, position, ids[j])
      {
        var id := ids[k];
        assert id in ids;
        vars := vars + [Numbered(position[id] + 1)];
      }
    }
  }

  method Wire(ids: seq<int>, node: Node)
    requires node.mainInputs == [] && node.handles == map[]
    modifies node
    ensures node.mainInputs == Unique(ids)
    ensures forall id :: id in node.handles ==> node.handles[id] == 0
  {
    var seen: set<int> := {};
    var k := 0;
    while k < |ids|
      invariant 0 <= k <= |ids|
      invariant node.mainInputs == Unique(ids[..k])
      invariant forall id :: id in seen <==> id in ids[..k]
      invariant forall id :: id in node.handles ==> node.handles[id] == 0
    {
      UniqueStep(ids, k);
      if ids[k] !in seen {
        seen := seen + {ids[k]};
        node.AddConnection(ids[k], 0);
      }
      k := k + 1;
    }
    assert ids[..k] == ids;
  }

  // --- what the node does ---

  function FirstOutputs<T>(ids: seq<int>, outputs: (int, nat) -> T): seq<T> {
    seq(|ids|, k requires 0 <= k < |ids| => outputs(ids[k], 0))
  }

  function FrameData<T>(frames: seq<FlowFrame>, outputs: (int, nat) -> T): seq<T>
    reads frames
  {
    seq(|frames|, k requires 0 <= k < |frames| reads frames => outputs(frames[k].nodeId, frames[k].output))
  }

  /** A variable looks up the first output of the source it stands for. */
  lemma VariableReads<T>(unique: seq<int>, position: map<int, nat>, id: int, outputs: (int, nat) -> T)
    requires id in position && position[id] < |unique| && unique[position[id]] == id
    ensures var bound := Binding(FirstOutputs(unique, outputs));
            var name := Variable(unique, position, id);
            name in bound && bound[name] == outputs(id, 0)
  {
    var tables := FirstOutputs(unique, outputs);
    assert tables[position[id]] == outputs(id, 0);
    if |tables| != 1 { BoundFirst(tables, |tables|, position[id] + 1); }
  }

  /** All of them together give the first outputs of the frames' nodes, in order, with repeats. */
  lemma VariablesResolve<T>(ids: seq<int>, unique: seq<int>, position: map<int, nat>, vars: seq<string>,
      outputs: (int, nat) -> T)
    requires Positions(ids, unique, position) && |vars| == |ids|
    requires forall k :: 0 <= k < |vars| ==> ids[k] in position && vars[k] == Variable(unique, position, ids[k])
    ensures Resolve(vars, Binding(FirstOutputs(unique, outputs))) == Some(FirstOutputs(ids, outputs))
  {
    var bound := Binding(FirstOutputs(unique, outputs));
    forall k | 0 <= k < |vars| ensures vars[k] in bound && bound[vars[k]] == outputs(ids[k], 0) {
      assert ids[k] in ids;
      VariableReads(unique, position, ids[k], outputs);
    }
    var tables := Resolve(vars, bound);
    assert tables.Some? && |tables.value| == |ids|;
    forall k | 0 <= k < |ids| ensures tables.value[k] == outputs(ids[k], 0) {
    }
    assert tables.value == FirstOutputs(ids, outputs);
  }

  lemma {:induction false} DistinctIsUnique(ids: seq<int>)
    requires Distinct(ids)
    ensures Unique(ids) == ids
  {
    if ids != [] {
      DistinctFront(ids);
      DistinctIsUnique(ids[..|ids| - 1]);
      assert ids == ids[..|ids| - 1] + [ids[|ids| - 1]];
    }
  }

  lemma WiredTables<T>(node: Node, ids: seq<int>, outputs: (int, nat) -> T)
    requires node.mainInputs == Unique(ids)
    requires forall id :: id in node.handles ==> node.handles[id] == 0
    ensures node.Tables(outputs) == FirstOutputs(Unique(ids), outputs)
  {
    var tables, first := Gather(node.mainInputs, node.handles, outputs), FirstOutputs(node.mainInputs, outputs);
    forall k | 0 <= k < |node.mainInputs| ensures tables[k] == first[k] {
      assert HandleOf(node.handles, node.mainInputs[k]) == 0;
    }
  }

  predicate Named(vars: seq<string>, ids: seq<int>, position: map<int, nat>) {
    && Positions(ids, Unique(ids), position) && |vars| == |ids|
    && forall k :: 0 <= k < |vars| ==> ids[k] in position && vars[k] == Variable(Unique(ids), position, ids[k])
  }

  /** The plan says to concatenate the frames of nodes `ids`: the union, or code naming one
      variable per frame. */
  ghost predicate PlanFor(plan: Plan, ids: seq<int>, how: string, rechunk: bool, parallel: bool) {
    match plan
    case Union => Distinct(ids) && how == "diagonal_relaxed" && parallel && !rechunk
    case Code(vars, h, r, p) =>
      h == how && r == rechunk && p == parallel && exists position :: Named(vars, ids, position)
  }

  /** The node has such a plan, and each source is wired once. */
  ghost predicate Compiled(node: Node, ids: seq<int>, how: string, rechunk: bool, parallel: bool)
    reads node
  {
    && node.mainInputs == Unique(ids)
    && (forall id :: id in node.handles ==> node.handles[id] == 0)
    && PlanFor(node.plan, ids, how, rechunk, parallel)
  }

  /** Such a node makes the call that was asked for, on the first outputs of the nodes, in
      order and with repeats, whatever the outputs hold. */
  lemma CompiledRuns<T>(node: Node, ids: seq<int>, how: string, rechunk: bool, parallel: bool, outputs: (int, nat) -> T)
    requires Compiled(node, ids, how, rechunk, parallel)
    ensures node.Run(outputs) == Some(Call(FirstOutputs(ids, outputs), how, rechunk, parallel))
  {
    WiredTables(node, ids, outputs);
    match node.plan
    case Union => DistinctIsUnique(ids);
    case Code(vars, _, _, _) =>
      var position :| Named(vars, ids, position);
      VariablesResolve(ids, Unique(ids), position, vars, outputs);
  }

  method ChoosePlan(ids: seq<int>, how: string, rechunk: bool, parallel: bool) returns (plan: Plan)
    ensures PlanFor(plan, ids, how, rechunk, parallel)
    ensures plan.Union? <==> how == "diagonal_relaxed" && parallel && !rechunk && Distinct(ids)
  {
    var unique, position := Sources(ids);
    UniqueShorterIff(ids);
    var hasDuplicates := |unique| < |ids|;
    if how == "diagonal_relaxed" && parallel && !rechunk && !hasDuplicates {
      plan := Union;
    } else {
      var vars := InputVars(ids, unique, position);
      assert Named(vars, ids, position);
      plan := Code(vars, how, rechunk, parallel);
    }
  }

  /** The node for frames of one graph. */
  method BuildNode(frames: seq<FlowFrame>, how: string, rechunk: bool, parallel: bool) returns (node: Node)
    ensures fresh(node) && Compiled(node, Ids(frames), how, rechunk, parallel)
    ensures node.plan.Union? <==> how == "diagonal_relaxed" && parallel && !rechunk && Distinct(Ids(frames))
  {
    var plan := ChoosePlan(Ids(frames), how, rechunk, parallel);
    node := new Node(plan);
    Wire(Ids(frames), node);
  }

  // --- whose data it is ---

  /** Data in which every output of every node is told apart. */
  type Tagged = (int, nat)

  /** Every frame reads the first output of its node. */
  predicate FirstOnly(frames: seq<FlowFrame>) {
    forall k :: 0 <= k < |frames| ==> frames[k].output == 0
  }

  lemma FirstOutputsAreOwn<T>(frames: seq<FlowFrame>, outputs: (int, nat) -> T)
    requires FirstOnly(frames)
    ensures FirstOutputs(Ids(frames), outputs) == FrameData(frames, outputs)
  {
  }

  lemma OwnDataMeansFirst(frames: seq<FlowFrame>)
    requires FirstOutputs(Ids(frames), (n, h) => (n, h)) == FrameData(frames, (n, h) => (n, h))
    ensures FirstOnly(frames)
  {
    var tag: (int, nat) -> Tagged := (n, h) => (n, h);
    forall k | 0 <= k < |frames| ensures frames[k].output == 0 {
      assert FirstOutputs(Ids(frames), tag)[k] == FrameData(frames, tag)[k];
    }
  }

  /** The node concatenates the frames' own data, whatever that is. */
  ghost predicate KeepsData(node: Node, frames: seq<FlowFrame>, how: string, rechunk: bool, parallel: bool)
    reads node, frames
  {
    forall outputs: (int, nat) -> Tagged ::
      node.Run(outputs) == Some(Call(FrameData(frames, outputs), how, rechunk, parallel))
  }

  /** The connections name no output, so the node keeps the frames' data exactly when
      every frame is on its node's first output. */
  lemma KeepsDataIff(node: Node, frames: seq<FlowFrame>, how: string, rechunk: bool, parallel: bool)
    requires Compiled(node, Ids(frames), how, rechunk, parallel)
    ensures KeepsData(node, frames, how, rechunk, parallel) <==> FirstOnly(frames)
  {
    if FirstOnly(frames) {
      forall outputs: (int, nat) -> Tagged
        ensures node.Run(outputs) == Some(Call(FrameData(frames, outputs), how, rechunk, parallel))
      {
        CompiledRuns(node, Ids(frames), how, rechunk, parallel, outputs);
        FirstOutputsAreOwn(frames, outputs);
      }
    }
    if KeepsData(node, frames, how, rechunk, parallel) {
      var tag: (int, nat) -> Tagged := (n, h) => (n, h);
      CompiledRuns(node, Ids(frames), how, rechunk, parallel, tag);
      assert node.Run(tag) == Some(Call(FrameData(frames, tag), how, rechunk, parallel));
      OwnDataMeansFirst(frames);
    }
  }

  /** Two branches of one split node: the second is lost and the first is taken twice. */
  lemma SplitBranchesConcatenated<T>(node: Node, frames: seq<FlowFrame>, split: int, how: string, rechunk: bool,
                                     parallel: bool, outputs: (int, nat) -> T)
    requires |frames| == 2 && frames[0].nodeId == frames[1].nodeId == split
    requires frames[0].output == 0 && frames[1].output == 1
    requires Compiled(node, Ids(frames), how, rechunk, parallel)
    ensures node.Run(outputs) == Some(Call([outputs(split, 0), outputs(split, 0)], how, rechunk, parallel))
    ensures FrameData(frames, outputs) == [outputs(split, 0), outputs(split, 1)]
  {
    CompiledRuns(node, Ids(frames), how, rechunk, parallel, outputs);
    assert FirstOutputs(Ids(frames), outputs) == [outputs(split, 0), outputs(split, 0)];
  }

  // --- the call ---

  function FlowIds(frames: seq<FlowFrame>): (ids: seq<int>)
    reads frames
    ensures |ids| == |frames| && forall k :: 0 <= k < |ids| ==> ids[k] == frames[k].flowId
  {
    seq(|frames|, k requires 0 <= k < |frames| reads frames => frames[k].flowId)
  }

  predicate SeveralGraphs(frames: seq<FlowFrame>)
    reads frames
  {
    exists j, k :: 0 <= j < |frames| && 0 <= k < |frames| && frames[j].flowId != frames[k].flowId
  }

  lemma SeveralGraphsIff(frames: seq<FlowFrame>)
    ensures SeveralGraphs(frames) <==> |Unique(FlowIds(frames))| > 1
  {
    var ids := FlowIds(frames);
    var unique := Unique(ids);
    UniqueIsDistinct(ids);
    if |unique| > 1 {
      assert unique[0] in unique && unique[1] in unique;
      var j :| 0 <= j < |ids| && ids[j] == unique[0];
      var k :| 0 <= k < |ids| && ids[k] == unique[1];
      assert frames[j].flowId != frames[k].flowId;
    }
    if j, k :| 0 <= j < |frames| && 0 <= k < |frames| && frames[j].flowId != frames[k].flowId {
      assert ids[j] in unique && ids[k] in unique;
    }
  }

  /** Frames of several graphs are moved to a combined one first, which fails exactly when a
      frame occurs twice.  The node is then built from the frames' new ids, and keeps their
      data exactly when all are on first outputs. */
  method Concat(frames: seq<FlowFrame>, how: string, rechunk: bool, parallel: bool,
                mapping: map<(int, int), int>, combinedId: int)
    returns (node: Option<Node>)
    requires forall key :: key in mapping ==> key.0 != combinedId
    requires SeveralGraphs(frames) ==> forall f :: f in frames ==> (f.flowId, f.nodeId) in mapping
    modifies frames
    ensures node.None? <==> old(SeveralGraphs(frames)) && !Distinct(frames)
    ensures node.Some? ==> forall f :: f in frames ==>
      if old(SeveralGraphs(frames)) then f.flowId == combinedId && f.nodeId == mapping[old((f.flowId, f.nodeId))]
      else f.flowId == old(f.flowId) && f.nodeId == old(f.nodeId)
    ensures node.Some? ==> fresh(node.value) && Compiled(node.value, Ids(frames), how, rechunk, parallel)
    ensures node.Some? ==> (KeepsData(node.value, frames, how, rechunk, parallel) <==> FirstOnly(frames))
  {
    var graphs, _ := Sources(FlowIds(frames));
    SeveralGraphsIff(frames);
    if |graphs| > 1 {
      var ok := MoveFrames(frames, mapping, combinedId);
      if !ok { return None; }
    }
    var built := BuildNode(frames, how, rechunk, parallel);
    KeepsDataIff(built, frames, how, rechunk, parallel);
    node := Some(built);
  }
}
