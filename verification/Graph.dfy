/** Pipeline graph validation: distinct names, resolved references, no cycle of sink edges. */
module Graph {

  datatype PipelineDef = PipelineDef(name: string, sourcePipeline: string, sinkPipelines: seq<string>)

  datatype Verdict<N> =
    | Accepted
    | DuplicateName(name: N)
    | UnknownSource(name: N, source: N)
    | UnknownSink(name: N, sink: N)
    | CycleFound(from: N, to: N)

  /******* What a valid graph is *******/

  ghost function Names(ps: seq<PipelineDef>): set<string> {
    set i | 0 <= i < |ps| :: ps[i].name
  }

  ghost predicate DistinctNames(ps: seq<PipelineDef>) {
    forall i, j :: 0 <= i < j < |ps| ==> ps[i].name != ps[j].name
  }

  /** Every reference of pipeline `p` names a pipeline in `names`; the empty source name is no reference. */
  ghost predicate RefsResolve(p: PipelineDef, names: set<string>) {
    && (p.sourcePipeline != "" ==> p.sourcePipeline in names)
    && forall s :: s in p.sinkPipelines ==> s in names
  }

  ghost predicate Resolved(ps: seq<PipelineDef>) {
    forall i :: 0 <= i < |ps| ==> RefsResolve(ps[i], Names(ps))
  }

  ghost predicate Edge(ps: seq<PipelineDef>, a: string, b: string) {
    exists i :: 0 <= i < |ps| && ps[i].name == a && b in ps[i].sinkPipelines
  }

  ghost predicate IsPath(ps: seq<PipelineDef>, path: seq<string>) {
    && |path| > 0
    && forall i :: 0 <= i < |path| - 1 ==> Edge(ps, path[i], path[i + 1])
  }

  /** A path with at least one edge that comes back to where it started. */
  ghost predicate IsCycle(ps: seq<PipelineDef>, path: seq<string>) {
    IsPath(ps, path) && |path| >= 2 && path[0] == path[|path| - 1]
  }

  ghost predicate Acyclic(ps: seq<PipelineDef>) {
    forall path :: !IsCycle(ps, path)
  }

  ghost predicate ValidGraph(ps: seq<PipelineDef>) {
    DistinctNames(ps) && Resolved(ps) && Acyclic(ps)
  }

  /** A rank for every pipeline that drops along every edge: feeding goes from higher to lower ranks. */
  ghost predicate Ranks(ps: seq<PipelineDef>, rank: map<string, nat>) {
    && rank.Keys == Names(ps)
    && forall a, b :: Edge(ps, a, b) ==> a in rank && b in rank && rank[b] < rank[a]
  }

  lemma {:induction false} PathDescends(ps: seq<PipelineDef>, rank: map<string, nat>, path: seq<string>)
    requires Ranks(ps, rank) && IsPath(ps, path) && |path| >= 2
    ensures path[0] in rank && path[|path| - 1] in rank && rank[path[|path| - 1]] < rank[path[0]]
    decreases |path|
  {
    assert Edge(ps, path[0], path[1]);
    if |path| > 2 {
      var tail := path[1..];
      forall k | 0 <= k < |tail| - 1 ensures Edge(ps, tail[k], tail[k + 1]) {
        assert Edge(ps, path[k + 1], path[k + 2]);
      }
      PathDescends(ps, rank, tail);
    }
  }

  /** A graph that can be ranked has no cycle. */
  lemma RankedIsAcyclic(ps: seq<PipelineDef>, rank: map<string, nat>)
    requires Ranks(ps, rank)
    ensures Acyclic(ps)
  {
    forall path | IsPath(ps, path) && |path| >= 2 ensures path[0] != path[|path| - 1] {
      PathDescends(ps, rank, path);
    }
  }

  /******* The depth-first search *******/

  type Adjacency<N> = map<N, seq<N>>

  ghost predicate Closed<N(!new)>(adj: Adjacency<N>) {
    forall a, b :: a in adj && b in adj[a] ==> b in adj
  }

  /** Each node of `path` is a successor of the node before it. */
  ghost predicate IsAdjPath<N(!new)>(adj: Adjacency<N>, path: seq<N>) {
    path == [] ||
    (var init, last := path[..|path| - 1], path[|path| - 1];
     IsAdjPath(adj, init) && last in adj && (init != [] ==> init[|init| - 1] in adj && last in adj[init[|init| - 1]]))
  }

  lemma {:induction false} AdjPathStep<N(!new)>(adj: Adjacency<N>, path: seq<N>, i: nat)
    requires IsAdjPath(adj, path) && i < |path|
    ensures path[i] in adj
    ensures i > 0 ==> path[i - 1] in adj && path[i] in adj[path[i - 1]]
  {
    if i < |path| - 1 { AdjPathStep(adj, path[..|path| - 1], i); }
  }

  lemma AdjPathAppend<N(!new)>(adj: Adjacency<N>, path: seq<N>, n: N)
    requires IsAdjPath(adj, path) && n in adj
    requires path != [] ==> path[|path| - 1] in adj && n in adj[path[|path| - 1]]
    ensures IsAdjPath(adj, path + [n])
  {
    assert (path + [n])[..|path|] == path;
  }

  lemma {:induction false} AdjPathTail<N(!new)>(adj: Adjacency<N>, path: seq<N>, k: nat)
    requires IsAdjPath(adj, path) && k <= |path|
    ensures IsAdjPath(adj, path[k..])
    decreases |path| - k
  {
    if k < |path| {
      var init := path[..|path| - 1];
      AdjPathTail(adj, init, k);
      assert path[k..][..|path| - 1 - k] == init[k..];
    }
  }

  /** The edge from `from` to `to` lies on a cycle: some path leads from `to` back to `from`. */
  ghost predicate ClosesCycle<N(!new)>(adj: Adjacency<N>, from: N, to: N) {
    && from in adj && to in adj[from]
    && exists path: seq<N> :: IsAdjPath(adj, path) && |path| > 0 && path[0] == to && path[|path| - 1] == from
  }

  /** A white node is one without an entry in the colour map. */
  datatype Color = Grey | Black

  /** Every edge out of a finished node leads to a node finished earlier. */
  ghost predicate FinishedEarlier<N(!new)>(adj: Adjacency<N>, finish: map<N, nat>) {
    forall a, b {:trigger a in finish, b in adj[a]} :: a in finish && a in adj && b in adj[a] ==>
      b in finish && finish[b] < finish[a]
  }

  /** Grey nodes are exactly the call stack, which is a path; black nodes are exactly the finished
      ones, and what they lead to was finished before them. */
  ghost predicate Consistent<N(!new)>(adj: Adjacency<N>, color: map<N, Color>, stack: seq<N>, finish: map<N, nat>,
                                      clock: nat) {
    && color.Keys <= adj.Keys
    && (forall n :: n in stack <==> n in color && color[n] == Grey)
    && (forall n :: n in finish <==> n in color && color[n] == Black)
    && IsAdjPath(adj, stack)
    && FinishedEarlier(adj, finish)
    && (forall n :: n in finish ==> finish[n] < clock)
  }

  lemma Enter<N(!new)>(adj: Adjacency<N>, color: map<N, Color>, stack: seq<N>, finish: map<N, nat>, clock: nat, n: N)
    requires Consistent(adj, color, stack, finish, clock)
    requires n in adj && n !in color
    requires stack != [] ==> stack[|stack| - 1] in adj && n in adj[stack[|stack| - 1]]
    ensures Consistent(adj, color[n := Grey], stack + [n], finish, clock)
  {
    assert forall m :: m in stack + [n] <==> m in stack || m == n;
    AdjPathAppend(adj, stack, n);
  }

  lemma Leave<N(!new)>(adj: Adjacency<N>, color: map<N, Color>, stack: seq<N>, finish: map<N, nat>, clock: nat, n: N)
    requires Consistent(adj, color, stack + [n], finish, clock) && n !in stack
    requires forall b :: b in adj[n] ==> b in finish
    ensures Consistent(adj, color[n := Black], stack, finish[n := clock], clock + 1)
  {
    var grey := stack + [n];
    assert n in grey;
    assert grey[..|stack|] == stack;
    assert forall m :: m in grey <==> m in stack || m == n;
    assert n !in finish;
  }

  lemma GreyEdgeClosesCycle<N(!new)>(adj: Adjacency<N>, color: map<N, Color>, stack: seq<N>, finish: map<N, nat>,
                                     clock: nat, next: N)
    requires Consistent(adj, color, stack, finish, clock) && stack != []
    requires stack[|stack| - 1] in adj && next in adj[stack[|stack| - 1]] && next in color && color[next] == Grey
    ensures ClosesCycle(adj, stack[|stack| - 1], next)
  {
    var k :| 0 <= k < |stack| && stack[k] == next;
    AdjPathTail(adj, stack, k);
  }

  /** The state the recursive closure shares with its caller: the colour map and, as ghosts, the call
      stack and the time at which each node was finished. */
  class Search<N(==,!new)> {
    const adj: Adjacency<N>
    var color: map<N, Color>
    ghost var stack: seq<N>
    ghost var finish: map<N, nat>
    ghost var clock: nat

    constructor (adj: Adjacency<N>)
      requires Closed(adj)
      ensures this.adj == adj && Valid()
      ensures stack == []
    {
      this.adj := adj;
      color := map[];
      stack, finish, clock := [], map[], 0;
    }

    ghost predicate Valid()
      reads this
    {
      Closed(adj) && Consistent(adj, color, stack, finish, clock)
    }

    /** Colours a white node grey. */
    method Begin(n: N)
      requires Valid() && n in adj && n !in color
      requires stack != [] ==> stack[|stack| - 1] in adj && n in adj[stack[|stack| - 1]]
      modifies this
      ensures Valid()
      ensures stack == old(stack) + [n] && color == old(color)[n := Grey]
      ensures finish == old(finish) && clock == old(clock)
    {
      Enter(adj, color, stack, finish, clock, n);
      color, stack := color[n := Grey], stack + [n];
    }

    /** Colours the node at the top of the stack black. */
    method End(n: N, ghost below: seq<N>)
      requires Valid() && stack == below + [n] && n !in below && n in adj
      requires forall b :: b in adj[n] ==> b in finish
      modifies this
      ensures Valid()
      ensures stack == below && color == old(color)[n := Black] && finish == old(finish)[n := old(clock)]
    {
      Leave(adj, color, below, finish, clock, n);
      color, stack := color[n := Black], below;
      finish, clock := finish[n := clock], clock + 1;
    }

    /** Follows one edge out of the node at the top of the stack. */
    method Follow(n: N, next: N) returns (v: Verdict<N>)
      requires Valid() && stack != [] && stack[|stack| - 1] == n && n in adj && next in adj[n]
      modifies this
      ensures Valid()
      ensures old(color.Keys) <= color.Keys && old(finish.Keys) <= finish.Keys
      ensures v.Accepted? || v.CycleFound?
      ensures v.Accepted? ==> stack == old(stack) && next in finish
      ensures v.CycleFound? ==> ClosesCycle(adj, v.from, v.to)
      decreases adj.Keys - color.Keys, 1
    {
      v := Accepted;
      if next in color && color[next] == Grey {
        GreyEdgeClosesCycle(adj, color, stack, finish, clock, next);
        return CycleFound(n, next);
      }
      if next !in color { v := Dfs(next); }
    }

    /** Expands the white node `n`. It either finishes `n`, leaving the stack as it was, or stops at an
        edge that closes a cycle. No node loses its colour and no black node
        turns grey again, so each is expanded at most once. */
    method Dfs(n: N) returns (v: Verdict<N>)
      requires Valid()
      requires n in adj && n !in color
      requires stack != [] ==> stack[|stack| - 1] in adj && n in adj[stack[|stack| - 1]]
      modifies this
      ensures Valid()
      ensures v.Accepted? || v.CycleFound?
      ensures n in color && old(color.Keys) <= color.Keys && old(finish.Keys) <= finish.Keys
      ensures v.Accepted? ==> stack == old(stack) && n in finish
      ensures v.CycleFound? ==> ClosesCycle(adj, v.from, v.to)
      decreases adj.Keys - color.Keys, 0
    {
      ghost var below := stack;
      WhiteNotOnStack(n);
      Begin(n);
      var edges := adj[n];
      for i := 0 to |edges|
        invariant Valid() && stack == below + [n] && n in color
        invariant old(color.Keys) <= color.Keys && old(finish.Keys) <= finish.Keys
        invariant forall j :: 0 <= j < i ==> edges[j] in finish
      {
        v := Follow(n, edges[i]);
        if v.CycleFound? { return; }
      }
      End(n, below);
      v := Accepted;
    }

    lemma WhiteNotOnStack(n: N)
      requires Valid() && n !in color
      ensures n !in stack
    {
    }
  }

  /******* ValidateGraph *******/

  /** `adj` holds exactly the sink edges of `ps`. */
  ghost predicate Represents(adj: Adjacency<string>, ps: seq<PipelineDef>) {
    && adj.Keys == Names(ps)
    && forall a, b :: a in adj ==> (b in adj[a] <==> Edge(ps, a, b))
  }

  ghost predicate FirstDuplicate(ps: seq<PipelineDef>, name: string) {
    exists j :: 0 <= j < |ps| && ps[j].name == name && name in Names(ps[..j]) && DistinctNames(ps[..j])
  }

  /** `ps[j]` is the first pipeline with an unresolved reference. */
  ghost predicate FirstUnresolved(ps: seq<PipelineDef>, j: int) {
    && 0 <= j < |ps|
    && (forall i :: 0 <= i < j ==> RefsResolve(ps[i], Names(ps)))
    && !RefsResolve(ps[j], Names(ps))
  }

  /** What each verdict reports about the graph. */
  ghost predicate Justified(ps: seq<PipelineDef>, v: Verdict<string>) {
    match v
    case Accepted => ValidGraph(ps)
    case DuplicateName(name) => FirstDuplicate(ps, name)
    case UnknownSource(name, source) =>
      DistinctNames(ps) && exists j :: FirstUnresolved(ps, j) && ps[j].name == name && ps[j].sourcePipeline == source
                                       && source != "" && source !in Names(ps)
    case UnknownSink(name, sink) =>
      DistinctNames(ps) && exists j, k :: FirstUnresolved(ps, j) && ps[j].name == name && FirstUnknownSink(ps, j, k)
                                          && ps[j].sinkPipelines[k] == sink
    case CycleFound(from, to) =>
      DistinctNames(ps) && Resolved(ps) && exists path :: IsCycle(ps, path) && path[0] == from && path[1] == to
  }

  ghost predicate FirstUnknownSink(ps: seq<PipelineDef>, j: int, k: int)
    requires 0 <= j < |ps|
  {
    && 0 <= k < |ps[j].sinkPipelines|
    && (ps[j].sourcePipeline != "" ==> ps[j].sourcePipeline in Names(ps))
    && (forall s :: s in ps[j].sinkPipelines[..k] ==> s in Names(ps))
    && ps[j].sinkPipelines[k] !in Names(ps)
  }

  method CheckReferences(ps: seq<PipelineDef>) returns (v: Verdict<string>)
    ensures v.Accepted? <==> DistinctNames(ps) && Resolved(ps)
    ensures !v.Accepted? ==> Justified(ps, v)
    ensures !v.CycleFound?
  {
    var names: set<string> := {};
    for i := 0 to |ps|
      invariant names == Names(ps[..i])
      invariant DistinctNames(ps[..i])
    {
      if ps[i].name in names {
        ghost var j :| 0 <= j < i && ps[..i][j].name == ps[i].name;
        return DuplicateName(ps[i].name);
      }
      names := names + {ps[i].name};
      assert ps[..i + 1] == ps[..i] + [ps[i]];
    }
    assert ps[..|ps|] == ps;
    for i := 0 to |ps|
      invariant forall j :: 0 <= j < i ==> RefsResolve(ps[j], names)
    {
      var p := ps[i];
      if p.sourcePipeline != "" && p.sourcePipeline !in names {
        assert FirstUnresolved(ps, i);
        return UnknownSource(p.name, p.sourcePipeline);
      }
      for k := 0 to |p.sinkPipelines|
        invariant forall s :: s in p.sinkPipelines[..k] ==> s in names
      {
        if p.sinkPipelines[k] !in names {
          assert FirstUnresolved(ps, i) && FirstUnknownSink(ps, i, k);
          return UnknownSink(p.name, p.sinkPipelines[k]);
        }
        assert p.sinkPipelines[..k + 1] == p.sinkPipelines[..k] + [p.sinkPipelines[k]];
      }
      assert p.sinkPipelines[..|p.sinkPipelines|] == p.sinkPipelines;
    }
    v := Accepted;
  }

  method BuildAdjacency(ps: seq<PipelineDef>) returns (adj: Adjacency<string>)
    ensures Represents(adj, ps)
  {
    adj := map[];
    for i := 0 to |ps|
      invariant Represents(adj, ps[..i])
    {
      var p := ps[i];
      adj := adj[p.name := (if p.name in adj then adj[p.name] else []) + p.sinkPipelines];
      EdgesOfPrefix(ps, i);
      assert ps[..i + 1] == ps[..i] + [p];
    }
    assert ps[..|ps|] == ps;
  }

  lemma EdgesOfPrefix(ps: seq<PipelineDef>, i: nat)
    requires i < |ps|
    ensures forall a, b :: Edge(ps[..i + 1], a, b) <==>
              Edge(ps[..i], a, b) || (a == ps[i].name && b in ps[i].sinkPipelines)
  {
    forall a, b
      ensures Edge(ps[..i + 1], a, b) <==> Edge(ps[..i], a, b) || (a == ps[i].name && b in ps[i].sinkPipelines)
    {
      if Edge(ps[..i], a, b) {
        var k :| 0 <= k < i && ps[..i][k].name == a && b in ps[..i][k].sinkPipelines;
        assert ps[..i + 1][k] == ps[..i][k];
      }
      if a == ps[i].name && b in ps[i].sinkPipelines {
        assert ps[..i + 1][i] == ps[i];
      }
    }
  }

  lemma ResolvedEdge(ps: seq<PipelineDef>, a: string, b: string)
    requires Resolved(ps) && Edge(ps, a, b)
    ensures b in Names(ps)
  {
    var i :| 0 <= i < |ps| && ps[i].name == a && b in ps[i].sinkPipelines;
    assert RefsResolve(ps[i], Names(ps));
  }

  /** The edge the search stopped at starts a cycle of the graph. */
  lemma CycleInGraph(ps: seq<PipelineDef>, adj: Adjacency<string>, from: string, to: string)
    requires Represents(adj, ps) && ClosesCycle(adj, from, to)
    ensures exists path :: IsCycle(ps, path) && path[0] == from && path[1] == to
  {
    var back :| IsAdjPath(adj, back) && |back| > 0 && back[0] == to && back[|back| - 1] == from;
    var path := [from] + back;
    forall i | 0 <= i < |path| - 1
      ensures Edge(ps, path[i], path[i + 1])
    {
      if i > 0 { AdjPathStep(adj, back, i); }
    }
    assert IsCycle(ps, path);
  }

  /** Soundness and completeness at once: the graph is accepted exactly when it is valid, every rejection
      is justified by a witness, and acceptance comes with a ranking of the pipelines. */
  method ValidateGraph(ps: seq<PipelineDef>) returns (v: Verdict<string>, ghost rank: map<string, nat>)
    ensures v.Accepted? <==> ValidGraph(ps)
    ensures Justified(ps, v)
    ensures v.Accepted? ==> Ranks(ps, rank)
  {
    rank := map[];
    v := CheckReferences(ps);
    if !v.Accepted? { return; }
    var adj := BuildAdjacency(ps);
    ResolvedIsClosed(ps, adj);
    v, rank := SearchAll(ps, adj);
    if v.CycleFound? {
      CycleInGraph(ps, adj, v.from, v.to);
      return;
    }
    assert forall n :: n in rank <==> n in Names(ps);
    FinishIsRank(ps, adj, rank);
    RankedIsAcyclic(ps, rank);
  }

  /** The outer loop of the search. */
  method SearchAll(ps: seq<PipelineDef>, adj: Adjacency<string>)
    returns (v: Verdict<string>, ghost finish: map<string, nat>)
    requires Closed(adj) && forall i :: 0 <= i < |ps| ==> ps[i].name in adj
    ensures v.Accepted? || v.CycleFound?
    ensures v.Accepted? ==> FinishedEarlier(adj, finish) && finish.Keys <= adj.Keys
    ensures v.Accepted? ==> forall i :: 0 <= i < |ps| ==> ps[i].name in finish
    ensures v.CycleFound? ==> ClosesCycle(adj, v.from, v.to)
  {
    var search := new Search(adj);
    finish := map[];
    for i := 0 to |ps|
      invariant search.adj == adj && search.Valid() && search.stack == [] && fresh(search)
      invariant forall j :: 0 <= j < i ==> ps[j].name in search.finish
    {
      if ps[i].name !in search.color {
        v := search.Dfs(ps[i].name);
        if v.CycleFound? { return; }
      }
    }
    v, finish := Accepted, search.finish;
  }

  lemma FinishIsRank(ps: seq<PipelineDef>, adj: Adjacency<string>, finish: map<string, nat>)
    requires Represents(adj, ps) && FinishedEarlier(adj, finish) && finish.Keys == Names(ps)
    ensures Ranks(ps, finish)
  {
    forall a, b | Edge(ps, a, b) ensures a in finish && b in finish && finish[b] < finish[a] {
      assert a in Names(ps);
      assert b in adj[a];
    }
  }

  lemma ResolvedIsClosed(ps: seq<PipelineDef>, adj: Adjacency<string>)
    requires Resolved(ps) && Represents(adj, ps)
    ensures Closed(adj)
  {
    forall a, b | a in adj && b in adj[a] ensures b in adj { ResolvedEdge(ps, a, b); }
  }

  /******* Source links *******/

  /** A connector declared from either end: a sink reference, or a source reference read the other way round. */
  ghost predicate Link(ps: seq<PipelineDef>, a: string, b: string) {
    Edge(ps, a, b) || exists i :: 0 <= i < |ps| && ps[i].name == b && ps[i].sourcePipeline == a && a != ""
  }

  ghost predicate LinkCycle(ps: seq<PipelineDef>, path: seq<string>) {
    && |path| >= 2 && path[0] == path[|path| - 1]
    && forall i :: 0 <= i < |path| - 1 ==> Link(ps, path[i], path[i + 1])
  }

  ghost predicate LinkAcyclic(ps: seq<PipelineDef>) {
    forall path :: !LinkCycle(ps, path)
  }

  /** The search follows sink references only, so a cycle of source references is accepted. */
  lemma SourceCycleAccepted()
    ensures var ps := [PipelineDef("a", "b", []), PipelineDef("b", "a", [])]; ValidGraph(ps) && !LinkAcyclic(ps)
  {
    var ps := [PipelineDef("a", "b", []), PipelineDef("b", "a", [])];
    assert ps[0].name == "a" && ps[1].name == "b";
    forall path: seq<string> ensures !IsCycle(ps, path) { if |path| >= 2 { assert !Edge(ps, path[0], path[1]); } }
    assert Link(ps, "a", "b") && Link(ps, "b", "a");
    assert LinkCycle(ps, ["a", "b", "a"]);
  }

  /** The names of the pipelines that declare `name` as their source. */
  function Readers(ps: seq<PipelineDef>, name: string): seq<string> {
    if ps == [] then []
    else (if ps[0].sourcePipeline == name && name != "" then [ps[0].name] else []) + Readers(ps[1..], name)
  }

  lemma {:induction false} ReadersAre(ps: seq<PipelineDef>, name: string, b: string)
    ensures b in Readers(ps, name) <==>
            exists i :: 0 <= i < |ps| && ps[i].name == b && ps[i].sourcePipeline == name && name != ""
  {
    if ps == [] {
    } else {
      ReadersAre(ps[1..], name, b);
      assert forall i :: 0 < i < |ps| ==> ps[i] == ps[1..][i - 1];
      if b in Readers(ps[1..], name) {
        var i :| 0 <= i < |ps[1..]| && ps[1..][i].name == b && ps[1..][i].sourcePipeline == name;
        assert ps[i + 1].name == b;
      }
    }
  }

  /** The same pipelines with every source reference also declared as a sink reference. */
  function Mirror(ps: seq<PipelineDef>): seq<PipelineDef> {
    seq(|ps|, i requires 0 <= i < |ps| => ps[i].(sinkPipelines := ps[i].sinkPipelines + Readers(ps, ps[i].name)))
  }

  lemma MirrorEdges(ps: seq<PipelineDef>, a: string, b: string)
    requires Resolved(ps)
    ensures Edge(Mirror(ps), a, b) <==> Link(ps, a, b)
  {
    var m := Mirror(ps);
    if Edge(m, a, b) {
      var i :| 0 <= i < |m| && m[i].name == a && b in m[i].sinkPipelines;
      ReadersAre(ps, ps[i].name, b);
      if b in ps[i].sinkPipelines { assert Edge(ps, a, b); }
    }
    if Edge(ps, a, b) {
      var i :| 0 <= i < |ps| && ps[i].name == a && b in ps[i].sinkPipelines;
      assert b in m[i].sinkPipelines;
    } else if Link(ps, a, b) {
      var j :| 0 <= j < |ps| && ps[j].name == b && ps[j].sourcePipeline == a && a != "";
      assert RefsResolve(ps[j], Names(ps));
      var i :| 0 <= i < |ps| && ps[i].name == a;
      ReadersAre(ps, a, b);
      assert b in m[i].sinkPipelines;
    }
  }

  /** Exactly when the connector graph is free of cycles of both kinds of link: when the validator
      would also accept the mirrored graph. */
  lemma LinkAcyclicIffMirrorValid(ps: seq<PipelineDef>)
    requires ValidGraph(ps)
    ensures LinkAcyclic(ps) <==> ValidGraph(Mirror(ps))
  {
    var m := Mirror(ps);
    assert Names(m) == Names(ps) by {
      assert forall i :: 0 <= i < |ps| ==> m[i].name == ps[i].name;
    }
    forall i | 0 <= i < |m| ensures RefsResolve(m[i], Names(m)) {
      assert RefsResolve(ps[i], Names(ps));
      forall s | s in m[i].sinkPipelines ensures s in Names(m) { ReadersAre(ps, ps[i].name, s); }
    }
    forall path: seq<string>
      ensures LinkCycle(ps, path) <==> IsCycle(m, path)
    {
      forall i | 0 <= i < |path| - 1 ensures Edge(m, path[i], path[i + 1]) <==> Link(ps, path[i], path[i + 1]) {
        MirrorEdges(ps, path[i], path[i + 1]);
      }
    }
  }
}
