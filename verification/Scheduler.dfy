/**
 The test harness's scheduler: an execution order for tests that name the tests they depend on,
 by Kahn's algorithm with a stack, falling back to the given order when there is a cycle.
 */
module Scheduler {
  import opened Sets
  import opened Sequences

  // ---------------------------------------------------------------------------------------------
  // The dependency graph
  // ---------------------------------------------------------------------------------------------

  /** A name stands for the last test that carries it. */
  predicate Resolves(names: seq<string>, name: string, j: nat) {
    j < |names| && names[j] == name && forall k :: j < k < |names| ==> names[k] != name
  }

  /** Test `i` depends on test `j`; dependencies that name no test are ignored. */
  predicate Edge(names: seq<string>, deps: seq<seq<string>>, j: nat, i: nat) {
    i < |deps| && exists k :: 0 <= k < |deps[i]| && Resolves(names, deps[i][k], j)
  }

  ghost predicate IsPath(names: seq<string>, deps: seq<seq<string>>, path: seq<nat>) {
    forall k :: 0 <= k < |path| - 1 ==> Edge(names, deps, path[k], path[k + 1])
  }

  /** Some test depends, through others, on itself. */
  ghost predicate HasCycle(names: seq<string>, deps: seq<seq<string>>) {
    exists path :: |path| >= 2 && path[0] == path[|path| - 1] && IsPath(names, deps, path)
  }

  /** Every test once. */
  predicate IsPermutation(order: seq<nat>, n: nat) {
    |order| == n && NoRepeats(order) && Below(order, n) && forall i: nat :: i < n ==> i in order
  }

  /** Every test comes after all tests it depends on. */
  ghost predicate Respects(names: seq<string>, deps: seq<seq<string>>, order: seq<nat>) {
    forall q, j :: 0 <= q < |order| && Edge(names, deps, j, order[q]) ==> j in order[..q]
  }

  // ---------------------------------------------------------------------------------------------
  // Counting edges
  // ---------------------------------------------------------------------------------------------

  type Edges = seq<(nat, nat)>

  /** Targets of the edges leaving `j`, in order, with repetitions. */
  function Targets(edges: Edges, j: nat): seq<nat> {
    if edges == [] then []
    else
      var e := edges[|edges| - 1];
      Targets(edges[..|edges| - 1], j) + if e.0 == j then [e.1] else []
  }

  /** Number of edges into `i` that do not come from `done`. */
  function Pending(edges: Edges, done: set<nat>, i: nat): nat {
    if edges == [] then 0
    else
      var e := edges[|edges| - 1];
      Pending(edges[..|edges| - 1], done, i) + if e.1 == i && e.0 !in done then 1 else 0
  }

  function Count(s: seq<nat>, i: nat): nat {
    if s == [] then 0 else Count(s[..|s| - 1], i) + if s[|s| - 1] == i then 1 else 0
  }

  lemma {:induction false} CountHead(s: seq<nat>, i: nat)
    requires s != []
    ensures Count(s, i) == Count(s[1..], i) + if s[0] == i then 1 else 0
    decreases |s|
  {
    if |s| > 1 {
      var k := |s| - 1;
      CountHead(s[..k], i);
      assert s[..k][1..] == s[1..][..k - 1];
    }
  }

  lemma CountLast(s: seq<nat>, x: nat, i: nat)
    ensures Count(s + [x], i) == Count(s, i) + if x == i then 1 else 0
  {
    assert (s + [x])[..|s|] == s;
  }

  /** Finishing a test removes its edges from every count. */
  lemma {:induction false} PendingStep(edges: Edges, done: set<nat>, node: nat, i: nat)
    requires node !in done
    ensures Pending(edges, done, i) == Pending(edges, done + {node}, i) + Count(Targets(edges, node), i)
    decreases |edges|
  {
    if edges != [] {
      var k := |edges| - 1;
      PendingStep(edges[..k], done, node, i);
      var e, t := edges[k], Targets(edges[..k], node);
      if e.0 == node {
        CountLast(t, e.1, i);
      } else {
        assert Targets(edges, node) == t + [] == t;
        assert e.0 in done + {node} <==> e.0 in done;
      }
    }
  }

  lemma {:induction false} PendingMember(edges: Edges, done: set<nat>, i: nat)
    ensures Pending(edges, done, i) > 0 <==> exists j :: (j, i) in edges && j !in done
    decreases |edges|
  {
    if edges != [] {
      var k := |edges| - 1;
      PendingMember(edges[..k], done, i);
      assert edges == edges[..k] + [edges[k]];
      if j :| (j, i) in edges && j !in done {
        assert (j, i) in edges[..k] || (j, i) == edges[k];
      }
      if Pending(edges[..k], done, i) > 0 {
        var j :| (j, i) in edges[..k] && j !in done;
        assert (j, i) in edges;
      } else if Pending(edges, done, i) > 0 {
        assert (edges[k].0, i) in edges;
      }
    }
  }

  lemma PendingAppend(edges: Edges, e: (nat, nat), done: set<nat>, i: nat)
    ensures Pending(edges + [e], done, i) == Pending(edges, done, i) + if e.1 == i && e.0 !in done then 1 else 0
  {
    assert (edges + [e])[..|edges|] == edges;
  }

  lemma TargetsAppend(edges: Edges, e: (nat, nat), j: nat)
    ensures Targets(edges + [e], j) == Targets(edges, j) + if e.0 == j then [e.1] else []
  {
    assert (edges + [e])[..|edges|] == edges;
  }

  lemma {:induction false} TargetsBelow(edges: Edges, j: nat, n: nat)
    requires forall e :: e in edges ==> e.1 < n
    ensures Below(Targets(edges, j), n)
    decreases |edges|
  {
    if edges != [] {
      var k := |edges| - 1;
      assert edges[k] in edges;
      assert forall e :: e in edges[..k] ==> e in edges;
      TargetsBelow(edges[..k], j, n);
    }
  }

  // ---------------------------------------------------------------------------------------------
  // Pigeonholes
  // ---------------------------------------------------------------------------------------------

  lemma SetBound(s: set<nat>, n: nat)
    requires forall x :: x in s ==> x < n
    ensures |s| <= n
    ensures |s| == n ==> s == Range(0, n)
  {
    assert Range(0, n) == s + (Range(0, n) - s);
    assert |Range(0, n)| == |s| + |Range(0, n) - s|;
  }

  /** Distinct tests below `n`: at most `n` of them, and `n` of them are all. */
  lemma DistinctBound(s: seq<nat>, n: nat)
    requires NoRepeats(s) && Below(s, n)
    ensures |s| <= n
    ensures |s| == n ==> IsPermutation(s, n)
  {
    DistinctSize(s);
    forall x | x in Elems(s) ensures x < n { var i :| 0 <= i < |s| && s[i] == x; }
    SetBound(Elems(s), n);
    if |s| == n {
      forall i: nat | i < n ensures i in s { assert i in Elems(s); }
    }
  }

  // ---------------------------------------------------------------------------------------------
  // Cycles
  // ---------------------------------------------------------------------------------------------

  /** A set of tests each depending on one in the set: follow dependencies backwards. */
  ghost predicate Stuck(names: seq<string>, deps: seq<seq<string>>, rest: set<nat>) {
    forall i :: i in rest ==> exists j :: j in rest && Edge(names, deps, j, i)
  }

  lemma {:induction false} Chain(names: seq<string>, deps: seq<seq<string>>, rest: set<nat>, i: nat, len: nat)
    returns (path: seq<nat>)
    requires Stuck(names, deps, rest) && i in rest
    ensures |path| == len + 1 && IsPath(names, deps, path)
    ensures forall k :: 0 <= k < |path| ==> path[k] in rest
    decreases len
  {
    hide Edge; hide IsPath; hide Stuck;
    if len == 0 {
      path := [i];
      SingletonPath(names, deps, i);
    } else {
      var tail := Chain(names, deps, rest, i, len - 1);
      var j := StuckHere(names, deps, rest, tail[0]);
      path := [j] + tail;
      LongerPath(names, deps, j, tail);
    }
  }

  lemma StuckHere(names: seq<string>, deps: seq<seq<string>>, rest: set<nat>, i: nat) returns (j: nat)
    requires Stuck(names, deps, rest) && i in rest
    ensures j in rest && Edge(names, deps, j, i)
  {
    hide Edge;
    j :| j in rest && Edge(names, deps, j, i);
  }

  lemma SingletonPath(names: seq<string>, deps: seq<seq<string>>, i: nat)
    ensures IsPath(names, deps, [i])
  {
  }

  lemma LongerPath(names: seq<string>, deps: seq<seq<string>>, j: nat, tail: seq<nat>)
    requires tail != [] && IsPath(names, deps, tail) && Edge(names, deps, j, tail[0])
    ensures IsPath(names, deps, [j] + tail)
  {
    hide Edge;
    var path := [j] + tail;
    forall k | 0 <= k < |path| - 1 ensures Edge(names, deps, path[k], path[k + 1]) {
      if k > 0 { assert path[k] == tail[k - 1] && path[k + 1] == tail[(k - 1) + 1]; }
    }
  }

  lemma RepeatIsCycle(names: seq<string>, deps: seq<seq<string>>, path: seq<nat>, a: nat, b: nat)
    requires IsPath(names, deps, path) && a < b < |path| && path[a] == path[b]
    ensures HasCycle(names, deps)
  {
    hide Edge;
    var cycle := path[a..b + 1];
    forall k | 0 <= k < |cycle| - 1 ensures Edge(names, deps, cycle[k], cycle[k + 1]) {
      assert cycle[k] == path[a + k] && cycle[k + 1] == path[(a + k) + 1];
    }
    assert IsPath(names, deps, cycle);
  }

  lemma TooLong(path: seq<nat>, n: nat) returns (a: nat, b: nat)
    requires Below(path, n) && |path| > n
    ensures a < b < |path| && path[a] == path[b]
  {
    if NoRepeats(path) { DistinctBound(path, n); }
    a, b :| 0 <= a < b < |path| && path[a] == path[b];
  }

  lemma StuckHasCycle(names: seq<string>, deps: seq<seq<string>>, rest: set<nat>, n: nat)
    requires Stuck(names, deps, rest) && rest != {} && forall i :: i in rest ==> i < n
    ensures HasCycle(names, deps)
  {
    hide Edge; hide IsPath; hide HasCycle; hide Stuck;
    var i :| i in rest;
    var path := Chain(names, deps, rest, i, n);
    var a, b := TooLong(path, n);
    RepeatIsCycle(names, deps, path, a, b);
  }

  ghost function Position(order: seq<nat>, x: nat): (p: nat)
    requires x in order
    ensures p < |order| && order[p] == x
  {
    var p: nat :| p < |order| && order[p] == x;
    p
  }

  lemma {:induction false} PathClimbs(
    names: seq<string>, deps: seq<seq<string>>, order: seq<nat>, path: seq<nat>, k: nat)
    requires Respects(names, deps, order) && NoRepeats(order) && IsPath(names, deps, path)
    requires forall x :: x in path ==> x in order
    requires 0 < k < |path|
    ensures Position(order, path[0]) < Position(order, path[k])
    decreases k
  {
    hide Edge;
    var q := Position(order, path[k]);
    assert Edge(names, deps, path[k - 1], order[q]);
    assert path[k - 1] in order[..q];
    var p :| 0 <= p < q && order[..q][p] == path[k - 1];
    assert order[p] == path[k - 1] && Position(order, path[k - 1]) == p;
    if k > 1 { PathClimbs(names, deps, order, path, k - 1); }
  }

  /** An order of all tests that respects dependencies rules cycles out. */
  lemma RespectedHasNoCycle(names: seq<string>, deps: seq<seq<string>>, order: seq<nat>)
    requires |names| == |deps| && IsPermutation(order, |names|) && Respects(names, deps, order)
    ensures !HasCycle(names, deps)
  {
    if HasCycle(names, deps) {
      var path :| |path| >= 2 && path[0] == path[|path| - 1] && IsPath(names, deps, path);
      forall x | x in path ensures x in order {
        var k :| 0 <= k < |path| && path[k] == x;
        if k < |path| - 1 {
          assert Edge(names, deps, path[k], path[k + 1]);
        } else {
          assert Edge(names, deps, path[k - 1], path[k]);
        }
      }
      PathClimbs(names, deps, order, path, |path| - 1);
      assert false;
    }
  }

  // ---------------------------------------------------------------------------------------------
  // Building the graph
  // ---------------------------------------------------------------------------------------------

  lemma ResolvesNext(names: seq<string>, i: nat, name: string, j: nat)
    requires i < |names|
    ensures Resolves(names[..i + 1], name, j) <==> if name == names[i] then j == i else Resolves(names[..i], name, j)
  {
    assert names[..i + 1][i] == names[i];
    assert forall k :: 0 <= k < i ==> names[..i + 1][k] == names[..i][k];
  }

  /** The index of names: later tests replace earlier ones of the same name. */
  method BuildIndex(names: seq<string>) returns (index: map<string, nat>)
    ensures forall name, j: nat :: (name in index && index[name] == j) <==> Resolves(names, name, j)
  {
    index := map[];
    for i := 0 to |names|
      invariant forall name, j: nat :: (name in index && index[name] == j) <==> Resolves(names[..i], name, j)
    {
      ghost var was := index;
      index := index[names[i] := i];
      ghost var next := names[..i + 1];
      forall name, j: nat ensures (name in index && index[name] == j) <==> Resolves(next, name, j) {
        ResolvesNext(names, i, name, j);
        assert (name in was && was[name] == j) <==> Resolves(names[..i], name, j);
      }
    }
    assert names[..|names|] == names;
  }

  /** `edges` holds exactly the dependencies of the tests before `i` and the first `k` of test `i`. */
  ghost predicate Gathered(names: seq<string>, deps: seq<seq<string>>, i: nat, k: nat, edges: Edges) {
    forall j: nat, t: nat :: (j, t) in edges <==>
      || (t < i && Edge(names, deps, j, t))
      || (t == i && t < |deps| && exists m :: 0 <= m < k && m < |deps[t]| && Resolves(names, deps[t][m], j))
  }

  /** The arrays agree with the edges: adjacency lists and in-degrees. */
  ghost predicate Tables(edges: Edges, adj: seq<seq<nat>>, inDegree: seq<nat>) {
    && |adj| == |inDegree|
    && (forall j :: 0 <= j < |adj| ==> adj[j] == Targets(edges, j))
    && (forall i :: 0 <= i < |inDegree| ==> inDegree[i] == Pending(edges, {}, i))
  }

  lemma TablesStep(edges: Edges, adj: seq<seq<nat>>, inDegree: seq<nat>, j: nat, i: nat)
    requires Tables(edges, adj, inDegree) && j < |adj| && i < |inDegree|
    ensures Tables(edges + [(j, i)], adj[j := adj[j] + [i]], inDegree[i := inDegree[i] + 1])
  {
    forall x: nat | x < |adj| ensures adj[j := adj[j] + [i]][x] == Targets(edges + [(j, i)], x) {
      TargetsAppend(edges, (j, i), x);
      assert Targets(edges, x) + [] == Targets(edges, x);
    }
    forall x: nat | x < |inDegree| ensures inDegree[i := inDegree[i] + 1][x] == Pending(edges + [(j, i)], {}, x) {
      PendingAppend(edges, (j, i), {}, x);
    }
  }

  method BuildGraph(names: seq<string>, deps: seq<seq<string>>)
    returns (adj: seq<seq<nat>>, inDegree: seq<nat>, ghost edges: Edges)
    requires |names| == |deps|
    ensures |adj| == |names| && Tables(edges, adj, inDegree)
    ensures forall j: nat, i: nat :: (j, i) in edges <==> Edge(names, deps, j, i)
    ensures forall e :: e in edges ==> e.0 < |names| && e.1 < |names|
  {
    var n := |names|;
    var index := BuildIndex(names);
    adj, inDegree, edges := seq(n, _ => []), seq(n, _ => 0), [];
    for i := 0 to n
      invariant |adj| == n && Tables(edges, adj, inDegree)
      invariant Gathered(names, deps, i, 0, edges)
    {
      for k := 0 to |deps[i]|
        invariant |adj| == n && Tables(edges, adj, inDegree)
        invariant Gathered(names, deps, i, k, edges)
      {
        var dep := deps[i][k];
        if dep in index {
          var j := index[dep];
          assert Resolves(names, dep, j);
          TablesStep(edges, adj, inDegree, j, i);
          GatheredStep(names, deps, i, k, edges, j);
          adj := adj[j := adj[j] + [i]];
          inDegree := inDegree[i := inDegree[i] + 1];
          edges := edges + [(j, i)];
        } else {
          GatheredSkip(names, deps, i, k, edges);
        }
      }
      GatheredRow(names, deps, i, edges);
    }
    GatheredAll(names, deps, edges);
  }

  lemma GatheredStep(names: seq<string>, deps: seq<seq<string>>, i: nat, k: nat, edges: Edges, j: nat)
    requires Gathered(names, deps, i, k, edges) && i < |deps| && k < |deps[i]| && Resolves(names, deps[i][k], j)
    ensures Gathered(names, deps, i, k + 1, edges + [(j, i)])
  {
    forall x: nat | Resolves(names, deps[i][k], x) ensures x == j { }
  }

  lemma GatheredSkip(names: seq<string>, deps: seq<seq<string>>, i: nat, k: nat, edges: Edges)
    requires Gathered(names, deps, i, k, edges) && i < |deps| && k < |deps[i]|
    requires forall j: nat :: !Resolves(names, deps[i][k], j)
    ensures Gathered(names, deps, i, k + 1, edges)
  {
  }

  lemma GatheredRow(names: seq<string>, deps: seq<seq<string>>, i: nat, edges: Edges)
    requires i < |deps| && Gathered(names, deps, i, |deps[i]|, edges)
    ensures Gathered(names, deps, i + 1, 0, edges)
  {
  }

  lemma GatheredAll(names: seq<string>, deps: seq<seq<string>>, edges: Edges)
    requires |names| == |deps| && Gathered(names, deps, |deps|, 0, edges)
    ensures forall j: nat, i: nat :: (j, i) in edges <==> Edge(names, deps, j, i)
    ensures forall e :: e in edges ==> e.0 < |names| && e.1 < |names|
  {
    forall e | e in edges ensures e.0 < |names| && e.1 < |names| {
      assert (e.0, e.1) in edges;
    }
  }

  // ---------------------------------------------------------------------------------------------
  // Kahn's algorithm
  // ---------------------------------------------------------------------------------------------

  /**
   The loop's state: tests are finished, waiting, or still have unfinished dependencies, and a test
   was finished only after everything it depends on.
   */
  ghost predicate Progress(edges: Edges, n: nat, inDegree: seq<nat>, queue: seq<nat>, order: seq<nat>) {
    && |inDegree| == n && Below(order + queue, n) && NoRepeats(order + queue)
    && (forall i :: 0 <= i < n ==> inDegree[i] == Pending(edges, Elems(order), i))
    && (forall i: nat :: i < n ==> (inDegree[i] == 0 <==> i in order + queue))
    && (forall q, j: nat :: 0 <= q < |order| && (j, order[q]) in edges ==> j in order[..q])
  }

  /** Inside the walk over a finished test's targets: `left` are still to be visited. */
  ghost predicate Visiting(edges: Edges, n: nat, inDegree: seq<nat>, queue: seq<nat>, order: seq<nat>, left: seq<nat>) {
    && |inDegree| == n && Below(order + queue, n) && NoRepeats(order + queue) && Below(left, n)
    && (forall i :: 0 <= i < n ==> inDegree[i] == Pending(edges, Elems(order), i) + Count(left, i))
    && (forall i: nat :: i < n ==> (inDegree[i] == 0 <==> i in order + queue))
  }

  lemma VisitOne(edges: Edges, n: nat, inDegree: seq<nat>, queue: seq<nat>, order: seq<nat>, left: seq<nat>)
    requires Visiting(edges, n, inDegree, queue, order, left) && left != []
    ensures inDegree[left[0]] > 0
    ensures var d := inDegree[left[0] := inDegree[left[0]] - 1];
      Visiting(edges, n, d, if d[left[0]] == 0 then queue + [left[0]] else queue, order, left[1..])
  {
    var x := left[0];
    forall i ensures Count(left, i) == Count(left[1..], i) + if x == i then 1 else 0 { CountHead(left, i); }
    assert inDegree[x] > 0;
    assert x !in order + queue;
    assert order + (queue + [x]) == (order + queue) + [x];
    var d := inDegree[x := inDegree[x] - 1];
    var queue' := if d[x] == 0 then queue + [x] else queue;
    assert forall i :: i in order + queue' <==> i in order + queue || (d[x] == 0 && i == x);
    assert Below(left[1..], n);
  }

  lemma Finish(edges: Edges, n: nat, inDegree: seq<nat>, queue: seq<nat>, order: seq<nat>)
    requires Progress(edges, n, inDegree, queue, order) && queue != []
    requires forall e :: e in edges ==> e.1 < n
    ensures var node := queue[|queue| - 1];
      && node < n
      && Visiting(edges, n, inDegree, queue[..|queue| - 1], order + [node], Targets(edges, node))
      && (forall j: nat :: (j, node) in edges ==> j in order)
  {
    var k := |queue| - 1;
    var node, rest := queue[k], queue[..k];
    assert queue == rest + [node];
    assert (order + queue)[|order| + k] == node;
    assert node in order + queue;
    Shuffle(order, rest, node);
    forall i: nat ensures Pending(edges, Elems(order), i) ==
      Pending(edges, Elems(order + [node]), i) + Count(Targets(edges, node), i)
    {
      assert Elems(order + [node]) == Elems(order) + {node};
      NotFinished(order, queue, k);
      PendingStep(edges, Elems(order), node, i);
    }
    TargetsBelow(edges, node, n);
    PendingMember(edges, Elems(order), node);
  }

  lemma NotFinished(order: seq<nat>, queue: seq<nat>, k: nat)
    requires NoRepeats(order + queue) && k < |queue|
    ensures queue[k] !in order
  {
    var all := order + queue;
    forall p | 0 <= p < |order| ensures order[p] != queue[k] {
      assert all[p] == order[p] && all[|order| + k] == queue[k];
    }
  }

  lemma Shuffle(order: seq<nat>, rest: seq<nat>, node: nat)
    ensures NoRepeats(order + (rest + [node])) ==> NoRepeats(order + [node] + rest)
    ensures forall n: nat :: Below(order + (rest + [node]), n) ==> Below(order + [node] + rest, n)
    ensures forall x :: x in order + (rest + [node]) <==> x in order + [node] + rest
  {
    var a, b := order + (rest + [node]), order + [node] + rest;
    var m := |order|;
    forall i | 0 <= i < |b| ensures b[i] == a[if i < m then i else if i == m then |a| - 1 else i - 1] { }
  }

  /** Pop tests whose dependencies are all finished until none is left. */
  method Kahn(n: nat, adj: seq<seq<nat>>, degrees: seq<nat>, ghost edges: Edges) returns (order: seq<nat>)
    requires |adj| == n && Tables(edges, adj, degrees)
    requires forall e :: e in edges ==> e.0 < n && e.1 < n
    ensures exists d :: Progress(edges, n, d, [], order)
  {
    var inDegree: seq<nat>, queue: seq<nat> := degrees, [];
    order := [];
    for i := 0 to n
      invariant Below(queue, i) && NoRepeats(queue)
      invariant forall x: nat :: x in queue <==> x < i && inDegree[x] == 0
    {
      if inDegree[i] == 0 { queue := queue + [i]; }
    }
    assert order + queue == queue && Elems(order) == {};
    while queue != []
      invariant Progress(edges, n, inDegree, queue, order)
      decreases n - |order|
    {
      Finish(edges, n, inDegree, queue, order);
      var node := queue[|queue| - 1];
      ghost var before := order;
      queue := queue[..|queue| - 1];
      order := order + [node];
      DistinctPrefix(order, queue, n);
      for k := 0 to |adj[node]|
        invariant Visiting(edges, n, inDegree, queue, order, adj[node][k..])
      {
        var neighbour := adj[node][k];
        VisitOne(edges, n, inDegree, queue, order, adj[node][k..]);
        assert adj[node][k..][1..] == adj[node][k + 1..];
        inDegree := inDegree[neighbour := inDegree[neighbour] - 1];
        if inDegree[neighbour] == 0 { queue := queue + [neighbour]; }
      }
      Visited(edges, n, inDegree, queue, before, node, adj[node][|adj[node]|..]);
    }
  }

  lemma DistinctPrefix(order: seq<nat>, queue: seq<nat>, n: nat)
    requires NoRepeats(order + queue) && Below(order + queue, n)
    ensures |order| <= n && NoRepeats(order) && Below(order, n)
  {
    var all := order + queue;
    forall i | 0 <= i < |order| ensures order[i] < n { assert all[i] == order[i]; }
    forall i, j | 0 <= i < j < |order| ensures order[i] != order[j] { assert all[i] == order[i] && all[j] == order[j]; }
    DistinctBound(order, n);
  }

  lemma Visited(edges: Edges, n: nat, inDegree: seq<nat>, queue: seq<nat>, before: seq<nat>, node: nat, left: seq<nat>)
    requires left == [] && Visiting(edges, n, inDegree, queue, before + [node], left)
    requires forall q, j: nat :: 0 <= q < |before| && (j, before[q]) in edges ==> j in before[..q]
    requires forall j: nat :: (j, node) in edges ==> j in before
    ensures Progress(edges, n, inDegree, queue, before + [node])
  {
    var order := before + [node];
    forall q, j: nat | 0 <= q < |order| && (j, order[q]) in edges ensures j in order[..q] {
      if q < |before| { assert order[..q] == before[..q]; } else { assert order[..q] == before; }
    }
  }

  /** When the loop ends, it either finished every test or is stuck on a cycle. */
  lemma Ending(names: seq<string>, deps: seq<seq<string>>, edges: Edges, d: seq<nat>, order: seq<nat>)
    requires |names| == |deps| && Progress(edges, |names|, d, [], order)
    requires forall j: nat, i: nat :: (j, i) in edges <==> Edge(names, deps, j, i)
    requires forall e :: e in edges ==> e.0 < |names|
    ensures |order| == |names| ==> IsPermutation(order, |names|) && Respects(names, deps, order)
    ensures |order| != |names| ==> HasCycle(names, deps)
  {
    hide Edge; hide HasCycle; hide Pending;
    var n := |names|;
    assert order + [] == order;
    DistinctBound(order, n);
    if |order| != n {
      SomeLeft(order, n);
      LeftIsStuck(names, deps, edges, d, order);
      StuckHasCycle(names, deps, Range(0, n) - Elems(order), n);
    }
  }

  lemma LeftIsStuck(names: seq<string>, deps: seq<seq<string>>, edges: Edges, d: seq<nat>, order: seq<nat>)
    requires |names| == |deps| && Progress(edges, |names|, d, [], order)
    requires forall j: nat, i: nat :: (j, i) in edges <==> Edge(names, deps, j, i)
    requires forall e :: e in edges ==> e.0 < |names|
    ensures Stuck(names, deps, Range(0, |names|) - Elems(order))
  {
    hide Edge; hide Progress; hide Range;
    var rest := Range(0, |names|) - Elems(order);
    forall i | i in rest ensures exists j :: j in rest && Edge(names, deps, j, i) {
      var j := LeftWaits(edges, |names|, d, order, i);
      assert j in rest && Edge(names, deps, j, i);
    }
  }

  /** A test not visited waits for another one not visited. */
  lemma LeftWaits(edges: Edges, n: nat, d: seq<nat>, order: seq<nat>, i: nat) returns (j: nat)
    requires Progress(edges, n, d, [], order) && i < n && i !in Elems(order) && forall e :: e in edges ==> e.0 < n
    ensures (j, i) in edges && j < n && j !in Elems(order)
  {
    hide Pending; hide NoRepeats; hide Below;
    assert order + [] == order;
    assert d[i] == Pending(edges, Elems(order), i) != 0;
    PendingMember(edges, Elems(order), i);
    j :| (j, i) in edges && j !in Elems(order);
    assert (j, i).0 < n;
  }

  lemma SomeLeft(order: seq<nat>, n: nat)
    requires NoRepeats(order) && |order| < n
    ensures Range(0, n) - Elems(order) != {}
  {
    DistinctSize(order);
    if Range(0, n) <= Elems(order) { SubsetSize(Range(0, n), Elems(order)); }
    var i :| i in Range(0, n) && i !in Elems(order);
    assert i in Range(0, n) - Elems(order);
  }

  lemma GivenOrder(n: nat)
    ensures IsPermutation(seq(n, i requires 0 <= i < n => i as nat), n)
  {
    var order: seq<nat> := seq(n, i requires 0 <= i < n => i as nat);
    forall i: nat | i < n ensures i in order { assert order[i] == i; }
  }

  /**
   The execution order: always every test once; dependencies first when there is no cycle; and
   exactly when there is one, the order in which the tests were given.
   */
  method ResolveDagOrder(names: seq<string>, deps: seq<seq<string>>) returns (order: seq<nat>)
    requires |names| == |deps|
    ensures IsPermutation(order, |names|)
    ensures !HasCycle(names, deps) ==> Respects(names, deps, order)
    ensures HasCycle(names, deps) ==> forall i :: 0 <= i < |names| ==> order[i] == i
  {
    hide Edge; hide HasCycle; hide Progress; hide Tables;
    var n := |names|;
    var adj, inDegree, edges := BuildGraph(names, deps);
    order := Kahn(n, adj, inDegree, edges);
    ghost var d :| Progress(edges, n, d, [], order);
    Ending(names, deps, edges, d, order);
    if |order| != n {
      GivenOrder(n);
      order := seq(n, i requires 0 <= i < n => i as nat);
    } else {
      RespectedHasNoCycle(names, deps, order);
    }
  }
}
