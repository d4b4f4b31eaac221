/**
 Removing retained messages by predicate, with a limit that is tested on entry to a node. Child maps
 have no order, so a sweep follows a plan: the order in which it happens to visit the children of
 each node. What holds for every plan holds for every order of the maps.
 */
module RetainSweep {
  import opened Wrappers
  import opened Sequences
  import opened Sets
  import opened Topics
  import opened RetainTrie

  /** The children of a node in the order they are visited, each with the plan for its own children. */
  datatype Plan = Plan(steps: seq<(Level, Plan)>)

  /** What a value becomes: the root's own value is never examined. */
  function Kept<V>(keep: V -> bool, path: Topic, v: Option<V>): Option<V> {
    if path != [] && v.Some? && !keep(v.value) then None else v
  }

  predicate Reached(limit: Option<nat>, removed: nat) { limit.Some? && removed >= limit.value }

  /** A child after its own children were swept: its value is examined, limit or no limit. */
  function Examined<V>(keep: V -> bool, r: (Node<V>, nat)): (Node<V>, nat) {
    if r.0.value.Some? && !keep(r.0.value.value) then (r.0.(value := None), r.1 + 1) else r
  }

  /** The tree and the counter after the given children were visited. */
  function Visited<V>(n: Node<V>, steps: seq<(Level, Plan)>, keep: V -> bool, removed: nat, limit: Option<nat>)
    : (Node<V>, nat)
    decreases n, |steps|
  {
    if steps == [] then (n, removed)
    else
      var k := |steps| - 1;
      var (m, r) := Visited(n, steps[..k], keep, removed, limit);
      var (l, plan) := steps[k];
      if l !in n.branches then (m, r)
      else
        var (child, r') := Examined(keep, Sweep(n.branches[l], plan, keep, r, limit));
        (SetChild(m, l, child), r')
  }

  function Sweep<V>(n: Node<V>, plan: Plan, keep: V -> bool, removed: nat, limit: Option<nat>): (Node<V>, nat)
    decreases n, |plan.steps| + 1
  {
    if Reached(limit, removed) then (n, removed) else Visited(n, plan.steps, keep, removed, limit)
  }

  function Levels(steps: seq<(Level, Plan)>): (s: seq<Level>)
    ensures |s| == |steps|
  {
    seq(|steps|, i requires 0 <= i < |steps| => steps[i].0)
  }

  /** Children of `n`, none twice, each with a plan that fits it. */
  ghost predicate Partial<V>(n: Node<V>, steps: seq<(Level, Plan)>)
    decreases n, 0
  {
    && NoRepeats(Levels(steps))
    && forall i :: 0 <= i < |steps| ==> steps[i].0 in n.branches && Follows(n.branches[steps[i].0], steps[i].1)
  }

  /** The plan visits every child of every node once. */
  ghost predicate Follows<V>(n: Node<V>, plan: Plan)
    decreases n, 1
  {
    Partial(n, plan.steps) && Elems(Levels(plan.steps)) == n.branches.Keys
  }

  lemma PartialPrefix<V>(n: Node<V>, steps: seq<(Level, Plan)>)
    requires Partial(n, steps) && steps != []
    ensures var k := |steps| - 1;
      && Partial(n, steps[..k]) && steps[k].0 !in Elems(Levels(steps[..k]))
      && Elems(Levels(steps)) == Elems(Levels(steps[..k])) + {steps[k].0}
  {
    hide Follows;
    var k := |steps| - 1;
    assert Levels(steps) == Levels(steps[..k]) + [steps[k].0];
    assert Levels(steps)[..k] == Levels(steps[..k]);
    forall i | 0 <= i < k ensures Levels(steps[..k])[i] != steps[k].0 {
      assert Levels(steps)[i] == Levels(steps[..k])[i] && Levels(steps)[k] == steps[k].0;
    }
  }

  lemma PartialMore<V>(n: Node<V>, steps: seq<(Level, Plan)>, l: Level, plan: Plan)
    requires Partial(n, steps) && l in n.branches && l !in Elems(Levels(steps)) && Follows(n.branches[l], plan)
    ensures Partial(n, steps + [(l, plan)])
    ensures Elems(Levels(steps + [(l, plan)])) == Elems(Levels(steps)) + {l}
  {
    hide Follows;
    var more := steps + [(l, plan)];
    assert Levels(more) == Levels(steps) + [l];
  }

  // ---------------------------------------------------------------------------------------------
  // What every sweep does
  // ---------------------------------------------------------------------------------------------

  lemma SetChildKeys<V>(n: Node<V>, l: Level, x: Node<V>)
    ensures SetChild(n, l, x).branches.Keys <= n.branches.Keys + {l}
    ensures forall k :: k in n.branches && k != l ==>
      k in SetChild(n, l, x).branches && SetChild(n, l, x).branches[k] == n.branches[k]
  {
  }

  /**
   Below a child still to be visited nothing has changed; elsewhere a name is as before or was
   examined, every name when `all`, and the name of a visited child in any case.
   */
  ghost predicate SweptOutside<V>(n: Node<V>, m: Node<V>, keep: V -> bool, todo: set<Level>, all: bool) {
    forall q :: var was, kept := Lookup(n, q), Kept(keep, q, Lookup(n, q));
      if q != [] && q[0] in todo then Lookup(m, q) == was
      else if all || |q| == 1 then Lookup(m, q) == kept
      else Lookup(m, q) == was || Lookup(m, q) == kept
  }

  lemma SweptWeaker<V>(n: Node<V>, m: Node<V>, keep: V -> bool, todo: set<Level>)
    ensures SweptOutside(n, m, keep, todo, true) ==> SweptOutside(n, m, keep, todo, false)
  {
    hide Lookup;
  }

  lemma NotSweptYet<V>(n: Node<V>, keep: V -> bool)
    ensures SweptOutside(n, n, keep, n.branches.Keys, true)
    ensures forall all :: SweptOutside(n, n, keep, n.branches.Keys, all)
  {
    forall q ensures q != [] && q[0] !in n.branches ==> Lookup(n, q) == None { }
  }

  lemma SweptOne<V>(
    n: Node<V>, m: Node<V>, keep: V -> bool, todo: set<Level>, l: Level, swept: Node<V>, child: Node<V>, all: bool)
    requires SweptOutside(n, m, keep, todo, all) && l in todo && l in n.branches
    requires forall q ::
      Lookup(swept, q) == Lookup(n.branches[l], q) || Lookup(swept, q) == Kept(keep, q, Lookup(n.branches[l], q))
    requires all ==> forall q :: Lookup(swept, q) == Kept(keep, q, Lookup(n.branches[l], q))
    requires child == if swept.value.Some? && !keep(swept.value.value) then swept.(value := None) else swept
    ensures SweptOutside(n, SetChild(m, l, child), keep, todo - {l}, all)
  {
    hide SetChild;
    forall q ensures
      var was, kept, now := Lookup(n, q), Kept(keep, q, Lookup(n, q)), Lookup(SetChild(m, l, child), q);
      if q != [] && q[0] in todo - {l} then now == was
      else if all || |q| == 1 then now == kept
      else now == was || now == kept
    {
      LookupSetChild(m, l, child, q);
      if q != [] && q[0] == l {
        SweptBelow(n, l, swept, child, keep, q);
      } else {
        assert Lookup(m, q) == Lookup(m, q);
      }
    }
  }

  lemma SweptBelow<V>(n: Node<V>, l: Level, swept: Node<V>, child: Node<V>, keep: V -> bool, q: Topic)
    requires l in n.branches && q != [] && q[0] == l
    requires child == if swept.value.Some? && !keep(swept.value.value) then swept.(value := None) else swept
    requires var was := Lookup(n.branches[l], q[1..]);
      Lookup(swept, q[1..]) == was || Lookup(swept, q[1..]) == Kept(keep, q[1..], was)
    ensures Lookup(child, q[1..]) == Lookup(n, q) || Lookup(child, q[1..]) == Kept(keep, q, Lookup(n, q))
    ensures |q| == 1 || Lookup(swept, q[1..]) == Kept(keep, q[1..], Lookup(n.branches[l], q[1..])) ==>
      Lookup(child, q[1..]) == Kept(keep, q, Lookup(n, q))
  {
    assert Lookup(n, q) == Lookup(n.branches[l], q[1..]);
    if q[1..] == [] {
      assert Lookup(swept, []) == swept.value && Lookup(child, []) == child.value;
    } else {
      assert Lookup(child, q[1..]) == Lookup(swept, q[1..]);
    }
  }

  lemma SweptAll<V>(n: Node<V>, m: Node<V>, keep: V -> bool, all: bool)
    requires SweptOutside(n, m, keep, {}, all)
    ensures forall q :: Lookup(m, q) == Lookup(n, q) || Lookup(m, q) == Kept(keep, q, Lookup(n, q))
    ensures all ==> forall q :: Lookup(m, q) == Kept(keep, q, Lookup(n, q))
    ensures forall l :: Lookup(m, [l]) == Kept(keep, [l], Lookup(n, [l]))
  {
    hide Lookup;
  }

  lemma TidyOne<V>(n: Node<V>, m: Node<V>, l: Level, swept: Node<V>, child: Node<V>)
    requires l in n.branches && child.branches == swept.branches
    requires swept.branches.Keys <= n.branches[l].branches.Keys && (Tidy(n.branches[l]) ==> Tidy(swept))
    requires Tidy(n) ==> Tidy(m)
    ensures Tidy(n) ==> Tidy(SetChild(m, l, child))
  {
    if Tidy(n) {
      assert Tidy(child);
      if l.MultiWildcard? { assert child.branches.Keys == {}; }
    }
  }

  lemma ClearSize<V>(n: Node<V>)
    requires n.value.Some?
    ensures |Paths(n.(value := None))| == |Paths(n)| - 1
  {
    hide Paths;
    var m := n.(value := None);
    forall p ensures Lookup(m, p).Some? <==> (Lookup(n, p).Some? && p !in {[]}) || p in {} { }
    SamePaths(n, m, {}, {[]});
    PathsAreStored(n, []);
    assert Paths(n) == Paths(m) + {[]};
  }

  lemma ExaminedSize<V>(keep: V -> bool, r: (Node<V>, nat))
    ensures var e := Examined(keep, r);
      && e.1 - r.1 == |Paths(r.0)| - |Paths(e.0)| >= 0
      && e.0 == (if r.0.value.Some? && !keep(r.0.value.value) then r.0.(value := None) else r.0)
  {
    hide Paths;
    if r.0.value.Some? && !keep(r.0.value.value) { ClearSize(r.0); }
  }

  /** After some children were visited: what changed, what was counted, and what is as before. */
  lemma {:induction false} VisitedFacts<V>(
    n: Node<V>, steps: seq<(Level, Plan)>, keep: V -> bool, removed: nat, limit: Option<nat>)
    requires Partial(n, steps)
    ensures var (m, r) := Visited(n, steps, keep, removed, limit);
      var todo := n.branches.Keys - Elems(Levels(steps));
      && SweptOutside(n, m, keep, todo, !Reached(limit, r))
      && (Tidy(n) ==> Tidy(m))
      && r - removed == |Paths(n)| - |Paths(m)| >= 0
      && m.branches.Keys <= n.branches.Keys
      && (forall l :: l in todo ==> l in m.branches && m.branches[l] == n.branches[l])
    decreases n, |steps|
  {
    hide Paths; hide SetChild; hide SweptOutside; hide Tidy; hide Lookup; hide Follows; hide Examined; hide Sweep;
    if steps == [] {
      assert n.branches.Keys - Elems(Levels(steps)) == n.branches.Keys;
      NotSweptYet(n, keep);
    } else {
      var k := |steps| - 1;
      PartialPrefix(n, steps);
      VisitedFacts(n, steps[..k], keep, removed, limit);
      var (m, r) := Visited(n, steps[..k], keep, removed, limit);
      var (l, plan) := steps[k];
      var before, after := n.branches.Keys - Elems(Levels(steps[..k])), n.branches.Keys - Elems(Levels(steps));
      assert after == before - {l};
      SweepFacts(n.branches[l], plan, keep, r, limit);
      var swept := Sweep(n.branches[l], plan, keep, r, limit);
      ExaminedSize(keep, swept);
      var (child, r') := Examined(keep, swept);
      assert Child(m, l) == n.branches[l];
      SetChildSize(m, l, child);
      SweptWeaker(n, m, keep, before);
      SweptOne(n, m, keep, before, l, swept.0, child, !Reached(limit, r'));
      TidyOne(n, m, l, swept.0, child);
      SetChildKeys(m, l, child);
    }
  }

  /**
   A sweep drops only values that fail `keep`, and empty nodes; the counter grows by exactly the
   number of names that lost their value. Unless the limit is reached every name that should go
   does, and the names just below a node that was entered are examined in any case.
   */
  lemma {:induction false} SweepFacts<V>(n: Node<V>, plan: Plan, keep: V -> bool, removed: nat, limit: Option<nat>)
    requires Follows(n, plan)
    ensures var (m, r) := Sweep(n, plan, keep, removed, limit);
      && (forall q :: Lookup(m, q) == Lookup(n, q) || Lookup(m, q) == Kept(keep, q, Lookup(n, q)))
      && (!Reached(limit, r) ==> forall q :: Lookup(m, q) == Kept(keep, q, Lookup(n, q)))
      && (!Reached(limit, removed) ==> forall l :: Lookup(m, [l]) == Kept(keep, [l], Lookup(n, [l])))
      && r - removed == |Paths(n)| - |Paths(m)| >= 0
      && (Tidy(n) ==> Tidy(m))
      && m.branches.Keys <= n.branches.Keys
    decreases n, |plan.steps| + 1
  {
    hide Paths; hide SweptOutside; hide Tidy; hide Lookup; hide Partial; hide Visited;
    if !Reached(limit, removed) {
      VisitedFacts(n, plan.steps, keep, removed, limit);
      var (m, r) := Visited(n, plan.steps, keep, removed, limit);
      assert n.branches.Keys - Elems(Levels(plan.steps)) == {};
      SweptAll(n, m, keep, !Reached(limit, r));
    }
  }

  /**
   Drop values that fail `keep`, children in any order, and tell in which. The result is that of the
   sweep along this plan, so everything proved of sweeps along every plan holds of it.
   */
  method Retain<V(==)>(n: Node<V>, keep: V -> bool, removed: nat, limit: Option<nat>)
    returns (n': Node<V>, removed': nat, ghost plan: Plan)
    ensures Follows(n, plan) && (n', removed') == Sweep(n, plan, keep, removed, limit)
    ensures forall q :: Lookup(n', q) == Lookup(n, q) || Lookup(n', q) == Kept(keep, q, Lookup(n, q))
    ensures !Reached(limit, removed') ==> forall q :: Lookup(n', q) == Kept(keep, q, Lookup(n, q))
    ensures !Reached(limit, removed) ==> forall l :: Lookup(n', [l]) == Kept(keep, [l], Lookup(n, [l]))
    ensures removed' - removed == |Paths(n)| - |Paths(n')| >= 0
    ensures Tidy(n) ==> Tidy(n')
    decreases n
  {
    hide Follows; hide SetChild; hide Sweep; hide Partial; hide Visited; hide Levels; hide Elems; hide Examined;
    hide Lookup; hide Paths; hide Tidy; hide Kept;
    n', removed' := n, removed;
    if limit.Some? && removed >= limit.value {
      plan := AnyPlan(n);
      ReachedSweep(n, plan, keep, removed, limit);
      SweepFacts(n, plan, keep, removed, limit);
      return;
    }
    var todo := n.branches.Keys;
    ghost var steps: seq<(Level, Plan)> := [];
    NothingPlanned(n);
    VisitNothing(n, keep, removed, limit);
    while todo != {}
      invariant todo <= n.branches.Keys && Partial(n, steps) && Elems(Levels(steps)) == n.branches.Keys - todo
      invariant (n', removed') == Visited(n, steps, keep, removed, limit)
      decreases |todo|
    {
      var l :| l in todo;
      var child;
      ghost var sub;
      child, removed', sub := Retain(n.branches[l], keep, removed', limit);
      ExaminedIs(keep, child, removed');
      if child.value.Some? && !keep(child.value.value) {
        child, removed' := child.(value := None), removed' + 1;
      }
      PartialMore(n, steps, l, sub);
      VisitMore(n, steps, l, sub, keep, removed, limit);
      steps := steps + [(l, sub)];
      todo := todo - {l};
      n' := SetChild(n', l, child);
    }
    plan := Plan(steps);
    EnteredSweep(n, plan, keep, removed, limit);
    SweepFacts(n, plan, keep, removed, limit);
  }

  lemma ExaminedIs<V>(keep: V -> bool, child: Node<V>, removed: nat)
    ensures Examined(keep, (child, removed)) ==
      if child.value.Some? && !keep(child.value.value) then (child.(value := None), removed + 1) else (child, removed)
  {
  }

  lemma VisitMore<V>(
    n: Node<V>, steps: seq<(Level, Plan)>, l: Level, plan: Plan, keep: V -> bool, removed: nat, limit: Option<nat>)
    requires l in n.branches
    ensures var (m, r) := Visited(n, steps, keep, removed, limit);
      var (child, r') := Examined(keep, Sweep(n.branches[l], plan, keep, r, limit));
      Visited(n, steps + [(l, plan)], keep, removed, limit) == (SetChild(m, l, child), r')
  {
    hide Sweep; hide Examined; hide SetChild;
    var more := steps + [(l, plan)];
    assert more[..|more| - 1] == steps;
  }

  lemma NothingPlanned<V>(n: Node<V>)
    ensures Partial(n, []) && Elems(Levels([])) == n.branches.Keys - n.branches.Keys
  {
  }

  lemma ReachedSweep<V>(n: Node<V>, plan: Plan, keep: V -> bool, removed: nat, limit: Option<nat>)
    requires Reached(limit, removed)
    ensures Sweep(n, plan, keep, removed, limit) == (n, removed)
  {
  }

  lemma EnteredSweep<V>(n: Node<V>, plan: Plan, keep: V -> bool, removed: nat, limit: Option<nat>)
    requires !Reached(limit, removed)
    ensures Sweep(n, plan, keep, removed, limit) == Visited(n, plan.steps, keep, removed, limit)
    ensures Partial(n, plan.steps) && Elems(Levels(plan.steps)) == n.branches.Keys ==> Follows(n, plan)
  {
  }

  /** Some order of the children of every node, beginning as asked. */
  lemma {:induction false} Completed<V>(n: Node<V>, first: seq<(Level, Plan)>, todo: set<Level>)
    returns (steps: seq<(Level, Plan)>)
    requires Partial(n, first) && todo == n.branches.Keys - Elems(Levels(first))
    ensures first <= steps && Partial(n, steps) && Elems(Levels(steps)) == n.branches.Keys
    decreases n, |todo|
  {
    hide Partial; hide Follows;
    if todo == {} {
      steps := first;
      PartialIsWithin(n, first);
    } else {
      var l :| l in todo;
      var sub := AnyPlan(n.branches[l]);
      PartialMore(n, first, l, sub);
      steps := Completed(n, first + [(l, sub)], todo - {l});
      assert first <= first + [(l, sub)];
    }
  }

  lemma PartialIsWithin<V>(n: Node<V>, steps: seq<(Level, Plan)>)
    requires Partial(n, steps)
    ensures Elems(Levels(steps)) <= n.branches.Keys
  {
    hide Follows;
    forall l | l in Elems(Levels(steps)) ensures l in n.branches {
      var i :| 0 <= i < |steps| && Levels(steps)[i] == l;
    }
  }

  lemma {:induction false} AnyPlan<V>(n: Node<V>) returns (plan: Plan)
    ensures Follows(n, plan)
    decreases n, |n.branches.Keys| + 1
  {
    NothingPlanned(n);
    var steps := Completed(n, [], n.branches.Keys);
    plan := Plan(steps);
  }

  // ---------------------------------------------------------------------------------------------
  // When the limit is a cap
  // ---------------------------------------------------------------------------------------------

  predicate Fails<V>(n: Node<V>, keep: V -> bool, p: Topic) {
    p != [] && Lookup(n, p).Some? && !keep(Lookup(n, p).value)
  }

  /** The names whose value should go. */
  function Failing<V>(n: Node<V>, keep: V -> bool): set<Topic> {
    set p | p in Paths(n) && Fails(n, keep, p)
  }

  lemma FailingMember<V>(n: Node<V>, keep: V -> bool, p: Topic)
    ensures p in Failing(n, keep) <==> Fails(n, keep, p)
  {
    hide Paths;
    PathsAreStored(n, p);
  }

  lemma SizeDifference<T>(a: set<T>, b: set<T>)
    requires b <= a
    ensures |a - b| == |a| - |b|
  {
    assert a == b + (a - b);
  }

  /** No more names go than fail, and below the limit exactly those. */
  lemma SweepCounts<V>(n: Node<V>, plan: Plan, keep: V -> bool, removed: nat, limit: Option<nat>)
    requires Follows(n, plan)
    ensures var (m, r) := Sweep(n, plan, keep, removed, limit);
      && removed <= r <= removed + |Failing(n, keep)|
      && (!Reached(limit, r) ==> r == removed + |Failing(n, keep)|)
  {
    hide Paths; hide Sweep; hide Follows; hide Lookup; hide Failing;
    SweepFacts(n, plan, keep, removed, limit);
    var (m, r) := Sweep(n, plan, keep, removed, limit);
    forall p
      ensures p in Paths(m) ==> p in Paths(n)
      ensures p in Paths(n) - Paths(m) ==> p in Failing(n, keep)
      ensures !Reached(limit, r) && p in Failing(n, keep) ==> p in Paths(n) - Paths(m)
    {
      PathsAreStored(n, p);
      PathsAreStored(m, p);
      FailingMember(n, keep, p);
      assert Lookup(m, p) == Lookup(n, p) || Lookup(m, p) == Kept(keep, p, Lookup(n, p));
    }
    SizeDifference(Paths(n), Paths(m));
    SubsetSize(Paths(n) - Paths(m), Failing(n, keep));
    if !Reached(limit, r) { assert Paths(n) - Paths(m) == Failing(n, keep); }
  }

  /** The parent of name `q` leads to the other failing name `p` as well. */
  predicate Crowds<V>(n: Node<V>, keep: V -> bool, q: Topic, p: Topic) {
    Fails(n, keep, q) && Fails(n, keep, p) && q != p && Shares(q, p)
  }

  /** The parent of `q` is a proper prefix of `p`. */
  predicate Shares(q: Topic, p: Topic) {
    q != [] && |q| - 1 < |p| && q[..|q| - 1] == p[..|q| - 1]
  }

  ghost predicate Spread<V>(n: Node<V>, keep: V -> bool) {
    forall q, p :: !Crowds(n, keep, q, p)
  }

  lemma FailsBelow<V>(n: Node<V>, keep: V -> bool, l: Level, p: Topic)
    requires l in n.branches && p != []
    ensures Fails(n, keep, [l] + p) <==> Fails(n.branches[l], keep, p)
  {
    assert ([l] + p)[1..] == p;
  }

  lemma SharesBelow(l: Level, q: Topic, p: Topic)
    requires q != []
    ensures Shares([l] + q, [l] + p) <==> Shares(q, p)
  {
    var k := |q| - 1;
    assert ([l] + q)[..k + 1] == [l] + q[..k];
    if k < |p| {
      assert ([l] + p)[..k + 1] == [l] + p[..k];
      assert ([l] + q[..k])[1..] == q[..k] && ([l] + p[..k])[1..] == p[..k];
    }
  }

  lemma CrowdsBelow<V>(n: Node<V>, keep: V -> bool, l: Level, q: Topic, p: Topic)
    requires l in n.branches && Crowds(n.branches[l], keep, q, p)
    ensures Crowds(n, keep, [l] + q, [l] + p)
  {
    hide Fails; hide Shares;
    FailsIsName(n.branches[l], keep, q);
    FailsIsName(n.branches[l], keep, p);
    FailsBelow(n, keep, l, q);
    FailsBelow(n, keep, l, p);
    SharesBelow(l, q, p);
    assert ([l] + q)[1..] == q && ([l] + p)[1..] == p;
  }

  lemma SpreadBelow<V>(n: Node<V>, keep: V -> bool, l: Level)
    requires Spread(n, keep) && l in n.branches
    ensures Spread(n.branches[l], keep)
  {
    hide Crowds;
    forall q, p ensures !Crowds(n.branches[l], keep, q, p) {
      if Crowds(n.branches[l], keep, q, p) {
        CrowdsBelow(n, keep, l, q, p);
        assert false;
      }
    }
  }

  lemma FailsIsName<V>(n: Node<V>, keep: V -> bool, p: Topic)
    requires Fails(n, keep, p)
    ensures p != []
  {
  }

  /** A failing name just below the root is then the only failing name. */
  lemma TopFailsAlone<V>(n: Node<V>, keep: V -> bool, l: Level)
    requires Spread(n, keep) && Fails(n, keep, [l])
    ensures |Failing(n, keep)| == 1
  {
    hide Failing; hide Fails;
    forall p ensures p in Failing(n, keep) <==> p in {[l]} {
      FailingMember(n, keep, p);
      if Fails(n, keep, p) {
        FailsIsName(n, keep, p);
        assert [l][..0] == p[..0];
        assert !Crowds(n, keep, [l], p);
      }
    }
    assert Failing(n, keep) == {[l]};
  }

  lemma {:induction false} SpreadCaps<V>(n: Node<V>, plan: Plan, keep: V -> bool, removed: nat, limit: nat)
    requires Follows(n, plan) && Spread(n, keep) && removed <= limit
    ensures Sweep(n, plan, keep, removed, Some(limit)).1 <= limit
    decreases n, |plan.steps| + 1
  {
    hide Failing; hide Spread; hide Fails; hide Visited;
    if removed < limit {
      if l :| Fails(n, keep, [l]) {
        TopFailsAlone(n, keep, l);
        SweepCounts(n, plan, keep, removed, Some(limit));
      } else {
        SpreadVisit(n, plan.steps, keep, removed, limit);
      }
    }
  }

  lemma {:induction false} SpreadVisit<V>(
    n: Node<V>, steps: seq<(Level, Plan)>, keep: V -> bool, removed: nat, limit: nat)
    requires Partial(n, steps) && Spread(n, keep) && removed <= limit && forall l :: !Fails(n, keep, [l])
    ensures Visited(n, steps, keep, removed, Some(limit)).1 <= limit
    decreases n, |steps|
  {
    hide Spread; hide Fails; hide Sweep; hide Follows; hide Examined; hide SetChild;
    if steps != [] {
      var k := |steps| - 1;
      PartialPrefix(n, steps);
      SpreadVisit(n, steps[..k], keep, removed, limit);
      var r := Visited(n, steps[..k], keep, removed, Some(limit)).1;
      var (l, plan) := steps[k];
      SpreadBelow(n, keep, l);
      SpreadCaps(n.branches[l], plan, keep, r, limit);
      NotExamined(n, keep, l, plan, r, Some(limit));
    }
  }

  /** A child whose value does not fail adds nothing of its own. */
  lemma NotExamined<V>(n: Node<V>, keep: V -> bool, l: Level, plan: Plan, removed: nat, limit: Option<nat>)
    requires l in n.branches && Follows(n.branches[l], plan) && !Fails(n, keep, [l])
    ensures var r := Sweep(n.branches[l], plan, keep, removed, limit); Examined(keep, r) == r
  {
    hide Sweep; hide Follows; hide Paths;
    SweepFacts(n.branches[l], plan, keep, removed, limit);
    var m := Sweep(n.branches[l], plan, keep, removed, limit).0;
    assert [l][1..] == [];
    assert Lookup(m, []) == Lookup(n.branches[l], []) == Lookup(n, [l]);
  }

  // ---------------------------------------------------------------------------------------------
  // And when it is not
  // ---------------------------------------------------------------------------------------------

  lemma {:induction false} SweepGrows<V>(n: Node<V>, plan: Plan, keep: V -> bool, removed: nat, limit: Option<nat>)
    ensures Sweep(n, plan, keep, removed, limit).1 >= removed
    decreases n, |plan.steps| + 1
  {
    VisitGrows(n, plan.steps, 0, keep, removed, limit);
    assert plan.steps[..0] == [];
  }

  lemma {:induction false} VisitGrows<V>(
    n: Node<V>, steps: seq<(Level, Plan)>, k: nat, keep: V -> bool, removed: nat, limit: Option<nat>)
    requires k <= |steps|
    ensures Visited(n, steps, keep, removed, limit).1 >= Visited(n, steps[..k], keep, removed, limit).1
    decreases n, |steps|
  {
    if k < |steps| {
      var j := |steps| - 1;
      VisitGrows(n, steps[..j], k, keep, removed, limit);
      assert steps[..j][..k] == steps[..k];
      var (l, plan) := steps[j];
      if l in n.branches {
        SweepGrows(n.branches[l], plan, keep, Visited(n, steps[..j], keep, removed, limit).1, limit);
      }
    } else {
      assert steps[..k] == steps;
    }
  }

  /** A node that is entered below the limit and has a failing name loses at least one. */
  lemma EnteredLoses<V>(n: Node<V>, plan: Plan, keep: V -> bool, removed: nat, limit: nat, p: Topic)
    requires Follows(n, plan) && removed < limit && Fails(n, keep, p)
    ensures Sweep(n, plan, keep, removed, Some(limit)).1 > removed
  {
    hide Sweep; hide Follows; hide Fails; hide Failing;
    FailingMember(n, keep, p);
    SweepCounts(n, plan, keep, removed, Some(limit));
  }

  /** A child whose own value fails is counted, whatever the limit. */
  lemma ExaminedCounts<V>(n: Node<V>, keep: V -> bool, l: Level, plan: Plan, removed: nat, limit: Option<nat>)
    requires l in n.branches && Follows(n.branches[l], plan) && Fails(n, keep, [l])
    ensures var r := Sweep(n.branches[l], plan, keep, removed, limit); Examined(keep, r).1 == r.1 + 1
  {
    hide Sweep; hide Follows; hide Paths;
    SweepFacts(n.branches[l], plan, keep, removed, limit);
    var m := Sweep(n.branches[l], plan, keep, removed, limit).0;
    assert [l][1..] == [];
    assert Lookup(m, []) == Lookup(n.branches[l], []) == Lookup(n, [l]);
  }

  lemma FailsThrough<V>(n: Node<V>, keep: V -> bool, p: Topic)
    requires Fails(n, keep, p)
    ensures p != [] && p[0] in n.branches && p == [p[0]] + p[1..]
    ensures p[1..] != [] ==> Fails(n.branches[p[0]], keep, p[1..])
  {
  }

  /** Visiting a child with a failing name in or at it, below the limit, counts at least one. */
  lemma ChildLoses<V>(n: Node<V>, plan: Plan, keep: V -> bool, p: Topic)
    requires Fails(n, keep, p) && p[0] in n.branches && Follows(n.branches[p[0]], plan)
    ensures Examined(keep, Sweep(n.branches[p[0]], plan, keep, 0, Some(1))).1 >= 1
  {
    hide Sweep; hide Follows; hide Fails;
    FailsThrough(n, keep, p);
    if p[1..] == [] {
      assert p == [p[0]];
      ExaminedCounts(n, keep, p[0], plan, 0, Some(1));
    } else {
      EnteredLoses(n.branches[p[0]], plan, keep, 0, 1, p[1..]);
    }
  }

  lemma StepGrows<V>(keep: V -> bool, r: (Node<V>, nat))
    ensures Examined(keep, r).1 >= r.1
  {
  }

  lemma OneStep<V>(n: Node<V>, l: Level, plan: Plan)
    requires l in n.branches && Follows(n.branches[l], plan)
    ensures Partial(n, [(l, plan)]) && Elems(Levels([(l, plan)])) == {l}
  {
    hide Follows;
    NothingPlanned(n);
    PartialMore(n, [], l, plan);
    assert [] + [(l, plan)] == [(l, plan)];
  }

  /** Finish a plan that has already gone past the limit. */
  lemma Overshoots<V>(n: Node<V>, first: seq<(Level, Plan)>, keep: V -> bool) returns (plan: Plan)
    requires Partial(n, first) && Visited(n, first, keep, 0, Some(1)).1 > 1
    ensures Follows(n, plan) && Sweep(n, plan, keep, 0, Some(1)).1 > 1
  {
    hide Partial; hide Visited;
    var steps := Completed(n, first, n.branches.Keys - Elems(Levels(first)));
    plan := Plan(steps);
    assert steps[..|first|] == first;
    VisitGrows(n, steps, |first|, keep, 0, Some(1));
  }

  /** With limit 1 and crowded names some order goes past the limit: straight to the parent, then both. */
  lemma {:induction false} CrowdOvershoots<V>(n: Node<V>, keep: V -> bool, q: Topic, p: Topic) returns (plan: Plan)
    requires Crowds(n, keep, q, p)
    ensures Follows(n, plan) && Sweep(n, plan, keep, 0, Some(1)).1 > 1
    decreases |q|
  {
    hide Sweep; hide Follows; hide Fails; hide Visited; hide Examined; hide Partial; hide Shares;
    FailsThrough(n, keep, q);
    FailsThrough(n, keep, p);
    var first: seq<(Level, Plan)>;
    if |q| == 1 {
      assert q == [q[0]];
      first := CrowdHere(n, keep, q[0], p);
    } else {
      var l := q[0];
      SharesHead(q, p);
      SharesBelow(l, q[1..], p[1..]);
      SharesLength(q[1..], p[1..]);
      var sub := CrowdOvershoots(n.branches[l], keep, q[1..], p[1..]);
      first := [(l, sub)];
      OneStep(n, l, sub);
      VisitMore(n, [], l, sub, keep, 0, Some(1));
      assert [] + first == first;
      VisitNothing(n, keep, 0, Some(1));
      StepGrows(keep, Sweep(n.branches[l], sub, keep, 0, Some(1)));
    }
    plan := Overshoots(n, first, keep);
  }

  lemma SharesHead(q: Topic, p: Topic)
    requires Shares(q, p) && |q| > 1
    ensures p != [] && p[0] == q[0]
  {
    assert q[..|q| - 1][0] == q[0] && p[..|q| - 1][0] == p[0];
  }

  lemma SharesLength(q: Topic, p: Topic)
    requires Shares(q, p)
    ensures p != []
  {
  }

  lemma VisitNothing<V>(n: Node<V>, keep: V -> bool, removed: nat, limit: Option<nat>)
    ensures Visited(n, [], keep, removed, limit) == (n, removed)
  {
  }

  /** A failing name just below the root, and another one anywhere. */
  lemma CrowdHere<V>(n: Node<V>, keep: V -> bool, k: Level, p: Topic) returns (first: seq<(Level, Plan)>)
    requires Fails(n, keep, [k]) && Fails(n, keep, p) && p != [k]
    ensures Partial(n, first) && Visited(n, first, keep, 0, Some(1)).1 > 1
  {
    hide Sweep; hide Follows; hide Fails; hide Visited; hide Examined; hide Partial;
    FailsThrough(n, keep, [k]);
    FailsThrough(n, keep, p);
    var l := p[0];
    var sub := AnyPlan(n.branches[l]);
    OneStep(n, l, sub);
    VisitNothing(n, keep, 0, Some(1));
    VisitMore(n, [], l, sub, keep, 0, Some(1));
    assert [] + [(l, sub)] == [(l, sub)];
    if l == k {
      EnteredLoses(n.branches[k], sub, keep, 0, 1, p[1..]);
      ExaminedCounts(n, keep, k, sub, 0, Some(1));
      first := [(l, sub)];
    } else {
      ChildLoses(n, sub, keep, p);
      var other := AnyPlan(n.branches[k]);
      PartialMore(n, [(l, sub)], k, other);
      first := [(l, sub)] + [(k, other)];
      VisitMore(n, [(l, sub)], k, other, keep, 0, Some(1));
      var r := Visited(n, [(l, sub)], keep, 0, Some(1)).1;
      ExaminedCounts(n, keep, k, other, r, Some(1));
      SweepGrows(n.branches[k], other, keep, r, Some(1));
    }
  }

  ghost predicate Capped<V>(n: Node<V>, keep: V -> bool, limit: nat) {
    forall plan :: Follows(n, plan) ==> Sweep(n, plan, keep, 0, Some(limit)).1 <= limit
  }

  /**
   The limit caps every sweep, whatever the limit and the order of the maps, exactly when no failing
   name's parent is a proper prefix of another failing name. With one limit it caps every sweep when
   at most that many names fail, too, and when fewer fail they all go.
   */
  lemma CapIffSpread<V>(n: Node<V>, keep: V -> bool)
    ensures (forall limit :: Capped(n, keep, limit)) <==> Spread(n, keep)
    ensures forall limit :: |Failing(n, keep)| <= limit ==> Capped(n, keep, limit)
    ensures forall limit, plan :: Follows(n, plan) && |Failing(n, keep)| < limit ==>
      Sweep(n, plan, keep, 0, Some(limit)).1 == |Failing(n, keep)|
  {
    hide Sweep; hide Follows; hide Failing; hide Crowds;
    forall limit, plan | Follows(n, plan)
      ensures Spread(n, keep) ==> Sweep(n, plan, keep, 0, Some(limit)).1 <= limit
      ensures |Failing(n, keep)| <= limit ==> Sweep(n, plan, keep, 0, Some(limit)).1 <= limit
      ensures |Failing(n, keep)| < limit ==> Sweep(n, plan, keep, 0, Some(limit)).1 == |Failing(n, keep)|
    {
      SweepCounts(n, plan, keep, 0, Some(limit));
      if Spread(n, keep) { SpreadCaps(n, plan, keep, 0, limit); }
    }
    if !Spread(n, keep) {
      var q, p :| Crowds(n, keep, q, p);
      var plan := CrowdOvershoots(n, keep, q, p);
      assert !Capped(n, keep, 1);
    }
  }

  /** Two expired names side by side and limit 1: both go, in either order. */
  lemma PastLimitExample(n: Node<nat>, plan: Plan, keep: nat -> bool)
    requires n == InsertAt<nat>(InsertAt<nat>(Empty(), [Normal("a")], 1), [Normal("b")], 2)
    requires Follows(n, plan) && !keep(1) && !keep(2)
    ensures Sweep(n, plan, keep, 0, Some(1)).1 == 2
  {
    hide Paths; hide Lookup; hide InsertAt; hide Sweep; hide Follows;
    var a, b := Normal("a"), Normal("b");
    TwoNames<nat>(n, a, b, 1, 2);
    SweepFacts(n, plan, keep, 0, Some(1));
    var m := Sweep(n, plan, keep, 0, Some(1)).0;
    forall q ensures Lookup(m, q) == None { assert q == [a] || q == [b] || Lookup(n, q) == None; }
    TwoPaths(n, m, a, b);
  }

  lemma TwoNames<V>(n: Node<V>, a: Level, b: Level, x: V, y: V)
    requires a != b && n == InsertAt(InsertAt(Empty(), [a], x), [b], y)
    ensures forall q :: Lookup(n, q) == if q == [b] then Some(y) else if q == [a] then Some(x) else None
  {
    hide InsertAt; hide Lookup;
    var one: Node<V> := InsertAt(Empty(), [a], x);
    forall q ensures Lookup(n, q) == if q == [b] then Some(y) else if q == [a] then Some(x) else None {
      LookupInsert(Empty<V>(), [a], x, q);
      LookupInsert(one, [b], y, q);
      EmptyHoldsNothing<V>(q);
    }
  }

  lemma TwoPaths<V>(n: Node<V>, m: Node<V>, a: Level, b: Level)
    requires a != b && (forall q :: Lookup(n, q).Some? <==> q == [a] || q == [b]) && forall q :: Lookup(m, q) == None
    ensures |Paths(n)| == 2 && |Paths(m)| == 0
  {
    hide Paths; hide Lookup;
    forall q ensures (q in Paths(n) <==> q in {[a], [b]}) && q !in Paths(m) {
      PathsAreStored(n, q);
      PathsAreStored(m, q);
    }
    assert [a][0] != [b][0];
    assert Paths(n) == {[a], [b]} && Paths(m) == {};
  }
}
