/**
 The subscription trie: filters stored level by level, queried by topic name through a lazy
 iterator. Nodes are owned values in the broker, so a node is a value here and the tree object
 reassigns its root; the iterator owns its sub-iterators and is passed in and out.
 */
module TopicTrie {
  import opened Wrappers
  import opened Sequences
  import opened Topics

  datatype Node<V> = Node(values: set<V>, branches: map<Level, Node<V>>)

  function Empty<V>(): Node<V> { Node({}, map[]) }

  /** The values stored under a filter. */
  function Lookup<V>(n: Node<V>, path: Topic): set<V>
    decreases |path|
  {
    if path == [] then n.values
    else if path[0] in n.branches then Lookup(n.branches[path[0]], path[1..])
    else {}
  }

  function Child<V>(n: Node<V>, l: Level): Node<V> {
    if l in n.branches then n.branches[l] else Empty()
  }

  function InsertAt<V>(n: Node<V>, path: Topic, v: V): Node<V>
    decreases |path|
  {
    if path == [] then n.(values := n.values + {v})
    else n.(branches := n.branches[path[0] := InsertAt(Child(n, path[0]), path[1..], v)])
  }

  predicate Dead<V>(n: Node<V>) { n.values == {} && n.branches == map[] }

  function RemoveAt<V>(n: Node<V>, path: Topic, v: V): Node<V>
    decreases |path|
  {
    if path == [] then n.(values := n.values - {v})
    else if path[0] !in n.branches then n
    else
      var x := RemoveAt(n.branches[path[0]], path[1..], v);
      if Dead(x) then n.(branches := n.branches - {path[0]})
      else n.(branches := n.branches[path[0] := x])
  }

  /** Every node below the root holds a value or leads to one. */
  ghost predicate Canonical<V>(n: Node<V>) {
    forall l :: l in n.branches ==> !Dead(n.branches[l]) && Canonical(n.branches[l])
  }

  lemma EmptyHoldsNothing<V>(path: Topic)
    ensures Lookup(Empty<V>(), path) == {}
  {
  }

  lemma {:induction false} LookupInsert<V>(n: Node<V>, path: Topic, v: V, q: Topic)
    ensures Lookup(InsertAt(n, path, v), q) == Lookup(n, q) + if q == path then {v} else {}
    decreases |path|
  {
    if path != [] && q != [] && q[0] == path[0] {
      LookupInsert(Child(n, path[0]), path[1..], v, q[1..]);
      EmptyHoldsNothing<V>(q[1..]);
      assert q == path <==> q[1..] == path[1..] by { assert q == [q[0]] + q[1..] && path == [path[0]] + path[1..]; }
    }
  }

  lemma {:induction false} LookupRemove<V>(n: Node<V>, path: Topic, v: V, q: Topic)
    ensures Lookup(RemoveAt(n, path, v), q) == Lookup(n, q) - if q == path then {v} else {}
    decreases |path|
  {
    if path != [] && path[0] in n.branches && q != [] && q[0] == path[0] {
      LookupRemove(n.branches[path[0]], path[1..], v, q[1..]);
      var x := RemoveAt(n.branches[path[0]], path[1..], v);
      if Dead(x) { assert x == Empty(); EmptyHoldsNothing<V>(q[1..]); }
      assert q == path <==> q[1..] == path[1..] by { assert q == [q[0]] + q[1..] && path == [path[0]] + path[1..]; }
    }
  }

  lemma {:induction false} InsertCanonical<V>(n: Node<V>, path: Topic, v: V)
    requires Canonical(n)
    ensures Canonical(InsertAt(n, path, v)) && !Dead(InsertAt(n, path, v))
    decreases |path|
  {
    if path != [] {
      InsertCanonical(Child(n, path[0]), path[1..], v);
      assert path[0] in InsertAt(n, path, v).branches;
    }
  }

  lemma {:induction false} RemoveCanonical<V>(n: Node<V>, path: Topic, v: V)
    requires Canonical(n)
    ensures Canonical(RemoveAt(n, path, v))
    decreases |path|
  {
    if path != [] && path[0] in n.branches {
      RemoveCanonical(n.branches[path[0]], path[1..], v);
    }
  }

  /** A live node below which something is stored. */
  lemma {:induction false} LiveHolds<V>(n: Node<V>) returns (path: Topic)
    requires Canonical(n) && !Dead(n)
    ensures Lookup(n, path) != {}
  {
    if n.values != {} {
      path := [];
    } else {
      var l :| l in n.branches;
      var rest := LiveHolds(n.branches[l]);
      path := [l] + rest;
      assert path[1..] == rest;
    }
  }

  lemma SubtreeAgrees<V>(a: Node<V>, b: Node<V>, l: Level)
    requires forall p :: Lookup(a, p) == Lookup(b, p)
    ensures forall p :: Lookup(Child(a, l), p) == Lookup(Child(b, l), p)
  {
    forall p ensures Lookup(Child(a, l), p) == Lookup(Child(b, l), p) {
      var q := [l] + p;
      assert q[1..] == p;
      assert Lookup(a, q) == Lookup(b, q);
      EmptyHoldsNothing<V>(p);
    }
  }

  /** The tree is determined by its contents. */
  lemma {:induction false} CanonicalUnique<V>(a: Node<V>, b: Node<V>)
    requires Canonical(a) && Canonical(b)
    requires forall p :: Lookup(a, p) == Lookup(b, p)
    ensures a == b
    decreases a
  {
    assert Lookup(a, []) == Lookup(b, []);
    forall l
      ensures l in a.branches <==> l in b.branches
      ensures l in a.branches && l in b.branches ==> a.branches[l] == b.branches[l]
    {
      SubtreeAgrees(a, b, l);
      assert l in a.branches ==> Child(a, l) == a.branches[l];
      assert l in b.branches ==> Child(b, l) == b.branches[l];
      if l in a.branches && l !in b.branches {
        var p := LiveHolds(Child(a, l));
        assert Lookup(Child(a, l), p) == Lookup(Child(b, l), p);
        EmptyHoldsNothing<V>(p);
        assert false;
      }
      if l in b.branches && l !in a.branches {
        var p := LiveHolds(Child(b, l));
        assert Lookup(Child(a, l), p) == Lookup(Child(b, l), p);
        EmptyHoldsNothing<V>(p);
        assert false;
      }
      if l in a.branches && l in b.branches {
        forall p ensures Lookup(a.branches[l], p) == Lookup(b.branches[l], p) {
          assert Lookup(Child(a, l), p) == Lookup(Child(b, l), p);
        }
        CanonicalUnique(a.branches[l], b.branches[l]);
      }
    }
    assert a.branches == b.branches;
  }

  /** Removing a pair that was just inserted restores the tree, node for node. */
  lemma RemoveUndoesInsert<V>(n: Node<V>, path: Topic, v: V)
    requires Canonical(n) && v !in Lookup(n, path)
    ensures RemoveAt(InsertAt(n, path, v), path, v) == n
  {
    var m := InsertAt(n, path, v);
    InsertCanonical(n, path, v);
    RemoveCanonical(m, path, v);
    forall p ensures Lookup(RemoveAt(m, path, v), p) == Lookup(n, p) {
      LookupInsert(n, path, v, p);
      LookupRemove(m, path, v, p);
    }
    CanonicalUnique(RemoveAt(m, path, v), n);
  }

  // ---------------------------------------------------------------------------------------------
  // Matching
  // ---------------------------------------------------------------------------------------------

  datatype Item<V> = Item(levels: Topic, values: set<V>)

  function Items<V>(levels: Topic, values: set<V>): seq<Item<V>> {
    if values == {} then [] else [Item(levels, values)]
  }

  /** Everything the iterator yields from a node, in its order: depth first, `#` before `+` before exact. */
  function Found<V>(n: Node<V>, path: Topic, sub: Topic): seq<Item<V>>
    decreases |path|
  {
    var hash := Items(sub + [MultiWildcard], Child(n, MultiWildcard).values);
    if path == [] then Items(sub, n.values) + hash
    else
      var shielded := sub == [] && path[0].Metadata?;
      (if shielded then [] else hash)
      + (if !shielded && SingleWildcard in n.branches
         then Found(n.branches[SingleWildcard], path[1..], sub + [SingleWildcard]) else [])
      + (if path[0] in n.branches then Found(n.branches[path[0]], path[1..], sub + [path[0]]) else [])
  }

  /** Filter `g`, read below a prefix, matches `path`; only a filter from the root is shielded from `$`. */
  predicate Fits(top: bool, g: Topic, path: Topic) {
    if top then Matches(g, path) else LevelsMatch(g, path)
  }

  /** `item` is a stored filter below `n`, extended by the prefix, that fits, with all of its values. */
  predicate Hit<V>(n: Node<V>, path: Topic, sub: Topic, item: Item<V>) {
    && sub <= item.levels
    && item.values == Lookup(n, item.levels[|sub|..])
    && item.values != {}
    && Fits(sub == [], item.levels[|sub|..], path)
  }

  lemma BelowPrefix<V>(n: Node<V>, sub: Topic, l: Level, item: Item<V>)
    ensures sub + [l] <= item.levels <==>
      sub <= item.levels && |item.levels| > |sub| && item.levels[|sub|] == l
    ensures sub + [l] <= item.levels ==>
      && item.levels[|sub|..][0] == l
      && item.levels[|sub|..][1..] == item.levels[|sub + [l]|..]
      && Lookup(n, item.levels[|sub|..]) ==
         if l in n.branches then Lookup(n.branches[l], item.levels[|sub + [l]|..]) else {}
  {
  }

  lemma HashHit<V>(n: Node<V>, path: Topic, sub: Topic, item: Item<V>)
    ensures item in Items(sub + [MultiWildcard], Child(n, MultiWildcard).values)
            && !(sub == [] && path != [] && path[0].Metadata?) <==>
      Hit(n, path, sub, item) && item.levels == sub + [MultiWildcard]
  {
    BelowPrefix(n, sub, MultiWildcard, item);
    LevelsMatchStep([MultiWildcard], path);
    if item.levels == sub + [MultiWildcard] { assert item.levels[|sub|..] == [MultiWildcard]; }
  }

  /** Hits through a branch: those inside it, and `#` itself when that is the branch. */
  lemma BranchHit<V>(n: Node<V>, path: Topic, sub: Topic, l: Level, item: Item<V>)
    requires path != [] && (l.SingleWildcard? || l == path[0])
    ensures l in n.branches && !(sub == [] && path[0].Metadata? && l.SingleWildcard?) ==>
      (Hit(n.branches[l], path[1..], sub + [l], item) ==> Hit(n, path, sub, item))
    ensures Hit(n, path, sub, item) && sub + [l] <= item.levels && item.levels != sub + [MultiWildcard] ==>
      && l in n.branches
      && !(sub == [] && path[0].Metadata? && l.SingleWildcard?)
      && Hit(n.branches[l], path[1..], sub + [l], item)
  {
    BelowPrefix(n, sub, l, item);
    if sub + [l] <= item.levels {
      var g := item.levels[|sub|..];
      LevelsMatchStep(g, path);
      if g == [MultiWildcard] { assert item.levels == sub + g; }
    }
  }

  /** A hit below a non-empty path is `#`, or goes through `+` or the exact branch. */
  lemma HitCases<V>(n: Node<V>, path: Topic, sub: Topic, item: Item<V>)
    requires path != [] && Hit(n, path, sub, item)
    ensures item.levels == sub + [MultiWildcard] ||
      sub + [SingleWildcard] <= item.levels || sub + [path[0]] <= item.levels
  {
    var g := item.levels[|sub|..];
    LevelsMatchStep(g, path);
    if g == [MultiWildcard] { assert item.levels == sub + g; }
    BelowPrefix(n, sub, SingleWildcard, item);
    BelowPrefix(n, sub, path[0], item);
  }

  /** The iterator's items are exactly the stored filters that fit, each with its whole value set. */
  lemma {:induction false} FoundIffHit<V>(n: Node<V>, path: Topic, sub: Topic, item: Item<V>)
    ensures item in Found(n, path, sub) <==> Hit(n, path, sub, item)
    decreases |path|
  {
    HashHit(n, path, sub, item);
    if path == [] {
      FoundAtEnd(n, sub, item);
    } else {
      hide Hit; hide Items;
      BranchHit(n, path, sub, SingleWildcard, item);
      BranchHit(n, path, sub, path[0], item);
      if SingleWildcard in n.branches {
        FoundIffHit(n.branches[SingleWildcard], path[1..], sub + [SingleWildcard], item); }
      if path[0] in n.branches { FoundIffHit(n.branches[path[0]], path[1..], sub + [path[0]], item); }
      if Hit(n, path, sub, item) { HitCases(n, path, sub, item); }
    }
  }

  lemma FoundAtEnd<V>(n: Node<V>, sub: Topic, item: Item<V>)
    ensures item in Found(n, [], sub) <==> Hit(n, [], sub, item)
  {
    HashHit(n, [], sub, item);
    LevelsMatchStep([], []);
    if Hit(n, [], sub, item) {
      var g := item.levels[|sub|..];
      LevelsMatchStep(g, []);
      assert item.levels == sub + g;
      if g == [] { assert item.levels == sub && item == Item(sub, n.values); }
    }
    if item in Items(sub, n.values) { assert item.levels[|sub|..] == []; }
  }

  predicate DistinctLevels<V>(items: seq<Item<V>>) {
    forall i, j :: 0 <= i < j < |items| ==> items[i].levels != items[j].levels
  }

  /** The name's own wildcard meets the same wildcard in the filter, so two branches lead there. */
  predicate DoubledAt(f: Topic, t: Topic, i: nat) {
    && i < |f| && i < |t| && f[i] == t[i]
    && (f[i].SingleWildcard? || (f[i].MultiWildcard? && i == |f| - 1 && i == |t| - 1))
  }

  predicate Doubled(f: Topic, t: Topic) { exists i :: 0 <= i < |f| && DoubledAt(f, t, i) }

  lemma DoubledStep(f: Topic, t: Topic)
    requires f != [] && t != []
    ensures Doubled(f, t) <==> DoubledAt(f, t, 0) || Doubled(f[1..], t[1..])
  {
    if i :| 0 < i < |f| && DoubledAt(f, t, i) {
      assert f[1..][i - 1] == f[i] && t[1..][i - 1] == t[i];
      assert DoubledAt(f[1..], t[1..], i - 1);
    }
    if i :| 0 <= i < |f[1..]| && DoubledAt(f[1..], t[1..], i) {
      assert f[1..][i] == f[i + 1] && t[1..][i] == t[i + 1];
      assert DoubledAt(f, t, i + 1);
    }
  }

  /** How often a matching filter is found: twice as often for every wildcard level it shares with the name. */
  function Times(f: Topic, t: Topic): (n: nat)
    ensures n >= 1
    decreases |f|
  {
    if f == [] || t == [] then 1
    else if f == [MultiWildcard] then if t == [MultiWildcard] then 2 else 1
    else (if f[0].SingleWildcard? && t[0].SingleWildcard? then 2 else 1) * Times(f[1..], t[1..])
  }

  lemma {:induction false} OnceUnlessDoubled(f: Topic, t: Topic)
    ensures Times(f, t) == 1 <==> !Doubled(f, t)
    decreases |f|
  {
    if f != [] && t != [] {
      DoubledStep(f, t);
      OnceUnlessDoubled(f[1..], t[1..]);
    }
  }

  /** How many of the items are for this filter. */
  function CountOf<V>(items: seq<Item<V>>, levels: Topic): nat {
    if items == [] then 0
    else
      var k := |items| - 1;
      CountOf(items[..k], levels) + if items[k].levels == levels then 1 else 0
  }

  lemma {:induction false} CountConcat<V>(a: seq<Item<V>>, b: seq<Item<V>>, levels: Topic)
    ensures CountOf(a + b, levels) == CountOf(a, levels) + CountOf(b, levels)
    decreases |b|
  {
    if b == [] {
      assert a + b == a;
    } else {
      var k := |b| - 1;
      CountConcat(a, b[..k], levels);
      assert (a + b)[..|a| + k] == a + b[..k];
    }
  }

  lemma {:induction false} CountNone<V>(items: seq<Item<V>>, levels: Topic)
    ensures CountOf(items, levels) == 0 <==> forall x :: x in items ==> x.levels != levels
    decreases |items|
  {
    if items != [] {
      var k := |items| - 1;
      CountNone(items[..k], levels);
      assert forall x :: x in items <==> x in items[..k] || x == items[k];
    }
  }

  lemma {:induction false} DistinctCounts<V>(items: seq<Item<V>>, levels: Topic)
    requires DistinctLevels(items)
    ensures CountOf(items, levels) <= 1
    decreases |items|
  {
    if items != [] {
      var k := |items| - 1;
      var rest := items[..k];
      DistinctCounts(rest, levels);
      CountNone(rest, items[k].levels);
      forall x | x in rest ensures x.levels != items[k].levels {
        var i :| 0 <= i < |rest| && rest[i] == x;
        assert items[i] == x;
      }
    }
  }

  lemma {:induction false} CountsDistinct<V>(items: seq<Item<V>>)
    requires forall levels :: CountOf(items, levels) <= 1
    ensures DistinctLevels(items)
    decreases |items|
  {
    if items != [] {
      var k := |items| - 1;
      var rest, last := items[..k], items[k];
      forall levels ensures CountOf(rest, levels) <= 1 { assert CountOf(items, levels) >= CountOf(rest, levels); }
      CountsDistinct(rest);
      assert CountOf(items, last.levels) == CountOf(rest, last.levels) + 1;
      CountNone(rest, last.levels);
      forall i, j | 0 <= i < j < |items| ensures items[i].levels != items[j].levels {
        assert items[i] == rest[i] && rest[i] in rest;
        if j < k { assert items[j] == rest[j]; }
      }
    }
  }

  lemma CountItems<V>(levels: Topic, values: set<V>, at: Topic)
    ensures CountOf(Items(levels, values), at) == if values != {} && at == levels then 1 else 0
  {
    if values != {} { assert Items(levels, values)[..0] == []; }
  }

  /** How often the filter `sub + f` is found through the branch `l`. */
  lemma CountBranch<V>(n: Node<V>, path: Topic, sub: Topic, l: Level, f: Topic, items: seq<Item<V>>)
    requires path != [] && items == if l in n.branches then Found(n.branches[l], path[1..], sub + [l]) else []
    requires l in n.branches && f != [] && f[0] == l ==>
      CountOf(items, sub + [l] + f[1..]) == FoundCount(n.branches[l], path[1..], sub + [l], f[1..])
    ensures CountOf(items, sub + f) ==
      if l in n.branches && f != [] && f[0] == l then FoundCount(n.branches[l], path[1..], sub + [l], f[1..]) else 0
  {
    hide Found; hide FoundCount; hide Hit;
    if f != [] && f[0] == l { assert sub + f == sub + [l] + f[1..]; }
    if l in n.branches && !(f != [] && f[0] == l) {
      CountNone(items, sub + f);
      forall x | x in items ensures x.levels != sub + f {
        FoundIffHit(n.branches[l], path[1..], sub + [l], x);
        HitExtends(n.branches[l], path[1..], sub + [l], x);
        assert x.levels[|sub|] == (sub + [l])[|sub|] == l;
        assert f != [] ==> (sub + f)[|sub|] == f[0];
      }
    }
  }

  lemma HitExtends<V>(n: Node<V>, path: Topic, sub: Topic, x: Item<V>)
    requires Hit(n, path, sub, x)
    ensures sub <= x.levels
  {
  }

  function FoundCount<V>(n: Node<V>, path: Topic, sub: Topic, f: Topic): nat {
    if Lookup(n, f) != {} && Fits(sub == [], f, path) then Times(f, path) else 0
  }

  /** Exactly how often every filter is found. */
  lemma {:induction false} FoundTimes<V>(n: Node<V>, path: Topic, sub: Topic, f: Topic)
    ensures CountOf(Found(n, path, sub), sub + f) == FoundCount(n, path, sub, f)
    decreases |path|
  {
    hide CountOf; hide FoundCount; hide Items;
    if path == [] {
      TimesAtEnd(n, sub, f);
    } else {
      if f != [] && f[0] in n.branches && (f[0] == path[0] || f[0].SingleWildcard?) {
        FoundTimes(n.branches[f[0]], path[1..], sub + [f[0]], f[1..]);
      }
      CountParts(n, path, sub, f);
      TimesCombine(n, path, sub, f);
    }
  }

  /** The count of a filter is the sum over `#`, `+` and the exact branch. */
  lemma CountParts<V>(n: Node<V>, path: Topic, sub: Topic, f: Topic)
    requires path != []
    requires f != [] && f[0] in n.branches && (f[0] == path[0] || f[0].SingleWildcard?) ==>
      CountOf(Found(n.branches[f[0]], path[1..], sub + [f[0]]), sub + [f[0]] + f[1..]) ==
      FoundCount(n.branches[f[0]], path[1..], sub + [f[0]], f[1..])
    ensures var l, shielded := path[0], sub == [] && path[0].Metadata?;
      var hash := if !shielded && f == [MultiWildcard] && Child(n, MultiWildcard).values != {} then 1 else 0;
      var plus := if !shielded && f != [] && f[0].SingleWildcard? && SingleWildcard in n.branches
                  then FoundCount(n.branches[SingleWildcard], path[1..], sub + [SingleWildcard], f[1..]) else 0;
      var exact := if f != [] && f[0] == l && l in n.branches
                   then FoundCount(n.branches[l], path[1..], sub + [l], f[1..]) else 0;
      CountOf(Found(n, path, sub), sub + f) == hash + plus + exact
  {
    hide FoundCount; hide Items;
    var l := path[0];
    var shielded := sub == [] && l.Metadata?;
    var hash := Items(sub + [MultiWildcard], Child(n, MultiWildcard).values);
    var plus := if SingleWildcard in n.branches
                then Found(n.branches[SingleWildcard], path[1..], sub + [SingleWildcard]) else [];
    var a, b := if shielded then [] else hash, if shielded then [] else plus;
    var c := if l in n.branches then Found(n.branches[l], path[1..], sub + [l]) else [];
    assert Found(n, path, sub) == a + b + c;
    CountConcat(a, b, sub + f);
    CountConcat(a + b, c, sub + f);
    CountBranch(n, path, sub, SingleWildcard, f, plus);
    CountBranch(n, path, sub, l, f, c);
    CountItems(sub + [MultiWildcard], Child(n, MultiWildcard).values, sub + f);
    assert sub + f == sub + [MultiWildcard] <==> f == [MultiWildcard] by {
      assert (sub + f)[|sub|..] == f && (sub + [MultiWildcard])[|sub|..] == [MultiWildcard];
    }
  }

  /** The three ways to a filter add up. */
  lemma TimesCombine<V>(n: Node<V>, path: Topic, sub: Topic, f: Topic)
    requires path != []
    ensures var l, shielded := path[0], sub == [] && path[0].Metadata?;
      var hash := if !shielded && f == [MultiWildcard] && Child(n, MultiWildcard).values != {} then 1 else 0;
      var plus := if !shielded && f != [] && f[0].SingleWildcard? && SingleWildcard in n.branches
                  then FoundCount(n.branches[SingleWildcard], path[1..], sub + [SingleWildcard], f[1..]) else 0;
      var exact := if f != [] && f[0] == l && l in n.branches
                   then FoundCount(n.branches[l], path[1..], sub + [l], f[1..]) else 0;
      hash + plus + exact == FoundCount(n, path, sub, f)
  {
    LevelsMatchStep(f, path);
    if f == [MultiWildcard] {
      LevelsMatchStep([], path[1..]);
      assert f[1..] == [];
      assert path == [path[0]] + path[1..];
      assert Lookup(n, f) == Child(n, MultiWildcard).values;
    }
  }

  lemma TimesAtEnd<V>(n: Node<V>, sub: Topic, f: Topic)
    ensures CountOf(Found(n, [], sub), sub + f) == FoundCount(n, [], sub, f)
  {
    var own, hash := Items(sub, n.values), Items(sub + [MultiWildcard], Child(n, MultiWildcard).values);
    assert Found(n, [], sub) == own + hash;
    CountConcat(own, hash, sub + f);
    CountItems(sub, n.values, sub + f);
    CountItems(sub + [MultiWildcard], Child(n, MultiWildcard).values, sub + f);
    LevelsMatchStep(f, []);
    hide Found; hide CountOf; hide LevelsMatch;
    if f == [] {
      assert sub + f == sub;
    } else if f == [MultiWildcard] {
      assert f[1..] == [];
      assert Lookup(n, f) == Child(n, MultiWildcard).values;
    } else {
      assert (sub + f)[|sub|..] == f && (sub + [MultiWildcard])[|sub|..] == [MultiWildcard];
    }
  }

  /** No filter is found twice, exactly unless a matching one shares a wildcard level with the name. */
  lemma FoundDistinct<V>(root: Node<V>, name: Topic)
    ensures DistinctLevels(Found(root, name, [])) <==>
      !exists f :: Lookup(root, f) != {} && Matches(f, name) && Doubled(f, name)
  {
    hide Found; hide DistinctLevels; hide Lookup; hide Matches; hide Doubled; hide Times; hide CountOf;
    var items := Found(root, name, []);
    forall f ensures CountOf(items, f) == FoundCount(root, name, [], f)
      ensures Times(f, name) == 1 <==> !Doubled(f, name)
    {
      FoundTimes(root, name, [], f);
      assert [] + f == f;
      OnceUnlessDoubled(f, name);
    }
    if f :| Lookup(root, f) != {} && Matches(f, name) && Doubled(f, name) {
      assert CountOf(items, f) == Times(f, name) > 1;
      if DistinctLevels(items) { DistinctCounts(items, f); }
    } else {
      CountsDistinct(items);
    }
  }

  /** The filter `+` is found twice under the name `+`. */
  lemma DoubledExample<V>(v: V)
    ensures var twice := Item([SingleWildcard], {v});
      Found(InsertAt(Empty(), [SingleWildcard], v), [SingleWildcard], []) == [twice, twice]
  {
    var leaf: Node<V> := Node({v}, map[]);
    var n: Node<V> := Node({}, map[SingleWildcard := leaf]);
    var twice := Item([SingleWildcard], {v});
    assert [SingleWildcard][1..] == [] && [] + [SingleWildcard] == [SingleWildcard];
    assert InsertAt(Empty(), [], v) == leaf && InsertAt(Empty(), [SingleWildcard], v) == n;
    assert Found(leaf, [], [SingleWildcard]) == [twice];
    assert Found(n, [SingleWildcard], []) == [] + [twice] + [twice];
  }

  lemma PlainNotDoubled(f: Topic, t: Topic)
    requires WildcardFree(t)
    ensures !Doubled(f, t)
  {
  }

  // ---------------------------------------------------------------------------------------------
  // The lazy iterator
  // ---------------------------------------------------------------------------------------------

  /** `subPath` is taken when the node has been expanded. */
  datatype Iter<V> = Iter(
    node: Node<V>, path: Topic, subPath: Option<Topic>, currItems: seq<Item<V>>, subIters: seq<Iter<V>>)

  function NewIter<V>(node: Node<V>, path: Topic, subPath: Topic): Iter<V> {
    Iter(node, path, Some(subPath), [], [])
  }

  ghost predicate WellFormed<V>(it: Iter<V>) {
    && (it.subPath.Some? ==> it.currItems == [] && it.subIters == [])
    && (it.subIters != [] ==> it.path != [])
    && (forall i :: 0 <= i < |it.subIters| ==> WellFormed(it.subIters[i]) && it.subIters[i].path == it.path[1..])
  }

  ghost function Reversed<V>(s: seq<Item<V>>): seq<Item<V>> {
    if s == [] then [] else [s[|s| - 1]] + Reversed(s[..|s| - 1])
  }

  /** What is still to come. */
  ghost function Remaining<V>(it: Iter<V>): seq<Item<V>> {
    if it.subPath.Some? then Found(it.node, it.path, it.subPath.value)
    else Reversed(it.currItems) + RemainingAll(it.subIters)
  }

  ghost function RemainingAll<V>(its: seq<Iter<V>>): seq<Item<V>> {
    if its == [] then [] else Remaining(its[0]) + RemainingAll(its[1..])
  }

  /** What expanding a node collects and opens. */
  ghost predicate Prepared<V>(it: Iter<V>, curr: seq<Item<V>>, subs: seq<Iter<V>>)
    requires it.subPath.Some?
  {
    var sub, n := it.subPath.value, it.node;
    var hash := Items(sub + [MultiWildcard], Child(n, MultiWildcard).values);
    if it.path == [] then curr == hash + Items(sub, n.values) && subs == []
    else
      var shielded := sub == [] && it.path[0].Metadata?;
      && curr == (if shielded then [] else hash)
      && subs == (if !shielded && SingleWildcard in n.branches
                  then [NewIter(n.branches[SingleWildcard], it.path[1..], sub + [SingleWildcard])] else [])
               + (if it.path[0] in n.branches
                  then [NewIter(n.branches[it.path[0]], it.path[1..], sub + [it.path[0]])] else [])
  }

  method Expand<V(==)>(it: Iter<V>) returns (curr: seq<Item<V>>, subs: seq<Iter<V>>)
    requires it.subPath.Some?
    ensures Prepared(it, curr, subs)
  {
    var sub := it.subPath.value;
    curr, subs := [], [];
    if it.path == [] {
      if MultiWildcard in it.node.branches {
        var b := it.node.branches[MultiWildcard];
        if b.values != {} { curr := curr + [Item(sub + [MultiWildcard], b.values)]; }
      }
      if it.node.values != {} { curr := curr + [Item(sub, it.node.values)]; }
    } else {
      var l := it.path[0];
      if !(sub == [] && !l.Blank? && l.Metadata?
           && (MultiWildcard in it.node.branches || SingleWildcard in it.node.branches))
      {
        if MultiWildcard in it.node.branches {
          var b := it.node.branches[MultiWildcard];
          if b.values != {} { curr := curr + [Item(sub + [MultiWildcard], b.values)]; }
        }
        if SingleWildcard in it.node.branches {
          subs := subs + [NewIter(it.node.branches[SingleWildcard], it.path[1..], sub + [SingleWildcard])];
        }
      }
      if l in it.node.branches {
        subs := subs + [NewIter(it.node.branches[l], it.path[1..], sub + [l])];
      }
    }
  }

  /** Expand the node: collect its own items and open the sub-iterators. */
  method Prepare<V(==)>(it: Iter<V>) returns (it': Iter<V>)
    requires WellFormed(it) && it.subPath.Some?
    ensures WellFormed(it') && it'.subPath.None? && it'.path == it.path
    ensures Remaining(it') == Remaining(it)
  {
    hide Found; hide Reversed; hide RemainingAll; hide Prepared;
    var curr, subs := Expand(it);
    it' := it.(subPath := None, currItems := curr, subIters := subs);
    PreparedItems(it, curr, subs);
    PreparedIters(it, curr, subs);
  }

  lemma PreparedIters<V>(it: Iter<V>, curr: seq<Item<V>>, subs: seq<Iter<V>>)
    requires it.subPath.Some? && Prepared(it, curr, subs)
    ensures subs != [] ==> it.path != []
    ensures forall i :: 0 <= i < |subs| ==> WellFormed(subs[i]) && subs[i].path == it.path[1..]
  {
  }

  lemma PreparedItems<V>(it: Iter<V>, curr: seq<Item<V>>, subs: seq<Iter<V>>)
    requires it.subPath.Some? && Prepared(it, curr, subs)
    ensures Reversed(curr) + RemainingAll(subs) == Found(it.node, it.path, it.subPath.value)
  {
    hide Reversed; hide RemainingAll; hide Remaining; hide Items;
    var sub, n := it.subPath.value, it.node;
    var hash := Items(sub + [MultiWildcard], Child(n, MultiWildcard).values);
    AtMostOne(sub + [MultiWildcard], Child(n, MultiWildcard).values);
    RemainingUpToTwo(subs);
    if it.path == [] {
      AtMostOne(sub, n.values);
      ReversedPair(hash, Items(sub, n.values));
      assert Items(sub, n.values) + hash + [] == Items(sub, n.values) + hash;
    } else {
      var l := it.path[0];
      ReversedPair([], curr);
      assert [] + curr == curr && curr + [] == curr;
      if SingleWildcard in n.branches { Fresh(n.branches[SingleWildcard], it.path[1..], sub + [SingleWildcard]); }
      if l in n.branches { Fresh(n.branches[l], it.path[1..], sub + [l]); }
      if |subs| == 2 { Associative(curr, Remaining(subs[0]), Remaining(subs[1])); }
    }
  }

  lemma AtMostOne<V>(levels: Topic, values: set<V>)
    ensures |Items(levels, values)| <= 1
  {
  }

  lemma Fresh<V>(node: Node<V>, path: Topic, sub: Topic)
    ensures Remaining(NewIter(node, path, sub)) == Found(node, path, sub)
  {
  }

  lemma ReversedPair<V>(a: seq<Item<V>>, b: seq<Item<V>>)
    requires |a| <= 1 && |b| <= 1
    ensures Reversed(a + b) == b + a
  {
    if b != [] {
      assert (a + b)[..|a|] == a;
    }
    if a != [] { assert a[..0] == []; }
  }

  lemma RemainingUpToTwo<V>(its: seq<Iter<V>>)
    ensures its == [] ==> RemainingAll(its) == []
    ensures |its| == 1 ==> RemainingAll(its) == Remaining(its[0])
    ensures |its| == 2 ==> RemainingAll(its) == Remaining(its[0]) + Remaining(its[1])
  {
    hide Remaining;
    if |its| == 2 {
      RemainingUpToTwo(its[1..]);
    } else if |its| == 1 {
      assert its[1..] == [];
    }
  }

  /** The rest of `s` after its first element, and that element. */
  predicate Yields<V>(s: seq<Item<V>>, r: Option<Item<V>>, s': seq<Item<V>>) {
    if s == [] then r == None && s' == [] else r == Some(s[0]) && s' == s[1..]
  }

  method NextItem<V(==)>(it: Iter<V>) returns (it': Iter<V>, r: Option<Item<V>>)
    requires WellFormed(it) && it.subPath.None?
    ensures WellFormed(it') && it'.subPath.None? && it'.path == it.path
    ensures Yields(Remaining(it), r, Remaining(it'))
    decreases |it.path|, 0
  {
    if it.currItems != [] {
      var k := |it.currItems| - 1;
      it' := it.(currItems := it.currItems[..k]);
      return it', Some(it.currItems[k]);
    }
    it' := it;
    while it'.subIters != []
      invariant WellFormed(it') && it'.subPath.None? && it'.path == it.path && it'.currItems == []
      invariant Remaining(it') == Remaining(it)
      decreases |it'.subIters|
    {
      var sub, item := Next(it'.subIters[0]);
      var rest := it'.subIters[1..];
      if item.Some? {
        ghost var subs := [sub] + rest;
        assert it'.subIters[0 := sub] == subs;
        assert subs[1..] == rest;
        it' := it'.(subIters := it'.subIters[0 := sub]);
        return it', item;
      }
      it' := it'.(subIters := rest);
    }
    return it', None;
  }

  /** One call of the iterator: the next remaining item, or nothing, now and from then on. */
  method Next<V(==)>(it: Iter<V>) returns (it': Iter<V>, r: Option<Item<V>>)
    requires WellFormed(it)
    ensures WellFormed(it') && it'.path == it.path
    ensures Yields(Remaining(it), r, Remaining(it'))
    decreases |it.path|, 1
  {
    if it.subPath.None? {
      it', r := NextItem(it);
    } else {
      it' := Prepare(it);
      it', r := NextItem(it');
    }
  }

  // ---------------------------------------------------------------------------------------------
  // The tree object
  // ---------------------------------------------------------------------------------------------

  class TopicTree<V(==)> {
    var root: Node<V>

    constructor ()
      ensures root == Empty()
    {
      root := Empty();
    }

    /** Store a value under a filter; true when it was not there. */
    method Insert(filter: Topic, value: V) returns (added: bool)
      modifies this
      ensures added <==> value !in Lookup(old(root), filter)
      ensures forall q :: Lookup(root, q) == Lookup(old(root), q) + if q == filter then {value} else {}
      ensures Canonical(old(root)) ==> Canonical(root)
      ensures root == InsertAt(old(root), filter, value)
    {
      added := value !in Lookup(root, filter);
      ghost var was := root;
      root := InsertAt(root, filter, value);
      forall q ensures Lookup(root, q) == Lookup(was, q) + if q == filter then {value} else {} {
        LookupInsert(was, filter, value, q);
      }
      if Canonical(was) { InsertCanonical(was, filter, value); }
    }

    /** Remove a value stored under a filter, pruning nodes that became empty; true when it was there. */
    method Remove(filter: Topic, value: V) returns (removed: bool)
      modifies this
      ensures removed <==> value in Lookup(old(root), filter)
      ensures forall q :: Lookup(root, q) == Lookup(old(root), q) - if q == filter then {value} else {}
      ensures Canonical(old(root)) ==> Canonical(root)
      ensures root == RemoveAt(old(root), filter, value)
    {
      removed := value in Lookup(root, filter);
      ghost var was := root;
      root := RemoveAt(root, filter, value);
      forall q ensures Lookup(root, q) == Lookup(was, q) - if q == filter then {value} else {} {
        LookupRemove(was, filter, value, q);
      }
      if Canonical(was) { RemoveCanonical(was, filter, value); }
    }
  }

  /** `item` is a stored filter that matches the name under section 4.7, with its whole value set. */
  predicate MatchingEntry<V>(root: Node<V>, name: Topic, item: Item<V>) {
    item.values == Lookup(root, item.levels) && item.values != {} && Matches(item.levels, name)
  }

  lemma FoundIsMatching<V>(root: Node<V>, name: Topic, item: Item<V>)
    ensures item in Found(root, name, []) <==> MatchingEntry(root, name, item)
  {
    FoundIffHit(root, name, [], item);
    assert item.levels[0..] == item.levels;
  }

  /**
   Running the iterator to its end yields every matching stored filter and nothing else, each exactly
   as often as `Times` says: once, unless it shares a wildcard level with the name, and a
   wildcard-free name shares none.
   */
  method MatchAll<V(==)>(root: Node<V>, name: Topic) returns (items: seq<Item<V>>)
    ensures forall item :: item in items <==> MatchingEntry(root, name, item)
    ensures forall f :: CountOf(items, f) == if Lookup(root, f) != {} && Matches(f, name) then Times(f, name) else 0
    ensures DistinctLevels(items) <==> !exists f :: Lookup(root, f) != {} && Matches(f, name) && Doubled(f, name)
    ensures WildcardFree(name) ==> DistinctLevels(items)
    ensures items == Found(root, name, [])
  {
    hide Found; hide MatchingEntry; hide DistinctLevels; hide Doubled; hide WildcardFree; hide Matches; hide Lookup;
    hide Times; hide CountOf;
    items := Exhaust(NewIter(root, name, []));
    forall item ensures item in items <==> MatchingEntry(root, name, item) { FoundIsMatching(root, name, item); }
    FoundDistinct(root, name);
    forall f ensures CountOf(items, f) == if Lookup(root, f) != {} && Matches(f, name) then Times(f, name) else 0 {
      FoundTimes(root, name, [], f);
      assert [] + f == f;
    }
    if WildcardFree(name) {
      forall f ensures !Doubled(f, name) { PlainNotDoubled(f, name); }
    }
  }

  /** Call the iterator until it yields nothing. */
  method Exhaust<V(==)>(start: Iter<V>) returns (items: seq<Item<V>>)
    requires WellFormed(start)
    ensures items == Remaining(start)
  {
    hide WellFormed; hide Remaining;
    var it := start;
    items := [];
    while true
      invariant WellFormed(it) && items + Remaining(it) == Remaining(start)
      decreases |Remaining(it)|
    {
      ghost var left := Remaining(it);
      var r;
      it, r := Next(it);
      if r.None? { break; }
      Associative(items, [left[0]], left[1..]);
      assert left == [left[0]] + left[1..];
      items := items + [r.value];
    }
    assert items + [] == items;
  }

  method IsMatch<V(==)>(root: Node<V>, name: Topic) returns (r: bool)
    ensures r <==> exists f :: Lookup(root, f) != {} && Matches(f, name)
  {
    var it, first := Next(NewIter(root, name, []));
    r := first.Some?;
    ghost var all := Found(root, name, []);
    if r {
      assert all[0] in all;
      FoundIsMatching(root, name, all[0]);
    } else {
      forall f | Lookup(root, f) != {} ensures !Matches(f, name) {
        FoundIsMatching(root, name, Item(f, Lookup(root, f)));
      }
    }
  }
}
