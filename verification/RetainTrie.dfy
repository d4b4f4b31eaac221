/**
 The retained-message trie: names stored level by level, queried by filter. Child maps have no
 order, so every walk over one takes its keys in an arbitrary order and results are stated up to
 order. `RetainStorage` adds the message counter and works on text.
 */
module RetainTrie {
  import opened Wrappers
  import opened Topics

  datatype Node<V> = Node(value: Option<V>, branches: map<Level, Node<V>>)

  function Empty<V>(): Node<V> { Node(None, map[]) }

  function Lookup<V>(n: Node<V>, path: Topic): Option<V>
    decreases |path|
  {
    if path == [] then n.value
    else if path[0] in n.branches then Lookup(n.branches[path[0]], path[1..])
    else None
  }

  function Child<V>(n: Node<V>, l: Level): Node<V> {
    if l in n.branches then n.branches[l] else Empty()
  }

  function InsertAt<V>(n: Node<V>, path: Topic, v: V): Node<V>
    decreases |path|
  {
    if path == [] then n.(value := Some(v))
    else n.(branches := n.branches[path[0] := InsertAt(Child(n, path[0]), path[1..], v)])
  }

  predicate Dead<V>(n: Node<V>) { n.value.None? && n.branches == map[] }

  /** Child `l` replaced, or dropped when nothing is left in it. */
  function SetChild<V>(n: Node<V>, l: Level, x: Node<V>): Node<V> {
    if Dead(x) then n.(branches := n.branches - {l}) else n.(branches := n.branches[l := x])
  }

  function RemoveAt<V>(n: Node<V>, path: Topic): Node<V>
    decreases |path|
  {
    if path == [] then n.(value := None)
    else if path[0] !in n.branches then n
    else SetChild(n, path[0], RemoveAt(n.branches[path[0]], path[1..]))
  }

  /** Every node below the root holds a value or leads to one, and nothing lies below `#`. */
  predicate Tidy<V>(n: Node<V>) {
    forall l :: l in n.branches ==>
      !Dead(n.branches[l]) && Tidy(n.branches[l]) && (l.MultiWildcard? ==> n.branches[l].branches == map[])
  }

  /** `#` only at the end, as in every name and filter the parser accepts. */
  predicate HashLast(path: Topic) {
    forall i :: 0 <= i < |path| && path[i].MultiWildcard? ==> i == |path| - 1
  }

  lemma ValidIsHashLast(t: Topic)
    requires Valid(t)
    ensures HashLast(t)
  {
  }

  lemma {:induction false} InsertTidy<V>(n: Node<V>, path: Topic, v: V)
    requires Tidy(n) && HashLast(path)
    ensures Tidy(InsertAt(n, path, v)) && !Dead(InsertAt(n, path, v))
    decreases |path|
  {
    if path != [] {
      assert forall i :: 0 <= i < |path[1..]| ==> path[1..][i] == path[i + 1];
      InsertTidy(Child(n, path[0]), path[1..], v);
      assert path[0] in InsertAt(n, path, v).branches;
    }
  }

  lemma {:induction false} RemoveTidy<V>(n: Node<V>, path: Topic)
    requires Tidy(n)
    ensures Tidy(RemoveAt(n, path))
    decreases |path|
  {
    if path != [] && path[0] in n.branches { RemoveTidy(n.branches[path[0]], path[1..]); }
  }

  lemma EmptyHoldsNothing<V>(path: Topic)
    ensures Lookup(Empty<V>(), path) == None
  {
  }

  lemma LookupSetChild<V>(n: Node<V>, l: Level, x: Node<V>, q: Topic)
    ensures Lookup(SetChild(n, l, x), q) == if q != [] && q[0] == l then Lookup(x, q[1..]) else Lookup(n, q)
  {
    if q != [] && Dead(x) { assert x == Empty(); EmptyHoldsNothing<V>(q[1..]); }
  }

  lemma {:induction false} LookupInsert<V>(n: Node<V>, path: Topic, v: V, q: Topic)
    ensures Lookup(InsertAt(n, path, v), q) == if q == path then Some(v) else Lookup(n, q)
    decreases |path|
  {
    if path != [] && q != [] && q[0] == path[0] {
      LookupInsert(Child(n, path[0]), path[1..], v, q[1..]);
      EmptyHoldsNothing<V>(q[1..]);
      assert q == path <==> q[1..] == path[1..] by { assert q == [q[0]] + q[1..] && path == [path[0]] + path[1..]; }
    }
  }

  lemma {:induction false} LookupRemove<V>(n: Node<V>, path: Topic, q: Topic)
    ensures Lookup(RemoveAt(n, path), q) == if q == path then None else Lookup(n, q)
    decreases |path|
  {
    if path != [] && path[0] in n.branches {
      LookupSetChild(n, path[0], RemoveAt(n.branches[path[0]], path[1..]), q);
      if q != [] && q[0] == path[0] {
        LookupRemove(n.branches[path[0]], path[1..], q[1..]);
        assert q == path <==> q[1..] == path[1..] by { assert q == [q[0]] + q[1..] && path == [path[0]] + path[1..]; }
      }
    }
  }

  // ---------------------------------------------------------------------------------------------
  // Stored names
  // ---------------------------------------------------------------------------------------------

  /** The names that hold a value. */
  function Paths<V>(n: Node<V>): set<Topic> {
    (if n.value.Some? then {[]} else {})
    + set l, p | l in n.branches && p in Paths(n.branches[l]) :: [l] + p
  }

  lemma {:induction false} PathsAreStored<V>(n: Node<V>, p: Topic)
    ensures p in Paths(n) <==> Lookup(n, p).Some?
    decreases |p|
  {
    if p != [] {
      assert p == [p[0]] + p[1..];
      if p in Paths(n) {
        var l, q :| l in n.branches && q in Paths(n.branches[l]) && p == [l] + q;
        assert q == p[1..];
      }
      if p[0] in n.branches { PathsAreStored(n.branches[p[0]], p[1..]); }
    }
  }

  lemma SamePaths<V>(n: Node<V>, m: Node<V>, added: set<Topic>, gone: set<Topic>)
    requires forall p :: Lookup(m, p).Some? <==> (Lookup(n, p).Some? && p !in gone) || p in added
    ensures Paths(m) == (Paths(n) - gone) + added
  {
    hide Paths;
    forall p ensures p in Paths(m) <==> p in (Paths(n) - gone) + added {
      PathsAreStored(n, p);
      PathsAreStored(m, p);
    }
  }

  function Prefixed(l: Level, s: set<Topic>): set<Topic> { set p | p in s :: [l] + p }

  lemma PrefixedMember(l: Level, s: set<Topic>, q: Topic)
    ensures q in Prefixed(l, s) <==> q != [] && q[0] == l && q[1..] in s
  {
    if q != [] && q[0] == l && q[1..] in s { assert q == [l] + q[1..]; }
  }

  lemma {:induction false} PrefixedSize(l: Level, s: set<Topic>)
    ensures |Prefixed(l, s)| == |s|
    decreases |s|
  {
    if s != {} {
      var q :| q in s;
      var rest := s - {q};
      PrefixedSize(l, rest);
      assert Prefixed(l, s) == Prefixed(l, rest) + {[l] + q};
      PrefixedMember(l, rest, [l] + q);
      assert ([l] + q)[1..] == q;
    }
  }

  lemma StoredBelow<V>(n: Node<V>, l: Level, q: Topic)
    ensures q in Prefixed(l, Paths(Child(n, l))) <==> q in Paths(n) && q != [] && q[0] == l
  {
    hide Paths;
    PathsAreStored(n, q);
    PrefixedMember(l, Paths(Child(n, l)), q);
    if q != [] {
      PathsAreStored(Child(n, l), q[1..]);
      EmptyHoldsNothing<V>(q[1..]);
    }
  }

  lemma PathsOfSetChild<V>(n: Node<V>, l: Level, x: Node<V>, q: Topic)
    ensures q in Paths(SetChild(n, l, x)) <==>
      (q in Paths(n) && q !in Prefixed(l, Paths(Child(n, l)))) || q in Prefixed(l, Paths(x))
  {
    hide Paths; hide SetChild;
    PathsAreStored(SetChild(n, l, x), q);
    PathsAreStored(n, q);
    LookupSetChild(n, l, x, q);
    StoredBelow(n, l, q);
    PrefixedMember(l, Paths(x), q);
    if q != [] { PathsAreStored(x, q[1..]); }
  }

  /** How replacing one child changes the number of stored names. */
  lemma SetChildSize<V>(n: Node<V>, l: Level, x: Node<V>)
    ensures |Paths(SetChild(n, l, x))| == |Paths(n)| - |Paths(Child(n, l))| + |Paths(x)|
  {
    hide Paths; hide SetChild; hide Prefixed;
    var before, after, all := Prefixed(l, Paths(Child(n, l))), Prefixed(l, Paths(x)), Paths(n);
    forall q
      ensures q in Paths(SetChild(n, l, x)) <==> q in (all - before) + after
      ensures q in before ==> q in all
      ensures q in after ==> q !in all - before
    {
      PathsOfSetChild(n, l, x, q);
      StoredBelow(n, l, q);
      PrefixedMember(l, Paths(x), q);
    }
    assert Paths(SetChild(n, l, x)) == (all - before) + after;
    assert before <= all && after !! (all - before);
    PrefixedSize(l, Paths(Child(n, l)));
    PrefixedSize(l, Paths(x));
  }

  // ---------------------------------------------------------------------------------------------
  // Matching
  // ---------------------------------------------------------------------------------------------

  /**
   Name `g`, read below a prefix, is reported for filter `path`: it matches, except that `#` alone
   does not report the node it is asked at (its parent did), and `$` is shielded at the root.
   */
  predicate Reported(top: bool, path: Topic, g: Topic) {
    && LevelsMatch(path, g)
    && !(path == [MultiWildcard] && g == [])
    && (top ==> Matches(path, g))
  }

  /** A wildcard of the filter that is itself stored as a level: only that child is then visited. */
  predicate Captures<V>(n: Node<V>, path: Topic) {
    path != [] && (path[0].SingleWildcard? || path[0].MultiWildcard?) && path[0] in n.branches
  }

  /** Name `g` is passed over for filter `path`: on its way another child captured the filter's wildcard. */
  predicate Hidden<V>(n: Node<V>, path: Topic, g: Topic)
    decreases |g|
  {
    g != [] && path != [] &&
    ((Captures(n, path) && g[0] != path[0])
     || (g[0] in n.branches && Hidden(n.branches[g[0]], Tail(path), g[1..])))
  }

  ghost predicate Hit<V>(n: Node<V>, path: Topic, sub: Topic, x: (Topic, V)) {
    && sub <= x.0 && Lookup(n, x.0[|sub|..]) == Some(x.1)
    && Reported(sub == [], path, x.0[|sub|..]) && !Hidden(n, path, x.0[|sub|..])
  }

  predicate DistinctNames<V>(s: seq<(Topic, V)>) {
    forall i, j :: 0 <= i < j < |s| ==> s[i].0 != s[j].0
  }

  /** `found` lists, once each, the reported names that continue with a level in `done`. */
  ghost predicate ExactOn<V(!new)>(n: Node<V>, path: Topic, sub: Topic, done: set<Level>, found: seq<(Topic, V)>) {
    && DistinctNames(found)
    && forall x :: x in found <==> Hit(n, path, sub, x) && |x.0| > |sub| && x.0[|sub|] in done
  }

  /** `found` lists every reported name once. */
  ghost predicate Exact<V(!new)>(n: Node<V>, path: Topic, sub: Topic, found: seq<(Topic, V)>) {
    && DistinctNames(found)
    && forall x :: x in found <==> Hit(n, path, sub, x)
  }

  /** The filter that remains to be asked below a child: `#` stays, any other level is used up. */
  function Tail(path: Topic): Topic
    requires path != []
  {
    if path[0].MultiWildcard? then path else path[1..]
  }

  /** The child itself is reported: the filter continues with `#`, or is `#`. */
  predicate ParentMatch(path: Topic)
    requires path != []
  {
    path[0].MultiWildcard? || (|path| > 1 && path[1].MultiWildcard?)
  }

  lemma TailIsValid(path: Topic)
    requires HashLast(path) && path != []
    ensures HashLast(Tail(path))
    ensures path[0].MultiWildcard? ==> path == [MultiWildcard]
    ensures |path| > 1 && path[1].MultiWildcard? ==> path[1..] == [MultiWildcard]
  {
    assert forall i :: 0 <= i < |path[1..]| ==> path[1..][i] == path[i + 1];
  }

  /** A reported name continues with a child the filter's first level admits. */
  predicate Admits(path: Topic, sub: Topic, k: Level)
    requires path != []
  {
    if path[0].SingleWildcard? || path[0].MultiWildcard? then !(sub == [] && k.Metadata?) else path[0] == k
  }

  lemma ReportedStep(top: bool, path: Topic, g: Topic)
    requires HashLast(path) && path != [] && g != []
    ensures Reported(top, path, g) <==>
      && Admits(path, if top then [] else [Blank], g[0])
      && ((g[1..] == [] && ParentMatch(path)) || Reported(false, Tail(path), g[1..]))
  {
    TailIsValid(path);
    LevelsMatchStep(path, g);
    LevelsMatchStep(Tail(path), g[1..]);
  }

  lemma NothingAtNode(top: bool, path: Topic)
    requires path != []
    ensures !Reported(top, path, [])
  {
    LevelsMatchStep(path, []);
  }

  lemma BelowPrefix<V>(n: Node<V>, sub: Topic, k: Level, x: (Topic, V))
    ensures sub + [k] <= x.0 <==> sub <= x.0 && |x.0| > |sub| && x.0[|sub|] == k
    ensures sub + [k] <= x.0 ==>
      && x.0[|sub|..][0] == k
      && x.0[|sub|..][1..] == x.0[|sub + [k]|..]
      && Lookup(n, x.0[|sub|..]) == if k in n.branches then Lookup(n.branches[k], x.0[|sub + [k]|..]) else None
  {
  }

  /** Hits below one child: the child itself when it is a parent match, and the hits inside it. */
  lemma ChildHits<V>(n: Node<V>, path: Topic, sub: Topic, k: Level, x: (Topic, V))
    requires HashLast(path) && path != [] && k in n.branches && Admits(path, sub, k)
    requires Captures(n, path) ==> k == path[0]
    ensures Hit(n, path, sub, x) && sub + [k] <= x.0 <==>
      || (ParentMatch(path) && x.0 == sub + [k] && n.branches[k].value == Some(x.1))
      || Hit(n.branches[k], Tail(path), sub + [k], x)
  {
    BelowPrefix(n, sub, k, x);
    if sub + [k] <= x.0 {
      var g := x.0[|sub|..];
      ReportedStep(sub == [], path, g);
      assert g[1..] == [] <==> x.0 == sub + [k];
      assert Hidden(n, path, g) <==> Hidden(n.branches[k], Tail(path), g[1..]);
    }
  }

  lemma ParentIsNotInside<V>(n: Node<V>, path: Topic, sub: Topic, k: Level, x: (Topic, V))
    requires path != [] && HashLast(path) && ParentMatch(path) && x.0 == sub + [k]
    ensures !Hit(n, Tail(path), sub + [k], x)
  {
    TailIsValid(path);
    assert x.0[|sub + [k]|..] == [];
  }

  /** Append what one child contributes. */
  method MatchChild<V(!new)>(n: Node<V>, path: Topic, sub: Topic, k: Level, out: seq<(Topic, V)>)
    returns (out': seq<(Topic, V)>)
    requires Tidy(n) && HashLast(path) && path != [] && k in n.branches && Admits(path, sub, k)
    requires Captures(n, path) ==> k == path[0]
    ensures out <= out' && ExactOn(n, path, sub, {k}, out'[|out|..])
    decreases n, 0
  {
    hide Hit; hide Exact; hide ExactOn; hide HashLast;
    var child := n.branches[k];
    TailIsValid(path);
    out' := out;
    ghost var own: seq<(Topic, V)> := [];
    if ParentMatch(path) && child.value.Some? {
      own := [(sub + [k], child.value.value)];
      out' := out' + [(sub + [k], child.value.value)];
    }
    ghost var mid := out';
    out' := MatchFrom(child, Tail(path), sub + [k], out');
    ghost var inner := out'[|mid|..];
    assert out'[|out|..] == own + inner;
    ChildExact(n, path, sub, k, own, inner);
  }

  lemma ChildExact<V(!new)>(
    n: Node<V>, path: Topic, sub: Topic, k: Level, own: seq<(Topic, V)>, inner: seq<(Topic, V)>)
    requires HashLast(path) && path != [] && k in n.branches && Admits(path, sub, k)
    requires Captures(n, path) ==> k == path[0]
    requires var v := n.branches[k].value;
      own == if ParentMatch(path) && v.Some? then [(sub + [k], v.value)] else []
    requires Exact(n.branches[k], Tail(path), sub + [k], inner)
    ensures ExactOn(n, path, sub, {k}, own + inner)
  {
    hide Hit; hide HashLast;
    var child := n.branches[k];
    forall x ensures x in own + inner <==> Hit(n, path, sub, x) && |x.0| > |sub| && x.0[|sub|] in {k} {
      ChildHits(n, path, sub, k, x);
      BelowPrefix(n, sub, k, x);
      HitIsBelow(n, path, sub, x);
    }
    forall i, j | 0 <= i < j < |own + inner| ensures (own + inner)[i].0 != (own + inner)[j].0 {
      if i < |own| {
        var y := inner[j - |own|];
        assert y in inner;
        if y.0 == sub + [k] { ParentIsNotInside(child, path, sub, k, y); }
      }
    }
  }

  lemma HitIsBelow<V>(n: Node<V>, path: Topic, sub: Topic, x: (Topic, V))
    ensures Hit(n, path, sub, x) ==> sub <= x.0
  {
  }

  lemma Joined<V(!new)>(
    n: Node<V>, path: Topic, sub: Topic, done: set<Level>, k: Level, a: seq<(Topic, V)>, b: seq<(Topic, V)>)
    requires ExactOn(n, path, sub, done, a) && ExactOn(n, path, sub, {k}, b) && k !in done
    ensures ExactOn(n, path, sub, done + {k}, a + b)
  {
    forall i, j | 0 <= i < j < |a + b| ensures (a + b)[i].0 != (a + b)[j].0 {
      if i < |a| <= j { assert a[i] in a && b[j - |a|] in b; }
    }
  }

  lemma Skipped<V(!new)>(n: Node<V>, path: Topic, sub: Topic, done: set<Level>, k: Level, a: seq<(Topic, V)>)
    requires ExactOn(n, path, sub, done, a) && Tidy(n) && HashLast(path) && path != []
    requires k in n.branches && !Admits(path, sub, k)
    ensures ExactOn(n, path, sub, done + {k}, a)
  {
    forall x | Hit(n, path, sub, x) && |x.0| > |sub| ensures x.0[|sub|] != k {
      ReportedStep(sub == [], path, x.0[|sub|..]);
    }
  }

  /** A stored `#` asked for by `#`: its own value and nothing else, and nothing lies below it. */
  method MatchHash<V(!new)>(n: Node<V>, sub: Topic, out: seq<(Topic, V)>) returns (out': seq<(Topic, V)>)
    requires Tidy(n) && MultiWildcard in n.branches
    ensures out <= out' && ExactOn(n, [MultiWildcard], sub, {MultiWildcard}, out'[|out|..])
    decreases n, 0
  {
    var child := n.branches[MultiWildcard];
    out' := MatchFrom(child, [], sub + [MultiWildcard], out);
    ghost var found := out'[|out|..];
    forall x ensures x in found <==>
      Hit(n, [MultiWildcard], sub, x) && |x.0| > |sub| && x.0[|sub|] in {MultiWildcard}
    {
      HashHits(n, sub, x);
    }
  }

  lemma HashHits<V(!new)>(n: Node<V>, sub: Topic, x: (Topic, V))
    requires Tidy(n) && MultiWildcard in n.branches
    ensures Hit(n.branches[MultiWildcard], [], sub + [MultiWildcard], x) <==>
      Hit(n, [MultiWildcard], sub, x) && |x.0| > |sub| && x.0[|sub|] == MultiWildcard
  {
    var child := n.branches[MultiWildcard];
    BelowPrefix(n, sub, MultiWildcard, x);
    if sub + [MultiWildcard] <= x.0 {
      var g := x.0[|sub|..];
      assert g == [MultiWildcard] + g[1..];
      LevelsMatchStep([MultiWildcard], g);
      LevelsMatchStep([], g[1..]);
      assert !Hidden(child, [], g[1..]);
      assert !Hidden(child, [MultiWildcard], []);
    }
  }

  /** A wildcard level: visit every child it admits, in any order. */
  method MatchChildren<V(!new)>(n: Node<V>, path: Topic, sub: Topic, out: seq<(Topic, V)>)
    returns (out': seq<(Topic, V)>)
    requires Tidy(n) && HashLast(path) && path != [] && (path[0].SingleWildcard? || path[0].MultiWildcard?)
    requires !Captures(n, path)
    ensures out <= out' && ExactOn(n, path, sub, n.branches.Keys, out'[|out|..])
    decreases n, 1
  {
    hide ExactOn; hide Tidy; hide HashLast;
    out' := out;
    var todo := n.branches.Keys;
    NothingYet(n, path, sub, out'[|out|..]);
    while todo != {}
      invariant todo <= n.branches.Keys
      invariant out <= out' && ExactOn(n, path, sub, n.branches.Keys - todo, out'[|out|..])
      decreases |todo|
    {
      var k :| k in todo;
      ghost var done := n.branches.Keys - todo;
      ghost var before := out';
      if !(sub == [] && !k.Blank? && k.Metadata?) {
        out' := MatchChild(n, path, sub, k, out');
        Joined(n, path, sub, done, k, before[|out|..], out'[|before|..]);
        assert out'[|out|..] == before[|out|..] + out'[|before|..];
      } else {
        Skipped(n, path, sub, done, k, out'[|out|..]);
      }
      todo := todo - {k};
      assert n.branches.Keys - todo == done + {k};
    }
    assert n.branches.Keys - todo == n.branches.Keys;
  }

  lemma NothingYet<V(!new)>(n: Node<V>, path: Topic, sub: Topic, found: seq<(Topic, V)>)
    requires found == []
    ensures ExactOn(n, path, sub, {}, found)
    ensures forall all: set<Level> :: ExactOn(n, path, sub, all - all, found)
  {
    forall all: set<Level> ensures ExactOn(n, path, sub, all - all, found) { assert all - all == {}; }
  }

  /** Append the reported names below a node. */
  method MatchFrom<V(!new)>(n: Node<V>, path: Topic, sub: Topic, out: seq<(Topic, V)>) returns (out': seq<(Topic, V)>)
    requires Tidy(n) && HashLast(path)
    ensures out <= out' && Exact(n, path, sub, out'[|out|..])
    decreases n, 2
  {
    out' := out;
    if path == [] {
      if n.value.Some? { out' := out + [(sub, n.value.value)]; }
      AtLeafFilter(n, sub, out'[|out|..]);
    } else if path[0] in n.branches {
      if path[0].MultiWildcard? {
        TailIsValid(path);
        out' := MatchHash(n, sub, out);
      } else {
        out' := MatchChild(n, path, sub, path[0], out);
      }
      AllChildren(n, path, sub, {path[0]}, out'[|out|..]);
    } else if path[0].SingleWildcard? || path[0].MultiWildcard? {
      out' := MatchChildren(n, path, sub, out);
      AllChildren(n, path, sub, n.branches.Keys, out'[|out|..]);
    } else {
      NothingYet(n, path, sub, out'[|out|..]);
      AllChildren(n, path, sub, {}, out'[|out|..]);
    }
  }

  lemma AtLeafFilter<V(!new)>(n: Node<V>, sub: Topic, found: seq<(Topic, V)>)
    requires found == if n.value.Some? then [(sub, n.value.value)] else []
    ensures Exact(n, [], sub, found)
  {
    forall x ensures x in found <==> Hit(n, [], sub, x) {
      if sub <= x.0 {
        LevelsMatchStep([], x.0[|sub|..]);
        assert x.0 == sub + x.0[|sub|..];
        if x.0[|sub|..] == [] { assert x.0 == sub; }
        if x.0 == sub { assert x.0[|sub|..] == []; }
      }
    }
  }

  lemma AllChildren<V(!new)>(n: Node<V>, path: Topic, sub: Topic, done: set<Level>, found: seq<(Topic, V)>)
    requires path != [] && Tidy(n) && HashLast(path) && ExactOn(n, path, sub, done, found)
    requires forall k :: k in n.branches && Admits(path, sub, k) ==> k in done || (Captures(n, path) && k != path[0])
    ensures Exact(n, path, sub, found)
  {
    forall x | Hit(n, path, sub, x) ensures |x.0| > |sub| && x.0[|sub|] in done {
      var g := x.0[|sub|..];
      NothingAtNode(sub == [], path);
      assert g != [];
      ReportedStep(sub == [], path, g);
    }
  }

  /** The answer to a filter: each stored name that matches under section 4.7 and is not hidden, once. */
  ghost predicate MatchResult<V(!new)>(root: Node<V>, filter: Topic, found: seq<(Topic, V)>) {
    && DistinctNames(found)
    && forall x :: x in found <==>
         Lookup(root, x.0) == Some(x.1) && Matches(filter, x.0) && !Hidden(root, filter, x.0)
  }

  method MatchNames<V(!new)>(root: Node<V>, filter: Topic) returns (found: seq<(Topic, V)>)
    requires Tidy(root) && root.value.None? && Valid(filter)
    ensures MatchResult(root, filter, found)
  {
    hide Hidden;
    found := MatchFrom(root, filter, [], []);
    assert found[0..] == found;
    forall x ensures Hit(root, filter, [], x) <==>
      Lookup(root, x.0) == Some(x.1) && Matches(filter, x.0) && !Hidden(root, filter, x.0)
    {
      assert x.0[0..] == x.0;
    }
  }

  /** A live node below which something is stored. */
  lemma {:induction false} LiveHolds<V>(n: Node<V>) returns (path: Topic)
    requires Tidy(n) && !Dead(n)
    ensures Lookup(n, path).Some?
  {
    if n.value.Some? {
      path := [];
    } else {
      var l :| l in n.branches;
      var rest := LiveHolds(n.branches[l]);
      path := [l] + rest;
      assert path[1..] == rest;
    }
  }

  /** Level `l` is the wildcard the filter has at position `i`; a final `#` stands for every later position too. */
  predicate WildcardAt(filter: Topic, i: nat, l: Level) {
    if i < |filter| then l == filter[i] && (l.SingleWildcard? || l.MultiWildcard?)
    else l.MultiWildcard? && filter != [] && filter[|filter| - 1].MultiWildcard?
  }

  /** Stored name `p` goes the way of `g` up to position `i`, and there has the filter's own wildcard instead. */
  predicate Diverts<V>(n: Node<V>, filter: Topic, g: Topic, p: Topic, i: nat) {
    Lookup(n, p).Some? && i < |p| && i < |g| && p[..i] == g[..i] && p[i] != g[i] && WildcardAt(filter, i, p[i])
  }

  lemma WildcardAtTail(filter: Topic, i: nat, l: Level)
    requires HashLast(filter) && filter != []
    ensures WildcardAt(filter, i + 1, l) <==> WildcardAt(Tail(filter), i, l)
  {
    TailIsValid(filter);
  }

  lemma DivertsStep<V>(n: Node<V>, filter: Topic, g: Topic, q: Topic, j: nat)
    requires HashLast(filter) && filter != [] && g != [] && g[0] in n.branches
    ensures Diverts(n.branches[g[0]], Tail(filter), g[1..], q, j) <==> Diverts(n, filter, g, [g[0]] + q, j + 1)
  {
    var p := [g[0]] + q;
    assert p[1..] == q;
    if j < |q| && j + 1 < |g| {
      WildcardAtTail(filter, j, q[j]);
      assert p[..j + 1] == [g[0]] + q[..j] && g[..j + 1] == [g[0]] + g[1..][..j];
      assert p[..j + 1][1..] == q[..j] && g[..j + 1][1..] == g[1..][..j];
    }
  }

  /** A hidden name has a stored companion that diverts the filter from it. */
  lemma {:induction false} HiddenHasDiverter<V>(n: Node<V>, filter: Topic, g: Topic) returns (p: Topic, i: nat)
    requires Tidy(n) && HashLast(filter) && Hidden(n, filter, g)
    ensures Diverts(n, filter, g, p, i)
    decreases |g|
  {
    if Captures(n, filter) && g[0] != filter[0] {
      var rest := LiveHolds(n.branches[filter[0]]);
      p, i := [filter[0]] + rest, 0;
      assert p[1..] == rest;
    } else {
      hide Diverts;
      TailIsValid(filter);
      var q, j := HiddenHasDiverter(n.branches[g[0]], Tail(filter), g[1..]);
      DivertsStep(n, filter, g, q, j);
      p, i := [g[0]] + q, j + 1;
    }
  }

  lemma {:induction false} DivertedIsHidden<V>(n: Node<V>, filter: Topic, g: Topic, p: Topic, i: nat)
    requires HashLast(filter) && Diverts(n, filter, g, p, i)
    ensures Hidden(n, filter, g)
    decreases |g|
  {
    assert filter != [] && p[0] in n.branches;
    if i > 0 {
      assert p[0] == p[..i][0] == g[..i][0] == g[0];
      assert p == [g[0]] + p[1..];
      DivertsStep(n, filter, g, p[1..], i - 1);
      TailIsValid(filter);
      DivertedIsHidden(n.branches[g[0]], Tail(filter), g[1..], p[1..], i - 1);
    }
  }

  /** A name is hidden exactly when some stored name leaves its way at a position with the filter's wildcard there. */
  lemma HiddenIff<V>(n: Node<V>, filter: Topic, g: Topic)
    requires Tidy(n) && HashLast(filter)
    ensures Hidden(n, filter, g) <==> exists p, i :: Diverts(n, filter, g, p, i)
  {
    hide Hidden; hide Diverts;
    if Hidden(n, filter, g) { var p, i := HiddenHasDiverter(n, filter, g); }
    if p, i :| Diverts(n, filter, g, p, i) { DivertedIsHidden(n, filter, g, p, i); }
  }

  /** Stored names without wildcards hide nothing. */
  lemma PlainHidesNothing<V>(n: Node<V>, path: Topic, g: Topic)
    requires Tidy(n) && HashLast(path) && forall p :: Lookup(n, p).Some? ==> WildcardFree(p)
    ensures !Hidden(n, path, g)
  {
    hide Hidden;
    if Hidden(n, path, g) {
      var p, i := HiddenHasDiverter(n, path, g);
      assert false;
    }
  }

  /** A message retained under the name `a/+` hides the one under `a/b` from the filter `a/+`. */
  lemma HiddenExample()
    ensures var a, b := Normal("a"), Normal("b");
      var n := InsertAt(InsertAt(Empty(), [a, SingleWildcard], 1), [a, b], 2);
      && Lookup(n, [a, b]) == Some(2) && Matches([a, SingleWildcard], [a, b])
      && Hidden(n, [a, SingleWildcard], [a, b])
  {
    var a, b := Normal("a"), Normal("b");
    var m := InsertAt(Empty(), [a, SingleWildcard], 1);
    var n := InsertAt(m, [a, b], 2);
    LookupInsert(m, [a, b], 2, [a, b]);
    assert [a, SingleWildcard][1..] == [SingleWildcard] && [a, b][1..] == [b];
    assert Child(m, a) == InsertAt(Empty(), [SingleWildcard], 1);
    assert Child(n, a) == InsertAt(Child(m, a), [b], 2);
    assert SingleWildcard in Child(m, a).branches && SingleWildcard in n.branches[a].branches;
    assert Hidden(n.branches[a], [SingleWildcard], [b]);
  }
}
