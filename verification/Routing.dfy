/**
 The router: a trie of subscribed filters joined, through their printed text, to a map from filter
 text to subscribers. A publish is answered from the trie; the reference is a linear scan of the
 map with the section 4.7 relation.
 */
module Routing {
  import opened Wrappers
  import opened Topics
  import opened Delivery
  import opened TopicTrie
  import Sequences
  import opened Sets

  type Subscribers = map<ClientId, (Id, Options)>
  type Relations = map<string, Subscribers>

  function AddRelation(rels: Relations, f: string, id: Id, opts: Options): Relations {
    rels[f := (if f in rels then rels[f] else map[])[id.client := (id, opts)]]
  }

  /** What is stored for a client under a filter. */
  function EntryOf(rels: Relations, f: string, c: ClientId): Option<(Id, Options)> {
    if f in rels && c in rels[f] then Some(rels[f][c]) else None
  }

  predicate Removable(rels: Relations, f: string, id: Id) {
    f in rels && id.client in rels[f] && rels[f][id.client].0 == id
  }

  function RemoveRelation(rels: Relations, f: string, id: Id): Relations {
    if !Removable(rels, f, id) then rels
    else
      var left := rels[f] - {id.client};
      if left == map[] then rels - {f} else rels[f := left]
  }

  /** All (filter, client) pairs. */
  function Pairs(rels: Relations): set<(string, ClientId)> {
    set f, c | f in rels && c in rels[f] :: (f, c)
  }

  /** Filters parse, entries are never empty, and subscribers are filed under their own client id. */
  predicate WellKept(rels: Relations) {
    forall f :: f in rels ==>
      Parse(f).Ok? && rels[f] != map[] && forall c :: c in rels[f] ==> rels[f][c].0.client == c
  }

  /** The trie holds exactly the parsed keys of the map. */
  ghost predicate Indexed(root: Node<()>, rels: Relations) {
    forall p :: Lookup(root, p) != {} <==> Parse(Print(p)) == Ok(p) && Print(p) in rels
  }

  lemma PairsMember(rels: Relations, f: string, c: ClientId)
    ensures (f, c) in Pairs(rels) <==> f in rels && c in rels[f]
  {
  }

  lemma KeysAdded(rels: Relations, f: string, id: Id, opts: Options)
    ensures AddRelation(rels, f, id, opts).Keys == rels.Keys + {f}
  {
  }

  lemma PairsAdded(rels: Relations, f: string, id: Id, opts: Options)
    ensures Pairs(AddRelation(rels, f, id, opts)) == Pairs(rels) + {(f, id.client)}
  {
    var after: Relations := AddRelation(rels, f, id, opts);
    forall x ensures x in Pairs(after) <==> x in Pairs(rels) + {(f, id.client)} {
      assert x.0 in after && x.1 in after[x.0] <==> (x.0 in rels && x.1 in rels[x.0]) || x == (f, id.client);
    }
  }

  lemma PairsRemoved(rels: Relations, f: string, id: Id)
    requires Removable(rels, f, id)
    ensures Pairs(RemoveRelation(rels, f, id)) == Pairs(rels) - {(f, id.client)}
  {
    var after := RemoveRelation(rels, f, id);
    forall x ensures x in Pairs(after) <==> x in Pairs(rels) - {(f, id.client)} {
      assert x.0 in after && x.1 in after[x.0] <==> (x.0 in rels && x.1 in rels[x.0]) && x != (f, id.client) by {
        var left := rels[f] - {id.client};
        assert left == map[] ==> forall c :: c in rels[f] ==> c == id.client || c in left;
      }
    }
  }

  // ---------------------------------------------------------------------------------------------
  // The linear scan
  // ---------------------------------------------------------------------------------------------

  /** No Local: a v5 subscription that asked not to see its own publishes. */
  predicate NoLocal(publisher: Id, s: (Id, Options)) {
    s.1.V5? && s.1.noLocal && publisher == s.0
  }

  /** Subscriptions under the given filters that may see the publish. */
  function ConsideredOn(rels: Relations, publisher: Id, filters: set<string>): set<Sub> {
    set f, c | f in filters && f in rels && c in rels[f] && !NoLocal(publisher, rels[f][c])
      :: Sub(f, c, rels[f][c].0, rels[f][c].1)
  }

  /** The subscription is in the map and may see the publish. */
  predicate MaySee(rels: Relations, publisher: Id, s: Sub) {
    && s.filter in rels && s.client in rels[s.filter]
    && !NoLocal(publisher, rels[s.filter][s.client])
    && (s.id, s.opts) == rels[s.filter][s.client]
  }

  lemma ConsideredMember(rels: Relations, publisher: Id, filters: set<string>, s: Sub)
    ensures s in ConsideredOn(rels, publisher, filters) <==> s.filter in filters && MaySee(rels, publisher, s)
  {
    if s.filter in rels && s.client in rels[s.filter] {
      var x := rels[s.filter][s.client];
      assert (s.id, s.opts) == x ==> s == Sub(s.filter, s.client, x.0, x.1);
    }
  }

  /** The filters a linear scan of the map finds for a topic name. */
  function Scan(rels: Relations, name: string): set<string> {
    set f | f in rels && SpecMatches(Split(f), Split(name))
  }

  ghost predicate Enumerates(order: seq<Sub>, members: set<Sub>) {
    Sequences.NoRepeats(order) && forall s :: s in order <==> s in members
  }

  /** Picks a member of a shared group, or nobody. */
  type Choice = (Group, seq<Sub>) -> Option<nat>

  ghost predicate ChoiceOk(choice: Choice) {
    forall g, members :: choice(g, members).Some? ==> choice(g, members).value < |members|
  }

  /** A shared group gets what `choice` picks from its members, listed in some order. */
  ghost predicate Served(choice: Choice, g: Group, members: set<Sub>, sel: seq<Sub>) {
    members == {} ||
    exists order :: Enumerates(order, members) && PickedFrom(choice, g, order, sel)
  }

  ghost predicate PickedFrom(choice: Choice, g: Group, order: seq<Sub>, sel: seq<Sub>) {
    forall i :: 0 <= i < |order| ==> (order[i] in sel <==> choice(g, order) == Some(i))
  }

  function MembersOf(considered: set<Sub>, f: string, g: Group): set<Sub> {
    set s | s in considered && s.filter == f && s.opts.sharedGroup == Some(g)
  }

  /** Every ordinary subscription, one pick per shared group, nothing else, nothing twice. */
  ghost predicate Selection(considered: set<Sub>, choice: Choice, sel: seq<Sub>) {
    && Sequences.NoRepeats(sel)
    && (forall s :: s in sel ==> s in considered)
    && (forall s :: s in considered && s.opts.sharedGroup.None? ==> s in sel)
    && (forall f, g :: Served(choice, g, MembersOf(considered, f, g), sel))
  }

  lemma NothingSelected(choice: Choice)
    ensures Selection({}, choice, [])
  {
    forall f, g ensures Served(choice, g, MembersOf({}, f, g), []) {
      assert MembersOf({}, f, g) == {};
    }
  }

  lemma ServedElsewhere(choice: Choice, g: Group, members: set<Sub>, sel: seq<Sub>, sel': seq<Sub>)
    requires Served(choice, g, members, sel)
    requires forall s :: s in members ==> (s in sel <==> s in sel')
    ensures Served(choice, g, members, sel')
  {
    if members != {} {
      var order :| Enumerates(order, members) && PickedFrom(choice, g, order, sel);
      forall i | 0 <= i < |order| ensures order[i] in sel' <==> choice(g, order) == Some(i) {
        assert order[i] in order;
      }
      assert Enumerates(order, members) && PickedFrom(choice, g, order, sel');
    }
  }

  /** Selections for disjoint sets of filters combine. */
  lemma SelectionsJoin(a: set<Sub>, b: set<Sub>, choice: Choice, x: seq<Sub>, y: seq<Sub>)
    requires Selection(a, choice, x) && Selection(b, choice, y)
    requires forall s, t :: s in a && t in b ==> s.filter != t.filter
    ensures Selection(a + b, choice, x + y)
  {
    forall i, j | 0 <= i < j < |x + y| ensures (x + y)[i] != (x + y)[j] {
      if i < |x| <= j { assert x[i] in x && y[j - |x|] in y; }
    }
    forall f, g ensures Served(choice, g, MembersOf(a + b, f, g), x + y) {
      var ma, mb, m := MembersOf(a, f, g), MembersOf(b, f, g), MembersOf(a + b, f, g);
      assert m == ma + mb;
      if ma == {} {
        assert m == mb;
        assert forall s :: s in m ==> s in b && s !in x;
        ServedElsewhere(choice, g, mb, y, x + y);
      } else {
        var s0 :| s0 in ma;
        assert forall t :: t in mb ==> s0.filter == t.filter && t in b;
        assert mb == {};
        assert m == ma;
        assert forall s :: s in m ==> s in a && s !in y;
        ServedElsewhere(choice, g, ma, x, x + y);
      }
    }
  }

  // ---------------------------------------------------------------------------------------------
  // Answering a publish
  // ---------------------------------------------------------------------------------------------

  function GroupOf(considered: set<Sub>, g: Group): set<Sub> {
    set s | s in considered && s.opts.sharedGroup == Some(g)
  }

  /** `direct` lists the ordinary subscriptions, `groups` the members of each shared group. */
  ghost predicate Sorted(considered: set<Sub>, direct: seq<Sub>, groups: map<Group, seq<Sub>>) {
    && Sequences.NoRepeats(direct)
    && (forall s :: s in direct <==> s in considered && s.opts.sharedGroup.None?)
    && (forall g :: g !in groups ==> GroupOf(considered, g) == {})
    && (forall g :: g in groups ==> Enumerates(groups[g], GroupOf(considered, g)))
  }

  lemma GroupGrows(considered: set<Sub>, s: Sub, g: Group)
    ensures GroupOf(considered + {s}, g) == GroupOf(considered, g) + if s.opts.sharedGroup == Some(g) then {s} else {}
  {
  }

  lemma SortedDirect(considered: set<Sub>, direct: seq<Sub>, groups: map<Group, seq<Sub>>, s: Sub)
    requires Sorted(considered, direct, groups) && s !in considered && s.opts.sharedGroup.None?
    ensures Sorted(considered + {s}, direct + [s], groups)
  {
    hide GroupOf; hide Enumerates;
    forall g ensures GroupOf(considered + {s}, g) == GroupOf(considered, g) { GroupGrows(considered, s, g); }
  }

  lemma EnumeratesMore(members: seq<Sub>, of: set<Sub>, s: Sub)
    requires Enumerates(members, of) && s !in of
    ensures Enumerates(members + [s], of + {s})
  {
  }

  lemma NobodyYet(of: set<Sub>)
    requires of == {}
    ensures Enumerates([], of)
  {
  }

  lemma SortedInGroup(considered: set<Sub>, direct: seq<Sub>, groups: map<Group, seq<Sub>>, s: Sub)
    requires Sorted(considered, direct, groups) && s !in considered && s.opts.sharedGroup.Some?
    ensures var g := s.opts.sharedGroup.value;
      Sorted(considered + {s}, direct, groups[g := (if g in groups then groups[g] else []) + [s]])
  {
    var g := s.opts.sharedGroup.value;
    assert s !in GroupOf(considered, g);
    hide GroupOf; hide Enumerates;
    if g !in groups { NobodyYet(GroupOf(considered, g)); }
    EnumeratesMore(if g in groups then groups[g] else [], GroupOf(considered, g), s);
    forall h ensures GroupOf(considered + {s}, h) == GroupOf(considered, h) + if h == g then {s} else {} {
      GroupGrows(considered, s, h);
    }
  }

  /** Walk one filter's subscribers, in any order. */
  method SortSubscribers(publisher: Id, f: string, subs: Subscribers)
    returns (direct: seq<Sub>, groups: map<Group, seq<Sub>>)
    ensures Sorted(ConsideredOn(map[f := subs], publisher, {f}), direct, groups)
  {
    direct, groups := [], map[];
    var todo := subs.Keys;
    ghost var seen: set<Sub> := {};
    while todo != {}
      invariant todo <= subs.Keys
      invariant Sorted(seen, direct, groups)
      invariant forall s :: s in seen <==>
        s.filter == f && s.client in subs && s.client !in todo && !NoLocal(publisher, subs[s.client])
        && s.id == subs[s.client].0 && s.opts == subs[s.client].1
      decreases |todo|
    {
      var c :| c in todo;
      var s := Sub(f, c, subs[c].0, subs[c].1);
      todo := todo - {c};
      if !NoLocal(publisher, subs[c]) {
        if s.opts.sharedGroup.Some? {
          SortedInGroup(seen, direct, groups, s);
          var g := s.opts.sharedGroup.value;
          groups := groups[g := (if g in groups then groups[g] else []) + [s]];
        } else {
          SortedDirect(seen, direct, groups, s);
          direct := direct + [s];
        }
        seen := seen + {s};
      }
    }
    forall s ensures s in seen <==> s in ConsideredOn(map[f := subs], publisher, {f}) {
      ConsideredMember(map[f := subs], publisher, {f}, s);
    }
    assert seen == ConsideredOn(map[f := subs], publisher, {f});
  }

  /** The picks made so far, for the groups in `done`. */
  ghost predicate Picks(choice: Choice, groups: map<Group, seq<Sub>>, done: set<Group>, picks: seq<Sub>) {
    && Sequences.NoRepeats(picks)
    && forall s :: s in picks <==>
         s.opts.sharedGroup.Some? && s.opts.sharedGroup.value in done && s.opts.sharedGroup.value in groups
         && var members := groups[s.opts.sharedGroup.value];
            var c := choice(s.opts.sharedGroup.value, members);
            c.Some? && c.value < |members| && members[c.value] == s
  }

  /** Ask every shared group for its pick, groups in any order. */
  method PickFromGroups(choice: Choice, groups: map<Group, seq<Sub>>, ghost considered: set<Sub>)
    returns (picks: seq<Sub>)
    requires ChoiceOk(choice)
    requires forall g :: g in groups ==> Enumerates(groups[g], GroupOf(considered, g))
    ensures Picks(choice, groups, groups.Keys, picks)
  {
    picks := [];
    var todo := groups.Keys;
    while todo != {}
      invariant todo <= groups.Keys
      invariant Picks(choice, groups, groups.Keys - todo, picks)
      decreases |todo|
    {
      var g :| g in todo;
      var members := groups[g];
      var c := choice(g, members);
      if c.Some? {
        assert members[c.value] in members;
        assert members[c.value].opts.sharedGroup == Some(g);
        picks := picks + [members[c.value]];
      } else {
        forall s | s in considered && s.opts.sharedGroup == Some(g) ensures s !in picks { }
      }
      todo := todo - {g};
    }
    assert groups.Keys - todo == groups.Keys;
  }

  lemma SelectedForFilter(
    f: string, considered: set<Sub>, choice: Choice, direct: seq<Sub>, groups: map<Group, seq<Sub>>, picks: seq<Sub>)
    requires forall s :: s in considered ==> s.filter == f
    requires Sorted(considered, direct, groups) && Picks(choice, groups, groups.Keys, picks)
    ensures Selection(considered, choice, direct + picks)
  {
    var sel := direct + picks;
    forall s | s in picks ensures s in considered && s.opts.sharedGroup.Some? {
      var g := s.opts.sharedGroup.value;
      assert s in groups[g];
    }
    forall i, j | 0 <= i < j < |sel| ensures sel[i] != sel[j] {
      if i < |direct| <= j { assert direct[i] in direct && picks[j - |direct|] in picks; }
    }
    forall f', g ensures Served(choice, g, MembersOf(considered, f', g), sel) {
      var members := MembersOf(considered, f', g);
      if members != {} {
        assert members == GroupOf(considered, g);
        var order := groups[g];
        forall i | 0 <= i < |order| ensures order[i] in sel <==> choice(g, order) == Some(i) {
          assert order[i] in order && order[i].opts.sharedGroup == Some(g);
        }
        assert Enumerates(order, members) && PickedFrom(choice, g, order, sel);
      }
    }
  }

  lemma OneMoreFilter(rels: Relations, publisher: Id, seen: set<string>, f: string)
    requires f in rels
    ensures ConsideredOn(rels, publisher, seen + {f}) ==
      ConsideredOn(rels, publisher, seen) + ConsideredOn(map[f := rels[f]], publisher, {f})
  {
    forall s ensures s in ConsideredOn(rels, publisher, seen + {f}) <==>
      s in ConsideredOn(rels, publisher, seen) + ConsideredOn(map[f := rels[f]], publisher, {f})
    {
      ConsideredMember(rels, publisher, seen + {f}, s);
      ConsideredMember(rels, publisher, seen, s);
      ConsideredMember(map[f := rels[f]], publisher, {f}, s);
    }
  }

  /** Each node gets exactly the relations of the selected subscriptions living there. */
  ghost predicate PerNode(sel: seq<Sub>, out: map<NodeId, seq<Relation>>) {
    forall node ::
      var here := Sequences.FlatMap(OnNode(node), sel);
      && (node in out <==> here != [])
      && (node in out ==> Listed(Collect(here), out[node]))
  }

  /** A publish's answer: a selection, and what each node gets of it. */
  ghost predicate Answer(considered: set<Sub>, choice: Choice, sel: seq<Sub>, out: map<NodeId, seq<Relation>>) {
    Selection(considered, choice, sel) && PerNode(sel, out)
  }

  /** Nothing but considered subscriptions, and every ordinary one. */
  ghost predicate Covers(considered: set<Sub>, sel: seq<Sub>) {
    && (forall s :: s in sel ==> s in considered)
    && (forall s :: s in considered && s.opts.sharedGroup.None? ==> s in sel)
  }

  /** Every ordinary subscription is selected as often as the trie finds its filter under the name. */
  ghost predicate Multiplied(considered: set<Sub>, name: Topic, sel: seq<Sub>) {
    forall s :: s in considered && s.opts.sharedGroup.None? ==>
      Parse(s.filter).Ok? && multiset(sel)[s] == Times(Parse(s.filter).value, name)
  }

  /** The client's subscription to `f`. */
  function SubOf(rels: Relations, f: string, c: ClientId): Sub
    requires f in rels && c in rels[f]
  {
    Sub(f, c, rels[f][c].0, rels[f][c].1)
  }

  /**
   The client has a subscription, on this node, that matches the name and may see the publish; one
   in a shared group counts only if its group picked it.
   */
  predicate Subscribed(rels: Relations, publisher: Id, name: string, sel: seq<Sub>, node: NodeId, c: ClientId) {
    exists f :: f in rels && c in rels[f] && SpecMatches(Split(f), Split(name))
      && rels[f][c].0.node == node
      && !(rels[f][c].1.V5? && rels[f][c].1.noLocal && rels[f][c].0 == publisher)
      && (rels[f][c].1.sharedGroup.None? || SubOf(rels, f, c) in sel)
  }

  /**
   The whole way from subscription to fan-out: a client is handed the publish on a node exactly when
   it has there an ordinary subscription to a filter matching the name, or one that its group picked.
   This holds of every answer that covers the considered subscriptions, repetitions or not.
   */
  lemma ReachedIffSubscribed(
    rels: Relations, publisher: Id, name: string, sel: seq<Sub>, out: map<NodeId, seq<Relation>>,
    node: NodeId, c: ClientId)
    requires Covers(ConsideredOn(rels, publisher, Scan(rels, name)), sel) && PerNode(sel, out)
    ensures (node in out && Reaches(out[node], c)) <==> Subscribed(rels, publisher, name, sel, node, c)
  {
    hide Sequences.FlatMap; hide Split; hide SpecMatches; hide Listed; hide Collect; hide Reaches;
    var considered, here := ConsideredOn(rels, publisher, Scan(rels, name)), Sequences.FlatMap(OnNode(node), sel);
    if node in out { ReachesExactly(here, out[node], c); }
    if j :| 0 <= j < |here| && here[j].client == c {
      Sequences.FlatMapMember(OnNode(node), sel, here[j]);
      assert here[j] in considered;
      ConsideredMember(rels, publisher, Scan(rels, name), here[j]);
      assert here[j] == SubOf(rels, here[j].filter, c) && here[j].filter in rels;
    }
    if Subscribed(rels, publisher, name, sel, node, c) {
      var f :| f in rels && c in rels[f] && SpecMatches(Split(f), Split(name))
        && rels[f][c].0.node == node
        && !(rels[f][c].1.V5? && rels[f][c].1.noLocal && rels[f][c].0 == publisher)
        && (rels[f][c].1.sharedGroup.None? || SubOf(rels, f, c) in sel);
      var s := SubOf(rels, f, c);
      ConsideredMember(rels, publisher, Scan(rels, name), s);
      assert f in Scan(rels, name) && s in sel;
      assert s in OnNode(node)(s);
      Sequences.FlatMapMember(OnNode(node), sel, s);
    }
  }

  /**
   What is handed out is what was stored: every relation on a node carries a filter its client is
   subscribed to from that node, that matches the name, with the options stored for it.
   */
  lemma RelationsAreStored(
    rels: Relations, publisher: Id, name: string, sel: seq<Sub>, out: map<NodeId, seq<Relation>>, node: NodeId, i: nat)
    requires Covers(ConsideredOn(rels, publisher, Scan(rels, name)), sel) && PerNode(sel, out)
    requires node in out && i < |out[node]|
    ensures var r := out[node][i];
      && r.filter in rels && r.client in rels[r.filter] && SpecMatches(Split(r.filter), Split(name))
      && r.opts == rels[r.filter][r.client].1 && r.group == r.opts.sharedGroup
      && rels[r.filter][r.client].0.node == node
      && !(r.opts.V5? && r.opts.noLocal && rels[r.filter][r.client].0 == publisher)
  {
    hide Sequences.FlatMap; hide Split; hide SpecMatches; hide Listed; hide Collect;
    var here := Sequences.FlatMap(OnNode(node), sel);
    var j := RelationSpeaks(here, out[node], i);
    Sequences.FlatMapMember(OnNode(node), sel, here[j]);
    ConsideredMember(rels, publisher, Scan(rels, name), here[j]);
  }

  /** At most one member of a shared group is picked per filter. */
  lemma OnePickPerGroup(choice: Choice, considered: set<Sub>, sel: seq<Sub>, s: Sub, t: Sub)
    requires Selection(considered, choice, sel) && s in sel && t in sel
    requires s.filter == t.filter && s.opts.sharedGroup == t.opts.sharedGroup && s.opts.sharedGroup.Some?
    ensures s == t
  {
    var g := s.opts.sharedGroup.value;
    var members := MembersOf(considered, s.filter, g);
    assert s in members && t in members;
    assert Served(choice, g, members, sel);
    var order :| Enumerates(order, members) && PickedFrom(choice, g, order, sel);
    var i :| 0 <= i < |order| && order[i] == s;
    var j :| 0 <= j < |order| && order[j] == t;
    assert choice(g, order) == Some(i) == Some(j);
  }

  /** `seen` holds the texts of the filters found. */
  ghost predicate SeenFilters(items: seq<Item<()>>, seen: set<string>) {
    forall f :: f in seen <==> exists x :: x in items && Print(x.levels) == f
  }

  lemma SeenMore(items: seq<Item<()>>, i: nat, seen: set<string>)
    requires i < |items| && SeenFilters(items[..i], seen)
    requires forall x :: x in items ==> Parse(Print(x.levels)) == Ok(x.levels)
    ensures DistinctLevels(items) ==> Print(items[i].levels) !in seen
    ensures SeenFilters(items[..i + 1], seen + {Print(items[i].levels)})
  {
    hide Parse; hide Print;
    var f := Print(items[i].levels);
    assert items[i] in items;
    if DistinctLevels(items) {
      forall x | x in items[..i] ensures Print(x.levels) != f {
        var k :| 0 <= k < i && items[..i][k] == x;
        assert items[k] == x && x in items && items[k].levels != items[i].levels;
      }
    }
    assert items[..i + 1] == items[..i] + [items[i]];
    assert forall x :: x in items[..i + 1] <==> x in items[..i] || x == items[i];
  }

  /** A v5 client's subscriptions to `a/#` at QoS 0 and to `a/b` at QoS 2. */
  function Low(id: Id): Sub { Sub("a/#", id.client, id, Options.V5(0, None, false, None)) }
  function High(id: Id): Sub { Sub("a/b", id.client, id, Options.V5(2, None, false, None)) }

  /**
   The trie finds `a/#` before `a/b`, so the client gets a QoS 2 publish to `a/b` at QoS 0; the other
   order of selection cannot occur.
   */
  lemma FirstQosExample(id: Id)
    ensures var a, b := Normal("a"), Normal("b");
      Texts(Found(InsertAt(InsertAt(Empty(), [a, MultiWildcard], ()), [a, b], ()), [a, b], [])) ==
      [Low(id).filter, High(id).filter]
    ensures var c := Collect([Low(id), High(id)]); id.client in c.v5 && c.v5[id.client].opts.qos == 0
    ensures var texts := [Low(id).filter, High(id).filter];
      FollowsOrder([Low(id), High(id)], texts) && !FollowsOrder([High(id), Low(id)], texts)
  {
    hide Found; hide InsertAt; hide Print; hide FollowsOrder; hide Collect;
    FoundInOrder(Normal("a"), Normal("b"));
    PrintedExample();
    CollectedExample(Low(id), High(id));
    assert Low(id).filter[2] != High(id).filter[2];
    OrderExample(Low(id), High(id));
  }

  lemma PrintedExample()
    ensures Print([Normal("a"), MultiWildcard]) == "a/#" && Print([Normal("a"), Normal("b")]) == "a/b"
  {
    PrintedPair(Normal("a"), MultiWildcard);
    PrintedPair(Normal("a"), Normal("b"));
  }

  lemma PrintedPair(a: Level, b: Level)
    ensures Print([a, b]) == PrintLevel(a) + "/" + PrintLevel(b)
  {
    assert [a] + [b] == [a, b] && [] + [a] == [a];
    PrintAppend([a], b);
    PrintAppend([], a);
  }

  lemma CollectedExample(s: Sub, t: Sub)
    requires s.opts.V5? && t.opts.V5? && s.client == t.client
    ensures s.client in Collect([s, t]).v5 && Collect([s, t]).v5[s.client].opts == s.opts
  {
    assert [s, t][..1] == [s] && [s][..0] == [];
    assert Collect([s]) == Add(Collect([]), s);
    assert Collect([s, t]) == Add(Collect([s]), t);
  }

  lemma OrderExample(s: Sub, t: Sub)
    requires s.filter != t.filter
    ensures FollowsOrder([s, t], [s.filter, t.filter]) && !FollowsOrder([t, s], [s.filter, t.filter])
  {
    var sel, texts := [t, s], [s.filter, t.filter];
    assert sel[0].filter == texts[1] && sel[1].filter == texts[0];
  }

  lemma FoundInOrder(a: Level, b: Level)
    requires a.Normal? && b.Normal?
    ensures Found(InsertAt(InsertAt(Empty(), [a, MultiWildcard], ()), [a, b], ()), [a, b], []) ==
      [Item([a, MultiWildcard], {()}), Item([a, b], {()})]
  {
    var leaf: Node<()> := Node({()}, map[]);
    var mid: Node<()> := Node({}, map[MultiWildcard := leaf, b := leaf]);
    var root: Node<()> := Node({}, map[a := mid]);
    assert [a, MultiWildcard][1..] == [MultiWildcard] && [a, b][1..] == [b] &&
      [b][1..] == [] && [MultiWildcard][1..] == [];
    assert InsertAt(Empty(), [], ()) == leaf;
    assert InsertAt(Empty(), [MultiWildcard], ()) == Node({}, map[MultiWildcard := leaf]);
    assert InsertAt(Node({}, map[MultiWildcard := leaf]), [b], ()) == mid;
    assert InsertAt(InsertAt(Empty(), [a, MultiWildcard], ()), [a, b], ()) == root;
    assert Found(leaf, [], [a, b]) == [Item([a, b], {()})];
    assert [a] + [MultiWildcard] == [a, MultiWildcard] && [a] + [b] == [a, b] && [] + [a] == [a];
    assert Found(mid, [b], [a]) == [Item([a, MultiWildcard], {()})] + [] + Found(leaf, [], [a, b]);
    assert Found(root, [a, b], []) == [] + [] + Found(mid, [b], [a]);
  }

  /** The texts of the filters a name finds, in the trie's order: `#` before `+` before exact, at every level. */
  function Texts(items: seq<Item<()>>): seq<string> {
    seq(|items|, i requires 0 <= i < |items| => Print(items[i].levels))
  }

  /** Selected subscriptions follow the order of the filters. */
  predicate FollowsOrder(sel: seq<Sub>, texts: seq<string>) {
    && (forall i :: 0 <= i < |sel| ==> sel[i].filter in texts)
    && (forall i, j, a, b :: 0 <= i < j < |sel| && 0 <= a < b < |texts| && sel[i].filter == texts[b] ==>
          sel[j].filter != texts[a] || texts[a] == texts[b])
  }

  lemma OrderMore(sel: seq<Sub>, more: seq<Sub>, texts: seq<string>, f: string)
    requires FollowsOrder(sel, texts) && f !in texts && forall s :: s in more ==> s.filter == f
    ensures FollowsOrder(sel + more, texts + [f])
  {
    var all, ts := sel + more, texts + [f];
    forall i | 0 <= i < |all| ensures all[i].filter in ts {
      if i >= |sel| { assert all[i] == more[i - |sel|] && more[i - |sel|] in more && ts[|texts|] == f; }
    }
    forall i, j, a, b | 0 <= i < j < |all| && 0 <= a < b < |ts| && all[i].filter == ts[b]
      ensures all[j].filter != ts[a] || ts[a] == ts[b]
    {
      if j >= |sel| { assert all[j] == more[j - |sel|] && more[j - |sel|] in more; }
      assert a < |texts| && ts[a] == texts[a];
    }
  }

  /** Trie, printing and map together find the filters of the linear scan. */
  lemma ScanIsSeen(root: Node<()>, rels: Relations, name: string, items: seq<Item<()>>, seen: set<string>)
    requires Parse(name).Ok? && WellKept(rels) && Indexed(root, rels) && SeenFilters(items, seen)
    requires forall item :: item in items <==> MatchingEntry(root, Parse(name).value, item)
    ensures seen == Scan(rels, name)
  {
    hide Parse; hide Print; hide Split; hide Matches; hide SpecMatches; hide Lookup;
    forall f ensures f in seen <==> f in Scan(rels, name) {
      if f in seen {
        var x :| x in items && Print(x.levels) == f;
        assert MatchingEntry(root, Parse(name).value, x);
        SpecOnText(f, name);
      }
      if f in Scan(rels, name) {
        PrintParse(f);
        SpecOnText(f, name);
        var p := Parse(f).value;
        var item := Item(p, Lookup(root, p));
        assert MatchingEntry(root, Parse(name).value, item);
        assert item in items;
      }
    }
  }

  /** Hand subscriptions to the collectors of their nodes. */
  method AddEach(cs: Collectors, ghost sel: seq<Sub>, subs: seq<Sub>) returns (cs': Collectors)
    requires cs == CollectAll(sel)
    ensures cs' == CollectAll(sel + subs)
  {
    cs' := cs;
    assert sel + subs[..0] == sel;
    for i := 0 to |subs|
      invariant cs' == CollectAll(sel + subs[..i])
    {
      ghost var next := sel + subs[..i + 1];
      assert next == (sel + subs[..i]) + [subs[i]];
      assert next[..|next| - 1] == sel + subs[..i];
      cs' := AddTo(cs', subs[i]);
    }
    assert subs[..|subs|] == subs;
  }

  /** One filter found by the trie: its ordinary subscribers, then its groups' picks. */
  method GatherFilter(
    publisher: Id, rels: Relations, f: string, choice: Choice, cs: Collectors,
    ghost sel: seq<Sub>, ghost seen: set<string>)
    returns (cs': Collectors, ghost sel': seq<Sub>)
    requires f in rels && ChoiceOk(choice) && cs == CollectAll(sel)
    ensures cs' == CollectAll(sel')
    ensures sel <= sel' && forall s :: s in sel'[|sel|..] ==> s.filter == f && MaySee(rels, publisher, s)
    ensures forall s: Sub :: s.opts.sharedGroup.None? ==>
      multiset(sel')[s] == multiset(sel)[s] + if s.filter == f && MaySee(rels, publisher, s) then 1 else 0
    ensures f !in seen && Selection(ConsideredOn(rels, publisher, seen), choice, sel) ==>
      Selection(ConsideredOn(rels, publisher, seen + {f}), choice, sel')
  {
    hide Selection; hide CollectAll; hide Sorted; hide Picks; hide MaySee; hide ConsideredOn;
    ghost var here := ConsideredOn(map[f := rels[f]], publisher, {f});
    var direct, groups := SortSubscribers(publisher, f, rels[f]);
    cs' := AddEach(cs, sel, direct);
    GroupsListed(here, direct, groups);
    var picks := PickFromGroups(choice, groups, here);
    cs' := AddEach(cs', sel + direct, picks);
    sel' := sel + (direct + picks);
    Sequences.Associative(sel, direct, picks);
    assert sel'[|sel|..] == direct + picks;
    forall s ensures s in here <==> s.filter == f && MaySee(rels, publisher, s) { SeeHere(rels, publisher, f, s); }
    forall s | s in ConsideredOn(rels, publisher, seen) ensures s.filter in seen {
      ConsideredMember(rels, publisher, seen, s);
    }
    SelectedForFilter(f, here, choice, direct, groups, picks);
    SelectedAreConsidered(here, choice, direct + picks);
    forall s: Sub | s.opts.sharedGroup.None?
      ensures multiset(sel')[s] == multiset(sel)[s] + if s.filter == f && MaySee(rels, publisher, s) then 1 else 0
    {
      SelectedOnce(here, choice, direct, groups, picks, s);
      assert multiset(sel') == multiset(sel) + multiset(direct + picks);
    }
    if f !in seen && Selection(ConsideredOn(rels, publisher, seen), choice, sel) {
      SelectionsJoin(ConsideredOn(rels, publisher, seen), here, choice, sel, direct + picks);
      OneMoreFilter(rels, publisher, seen, f);
    }
  }

  lemma SeeHere(rels: Relations, publisher: Id, f: string, s: Sub)
    requires f in rels
    ensures s in ConsideredOn(map[f := rels[f]], publisher, {f}) <==> s.filter == f && MaySee(rels, publisher, s)
  {
    ConsideredMember(map[f := rels[f]], publisher, {f}, s);
  }

  lemma SelectedOnce(
    considered: set<Sub>, choice: Choice, direct: seq<Sub>, groups: map<Group, seq<Sub>>, picks: seq<Sub>, s: Sub)
    requires Sorted(considered, direct, groups) && Picks(choice, groups, groups.Keys, picks)
    requires s.opts.sharedGroup.None?
    ensures multiset(direct + picks)[s] == if s in considered then 1 else 0
  {
    Sequences.NoRepeatsCount(direct, s);
    Sequences.NoRepeatsCount(picks, s);
    assert multiset(direct + picks) == multiset(direct) + multiset(picks);
  }

  /** Every filter found by the trie, in its order. */
  method GatherAll(publisher: Id, rels: Relations, items: seq<Item<()>>, choice: Choice)
    returns (cs: Collectors, ghost sel: seq<Sub>, ghost seen: set<string>)
    requires ChoiceOk(choice)
    requires forall x :: x in items ==> Parse(Print(x.levels)) == Ok(x.levels) && Print(x.levels) in rels
    ensures cs == CollectAll(sel) && SeenFilters(items, seen)
    ensures forall s :: s in sel ==> s.filter in seen && MaySee(rels, publisher, s)
    ensures forall s: Sub :: s.opts.sharedGroup.None? && MaySee(rels, publisher, s) ==>
      multiset(sel)[s] == multiset(Texts(items))[s.filter]
    ensures DistinctLevels(items) ==>
      Selection(ConsideredOn(rels, publisher, seen), choice, sel) && FollowsOrder(sel, Texts(items))
  {
    hide Parse; hide Print; hide Selection; hide CollectAll; hide FollowsOrder; hide DistinctLevels; hide SeenFilters;
    hide MaySee;
    cs, sel, seen := map[], [], {};
    Beginning(rels, publisher, choice);
    for i := 0 to |items|
      invariant SeenFilters(items[..i], seen) && cs == CollectAll(sel)
      invariant forall s :: s in sel ==> s.filter in seen && MaySee(rels, publisher, s)
      invariant forall s: Sub :: s.opts.sharedGroup.None? && MaySee(rels, publisher, s) ==>
        multiset(sel)[s] == multiset(Texts(items)[..i])[s.filter]
      invariant DistinctLevels(items) ==>
        Selection(ConsideredOn(rels, publisher, seen), choice, sel) && FollowsOrder(sel, Texts(items)[..i])
    {
      var f := Display(items[i].levels);
      assert items[i] in items;
      SeenMore(items, i, seen);
      ghost var before := sel;
      if f in rels {
        cs, sel := GatherFilter(publisher, rels, f, choice, cs, sel, seen);
      }
      assert Texts(items)[..i + 1] == Texts(items)[..i] + [f];
      assert before + sel[|before|..] == sel;
      if DistinctLevels(items) {
        TextIsNew(items, i, seen);
        OrderMore(before, sel[|before|..], Texts(items)[..i], f);
      }
      seen := seen + {f};
    }
    assert items[..|items|] == items && Texts(items)[..|items|] == Texts(items);
  }

  lemma SelectedAreConsidered(considered: set<Sub>, choice: Choice, sel: seq<Sub>)
    requires Selection(considered, choice, sel)
    ensures forall s :: s in sel ==> s in considered
  {
  }

  lemma GroupsListed(considered: set<Sub>, direct: seq<Sub>, groups: map<Group, seq<Sub>>)
    requires Sorted(considered, direct, groups)
    ensures forall g :: g in groups ==> Enumerates(groups[g], GroupOf(considered, g))
  {
  }

  /** Turn the collectors into the lists handed to delivery. */
  method ListAll(cs: Collectors) returns (out: map<NodeId, seq<Relation>>)
    ensures out.Keys == cs.Keys && forall node :: node in cs ==> Listed(cs[node], out[node])
  {
    hide Listed;
    out := map[];
    var todo := cs.Keys;
    while todo != {}
      invariant todo <= cs.Keys && out.Keys == cs.Keys - todo
      invariant forall node :: node in out ==> Listed(cs[node], out[node])
      decreases |todo|
    {
      var node :| node in todo;
      var rels := IntoRelations(cs[node]);
      out := out[node := rels];
      todo := todo - {node};
    }
  }

  lemma KeptAfterAdd(rels: Relations, f: string, id: Id, opts: Options)
    requires WellKept(rels) && Parse(f).Ok?
    ensures var after := AddRelation(rels, f, id, opts);
      && WellKept(after) && after.Keys == rels.Keys + {f}
      && |after| == |rels| + (if f in rels then 0 else 1)
      && |Pairs(after)| == |Pairs(rels)| + (if f in rels && id.client in rels[f] then 0 else 1)
  {
    hide WellKept; hide Parse; hide Pairs; hide AddRelation;
    WellKeptAfterAdd(rels, f, id, opts);
    SizesAfterAdd(rels, f, id, opts);
  }

  lemma SizesAfterAdd(rels: Relations, f: string, id: Id, opts: Options)
    ensures var after := AddRelation(rels, f, id, opts);
      && after.Keys == rels.Keys + {f}
      && |after| == |rels| + (if f in rels then 0 else 1)
      && |Pairs(after)| == |Pairs(rels)| + (if f in rels && id.client in rels[f] then 0 else 1)
  {
    hide Pairs; hide AddRelation;
    PairsAdded(rels, f, id, opts);
    PairsMember(rels, f, id.client);
    KeysAdded(rels, f, id, opts);
    GrownSize(Pairs(rels), (f, id.client));
    GrownSize(rels.Keys, f);
    assert |rels| == |rels.Keys|;
    assert |AddRelation(rels, f, id, opts)| == |AddRelation(rels, f, id, opts).Keys|;
  }

  lemma WellKeptAfterAdd(rels: Relations, f: string, id: Id, opts: Options)
    requires WellKept(rels) && Parse(f).Ok?
    ensures WellKept(AddRelation(rels, f, id, opts))
  {
    hide Parse;
    var after: Relations := AddRelation(rels, f, id, opts);
    assert id.client in after[f];
    forall g | g in after
      ensures Parse(g).Ok? && after[g] != map[] && forall c: ClientId :: c in after[g] ==> after[g][c].0.client == c
    {
      if g != f { assert g in rels && after[g] == rels[g]; }
    }
  }

  lemma KeptAfterRemove(rels: Relations, f: string, id: Id)
    requires WellKept(rels) && Removable(rels, f, id)
    ensures var after, last := RemoveRelation(rels, f, id), rels[f] - {id.client} == map[];
      && WellKept(after) && after.Keys == (if last then rels.Keys - {f} else rels.Keys)
      && |after| == |rels| - (if last then 1 else 0)
      && |Pairs(after)| == |Pairs(rels)| - 1
  {
    hide Parse;
    PairsRemoved(rels, f, id);
    assert (f, id.client) in Pairs(rels);
    var after, last := RemoveRelation(rels, f, id), rels[f] - {id.client} == map[];
    assert after.Keys == (if last then rels.Keys - {f} else rels.Keys);
    assert |after| == |after.Keys| && |rels| == |rels.Keys|;
  }

  lemma ParsedKey(rels: Relations, f: string)
    requires WellKept(rels) && f in rels
    ensures Parse(f).Ok?
  {
  }

  lemma EntriesAfterAdd(rels: Relations, filter: string, id: Id, opts: Options)
    ensures var after := AddRelation(rels, filter, id, opts);
      && EntryOf(after, filter, id.client) == Some((id, opts))
      && forall f, c :: f != filter || c != id.client ==> EntryOf(after, f, c) == EntryOf(rels, f, c)
  {
  }

  lemma EntriesAfterRemove(rels: Relations, filter: string, id: Id)
    requires Removable(rels, filter, id)
    ensures var after := RemoveRelation(rels, filter, id);
      && EntryOf(after, filter, id.client) == None
      && forall f, c :: f != filter || c != id.client ==> EntryOf(after, f, c) == EntryOf(rels, f, c)
  {
    var after, left := RemoveRelation(rels, filter, id), rels[filter] - {id.client};
    forall f, c | f != filter || c != id.client ensures EntryOf(after, f, c) == EntryOf(rels, f, c) {
      if f == filter { assert c in rels[filter] <==> c in left; }
    }
  }

  lemma IndexedAfterAdd(root: Node<()>, root': Node<()>, rels: Relations, rels': Relations, filter: string, t: Topic)
    requires Indexed(root, rels) && rels'.Keys == rels.Keys + {filter}
    requires Parse(filter) == Ok(t) && Print(t) == filter
    requires forall q :: Lookup(root', q) == Lookup(root, q) + if q == t then {()} else {}
    ensures Indexed(root', rels')
  {
    hide Parse; hide Print;
    forall p ensures Lookup(root', p) != {} <==> Parse(Print(p)) == Ok(p) && Print(p) in rels' {
      assert Lookup(root', p) == Lookup(root, p) + if p == t then {()} else {};
      if p == t { assert () in Lookup(root', p); }
    }
  }

  lemma IndexedAfterRemove(root: Node<()>, root': Node<()>, rels: Relations, rels': Relations, filter: string, t: Topic)
    requires Indexed(root, rels) && rels'.Keys == rels.Keys - {filter}
    requires Parse(filter) == Ok(t) && Print(t) == filter
    requires forall q :: Lookup(root', q) == Lookup(root, q) - if q == t then {()} else {}
    ensures Indexed(root', rels')
  {
    hide Parse; hide Print;
    forall p ensures Lookup(root', p) != {} <==> Parse(Print(p)) == Ok(p) && Print(p) in rels' {
      assert Lookup(root', p) == Lookup(root, p) - if p == t then {()} else {};
      if p == t {
        forall u | u in Lookup(root, p) ensures u == () { }
        assert Lookup(root', p) == {};
      }
    }
  }

  class Router {
    const topics: TopicTree<()>
    var topicsCount: int
    var relations: Relations
    var relationsCount: int

    ghost predicate Valid() reads this, topics {
      && Canonical(topics.root)
      && WellKept(relations)
      && Indexed(topics.root, relations)
      && topicsCount == |relations|
      && relationsCount == |Pairs(relations)|
    }

    constructor ()
      ensures Valid() && fresh(topics) && relations == map[]
    {
      topics := new TopicTree();
      topicsCount, relations, relationsCount := 0, map[], 0;
      new;
      forall p ensures Lookup(topics.root, p) == {} { EmptyHoldsNothing<()>(p); }
    }

    /** Subscribe; a filter that does not parse is refused and nothing changes. */
    method Add(filter: string, id: Id, opts: Options) returns (r: Result<(), TopicError>)
      requires Valid()
      modifies this, topics
      ensures Valid()
      ensures r.Err? <==> Parse(filter).Err?
      ensures relations == if r.Ok? then AddRelation(old(relations), filter, id, opts) else old(relations)
      ensures r.Ok? ==> EntryOf(relations, filter, id.client) == Some((id, opts))
      ensures forall f, c :: f != filter || c != id.client ==> EntryOf(relations, f, c) == EntryOf(old(relations), f, c)
    {
      hide Parse; hide Print; hide WellKept; hide Pairs; hide Indexed; hide Canonical; hide InsertAt; hide Lookup;
      var parsed := Parse(filter);
      if parsed.Err? { return Err(parsed.error); }
      PrintParse(filter);
      KeptAfterAdd(relations, filter, id, opts);
      EntriesAfterAdd(relations, filter, id, opts);
      hide EntryOf;
      var _ := topics.Insert(parsed.value, ());
      if filter !in relations { topicsCount := topicsCount + 1; }
      if !(filter in relations && id.client in relations[filter]) { relationsCount := relationsCount + 1; }
      var subs := if filter in relations then relations[filter] else map[];
      relations := relations[filter := subs[id.client := (id, opts)]];
      IndexedAfterAdd(old(topics.root), topics.root, old(relations), relations, filter, parsed.value);
      r := Ok(());
    }

    /** Unsubscribe; only the session that subscribed can, and the last one takes the filter away. */
    method Remove(filter: string, id: Id) returns (r: Result<bool, TopicError>)
      requires Valid()
      modifies this, topics
      ensures Valid()
      ensures r.Ok? && (r.value <==>
        filter in old(relations) && id.client in old(relations)[filter] && old(relations)[filter][id.client].0 == id)
      ensures relations == RemoveRelation(old(relations), filter, id)
      ensures r.value ==> EntryOf(relations, filter, id.client) == None
      ensures forall f, c :: !r.value || f != filter || c != id.client ==>
        EntryOf(relations, f, c) == EntryOf(old(relations), f, c)
    {
      hide Print; hide Pairs; hide Indexed; hide Canonical; hide RemoveAt; hide Lookup; hide Parse; hide EntryOf;
      if !Removable(relations, filter, id) { return Ok(false); }
      KeptAfterRemove(relations, filter, id);
      EntriesAfterRemove(relations, filter, id);
      ParsedKey(relations, filter);
      hide WellKept;
      ghost var goal := RemoveRelation(relations, filter, id);
      var left := relations[filter] - {id.client};
      relationsCount := relationsCount - 1;
      if left == map[] {
        relations := relations - {filter};
        topicsCount := topicsCount - 1;
        match Parse(filter) {
          case Err(e) => return Err(e);
          case Ok(t) =>
            PrintParse(filter);
            var _ := topics.Remove(t, ());
            IndexedAfterRemove(old(topics.root), topics.root, old(relations), relations, filter, t);
        }
      } else {
        relations := relations[filter := left];
        SameKeysIndexed(topics.root, old(relations), relations);
      }
      assert relations == goal;
      r := Ok(true);
    }

    /** Some matching filter shares a wildcard level with the name; a wildcard-free name shares none. */
    ghost predicate NameDoubles(name: string) reads this {
      exists f :: f in Scan(relations, name) && Parse(f).Ok? &&
        Parse(name).Ok? && Doubled(Parse(f).value, Parse(name).value)
    }

    /**
     Who receives a publish. The subscriptions considered are exactly those a linear scan finds
     under section 4.7, minus No Local; ordinary ones are all selected, a shared group contributes
     its pick; each node then gets its clients' relations. Selection follows the order of the trie.
     For a name with wildcards the same clients are reached, and an ordinary subscription is selected
     once for every time the trie finds its filter: more than once exactly when they share a wildcard.
     */
    method FindMatches(publisher: Id, name: string, choice: Choice)
      returns (r: Result<map<NodeId, seq<Relation>>, TopicError>, ghost sel: seq<Sub>)
      requires Valid() && ChoiceOk(choice)
      ensures r.Err? <==> Parse(name).Err?
      ensures r.Ok? ==>
        && PerNode(sel, r.value)
        && Covers(ConsideredOn(relations, publisher, Scan(relations, name)), sel)
        && Multiplied(ConsideredOn(relations, publisher, Scan(relations, name)), Parse(name).value, sel)
      ensures r.Ok? && !NameDoubles(name) ==>
        && Answer(ConsideredOn(relations, publisher, Scan(relations, name)), choice, sel, r.value)
        && FollowsOrder(sel, Texts(Found(topics.root, Parse(name).value, [])))
      ensures Parse(name).Ok? && WildcardFree(Parse(name).value) ==> !NameDoubles(name)
    {
      hide Parse; hide Print; hide Selection; hide CollectAll; hide Listed; hide Lookup; hide Canonical; hide WellKept;
      hide Pairs;
      hide Found; hide Doubled; hide WildcardFree; hide FollowsOrder; hide DistinctLevels; hide Indexed;
      hide MaySee; hide Covers; hide Multiplied; hide CountOf; hide Times; hide Matches; hide Scan; hide ConsideredOn;
      sel := [];
      var parsed := Parse(name);
      if parsed.Err? { return Err(parsed.error), sel; }
      if WildcardFree(parsed.value) {
        forall f ensures !Doubled(f, parsed.value) { PlainNotDoubled(f, parsed.value); }
      }
      var items := MatchAll(topics.root, parsed.value);
      ItemsAreKeys(topics.root, relations, parsed.value, items);
      ghost var seen;
      var cs;
      cs, sel, seen := GatherAll(publisher, relations, items, choice);
      ScanIsSeen(topics.root, relations, name, items, seen);
      var out := ListAll(cs);
      forall node
        ensures node in out <==> Sequences.FlatMap(OnNode(node), sel) != []
        ensures node in out ==> Listed(Collect(Sequences.FlatMap(OnNode(node), sel)), out[node])
      {
        CollectAllSplits(sel, node);
      }
      AllCovered(topics.root, relations, publisher, name, items, seen, sel);
      if !NameDoubles(name) { NoneDoubled(topics.root, relations, name); }
      r := Ok(out);
    }
  }

  lemma ItemsAreKeys(root: Node<()>, rels: Relations, name: Topic, items: seq<Item<()>>)
    requires Indexed(root, rels) && forall item :: item in items <==> MatchingEntry(root, name, item)
    ensures forall x :: x in items ==> Parse(Print(x.levels)) == Ok(x.levels) && Print(x.levels) in rels
  {
    hide Parse; hide Print; hide Lookup; hide Matches;
    forall x | x in items ensures Parse(Print(x.levels)) == Ok(x.levels) && Print(x.levels) in rels {
      assert MatchingEntry(root, name, x);
    }
  }

  lemma TextIsNew(items: seq<Item<()>>, i: nat, seen: set<string>)
    requires i < |items| && SeenFilters(items[..i], seen) && Print(items[i].levels) !in seen
    ensures Print(items[i].levels) !in Texts(items)[..i]
  {
    hide Print;
    forall k | 0 <= k < i ensures Texts(items)[..i][k] != Print(items[i].levels) {
      assert items[..i][k] == items[k] && items[k] in items[..i];
      assert Print(items[k].levels) in seen;
    }
  }

  /** No matching filter of the trie is doubled when none of the scan is. */
  lemma NoneDoubled(root: Node<()>, rels: Relations, name: string)
    requires Parse(name).Ok? && Indexed(root, rels)
    requires forall f :: f in Scan(rels, name) && Parse(f).Ok? ==> !Doubled(Parse(f).value, Parse(name).value)
    ensures !exists p :: Lookup(root, p) != {} && Matches(p, Parse(name).value) && Doubled(p, Parse(name).value)
  {
    hide Parse; hide Print; hide Doubled; hide Matches; hide SpecMatches; hide Split; hide Lookup;
    forall p | Lookup(root, p) != {} && Matches(p, Parse(name).value) ensures !Doubled(p, Parse(name).value) {
      SpecOnText(Print(p), name);
      assert Print(p) in Scan(rels, name);
    }
  }

  lemma {:induction false} TextCount(items: seq<Item<()>>, p: Topic)
    requires Parse(Print(p)) == Ok(p) && forall x :: x in items ==> Parse(Print(x.levels)) == Ok(x.levels)
    ensures multiset(Texts(items))[Print(p)] == CountOf(items, p)
    decreases |items|
  {
    hide Parse; hide Print;
    if items != [] {
      var k := |items| - 1;
      assert items[k] in items && forall x :: x in items[..k] ==> x in items;
      TextCount(items[..k], p);
      assert Texts(items) == Texts(items[..k]) + [Print(items[k].levels)];
    }
  }

  /** Everything considered is covered, as often as the trie finds it. */
  lemma AllCovered(
    root: Node<()>, rels: Relations, publisher: Id, name: string, items: seq<Item<()>>, seen: set<string>,
    sel: seq<Sub>)
    requires Parse(name).Ok? && WellKept(rels) && Indexed(root, rels) && seen == Scan(rels, name)
    requires forall x :: x in items ==> Parse(Print(x.levels)) == Ok(x.levels)
    requires var t := Parse(name).value;
      forall f :: CountOf(items, f) == if Lookup(root, f) != {} && Matches(f, t) then Times(f, t) else 0
    requires forall s :: s in sel ==> s.filter in seen && MaySee(rels, publisher, s)
    requires forall s: Sub :: s.opts.sharedGroup.None? && MaySee(rels, publisher, s) ==>
      multiset(sel)[s] == multiset(Texts(items))[s.filter]
    ensures Covers(ConsideredOn(rels, publisher, seen), sel)
    ensures Multiplied(ConsideredOn(rels, publisher, seen), Parse(name).value, sel)
  {
    hide Parse; hide Print; hide Matches; hide SpecMatches; hide Split; hide Lookup; hide MaySee; hide CountOf;
    hide Times; hide ConsideredOn;
    forall s ensures s in ConsideredOn(rels, publisher, seen) <==> s.filter in seen && MaySee(rels, publisher, s) {
      ConsideredMember(rels, publisher, seen, s);
    }
    forall s | s in ConsideredOn(rels, publisher, seen) && s.opts.sharedGroup.None?
      ensures Parse(s.filter).Ok? && multiset(sel)[s] == Times(Parse(s.filter).value, Parse(name).value) >= 1
    {
      PrintParse(s.filter);
      SpecOnText(s.filter, name);
      TextCount(items, Parse(s.filter).value);
      AtLeastOnce(Parse(s.filter).value, Parse(name).value);
    }
  }

  lemma AtLeastOnce(f: Topic, t: Topic)
    ensures Times(f, t) >= 1
  {
  }

  /** An ordinary subscription is selected more than once exactly when its filter shares a wildcard with the name. */
  lemma RepeatedIff(considered: set<Sub>, name: Topic, sel: seq<Sub>, s: Sub)
    requires Multiplied(considered, name, sel) && s in considered && s.opts.sharedGroup.None?
    ensures Parse(s.filter).Ok? && (multiset(sel)[s] == 1 <==> !Doubled(Parse(s.filter).value, name))
  {
    hide Parse; hide Doubled; hide Times;
    OnceUnlessDoubled(Parse(s.filter).value, name);
  }

  lemma Beginning(rels: Relations, publisher: Id, choice: Choice)
    ensures SeenFilters([], {}) && CollectAll([]) == map[] && Selection(ConsideredOn(rels, publisher, {}), choice, [])
    ensures FollowsOrder([], [])
  {
    assert ConsideredOn(rels, publisher, {}) == {};
    NothingSelected(choice);
  }

  lemma SameKeysIndexed(root: Node<()>, rels: Relations, rels': Relations)
    requires Indexed(root, rels) && rels.Keys == rels'.Keys
    ensures Indexed(root, rels')
  {
  }
}
