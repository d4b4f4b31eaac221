/**
 Fan-out of one publish: the subscriptions selected for it are collected per broker node. A v3
 client gets one relation per subscription; a v5 client gets a single relation carrying the
 subscription identifiers of all of its subscriptions (section 3.3.4 of MQTT 5.0).
 */
module Delivery {
  import opened Wrappers
  import opened Sequences

  type ClientId = string
  type NodeId = nat
  type Group = string

  /** A session's identity; `session` stands for listener, addresses, user name and creation time. */
  datatype Id = Id(node: NodeId, client: ClientId, session: nat)

  datatype Options =
    | V3(qos: nat, sharedGroup: Option<Group>)
    | V5(qos: nat, sharedGroup: Option<Group>, noLocal: bool, subId: Option<nat>)

  /** One subscription chosen to receive the publish. */
  datatype Sub = Sub(filter: string, client: ClientId, id: Id, opts: Options)

  datatype Relation =
    Relation(filter: string, client: ClientId, opts: Options, ids: Option<seq<nat>>, group: Option<Group>)

  datatype Entry = Entry(filter: string, opts: Options, ids: Option<seq<nat>>, group: Option<Group>)

  datatype Collector = Collector(v3: seq<Relation>, v5: map<ClientId, Entry>)

  const NoRelations := Collector([], map[])

  function AddedIds(ids: Option<seq<nat>>, id: Option<nat>): Option<seq<nat>> {
    match id
    case None => ids
    case Some(x) => Some((if ids.Some? then ids.value else []) + [x])
  }

  function Add(c: Collector, s: Sub): Collector {
    if s.opts.V3? then
      c.(v3 := c.v3 + [Relation(s.filter, s.client, s.opts, None, s.opts.sharedGroup)])
    else if s.client in c.v5 then
      var e := c.v5[s.client];
      c.(v5 := c.v5[s.client := e.(ids := AddedIds(e.ids, s.opts.subId))])
    else
      c.(v5 := c.v5[s.client := Entry(s.filter, s.opts, AddedIds(None, s.opts.subId), s.opts.sharedGroup)])
  }

  function Collect(sel: seq<Sub>): Collector {
    if sel == [] then NoRelations else Add(Collect(sel[..|sel| - 1]), sel[|sel| - 1])
  }

  // ---------------------------------------------------------------------------------------------
  // What is collected
  // ---------------------------------------------------------------------------------------------

  function V3Relation(s: Sub): seq<Relation> {
    if s.opts.V3? then [Relation(s.filter, s.client, s.opts, None, s.opts.sharedGroup)] else []
  }

  function V5Of(client: ClientId): Sub -> seq<Sub> {
    (s: Sub) => if s.opts.V5? && s.client == client then [s] else []
  }

  function IdOf(client: ClientId): Sub -> seq<nat> {
    (s: Sub) => if s.opts.V5? && s.client == client && s.opts.subId.Some? then [s.opts.subId.value] else []
  }

  function AsIds(ids: seq<nat>): Option<seq<nat>> { if ids == [] then None else Some(ids) }

  /** A v5 client's entry: the first subscription's filter and options, everybody's identifiers. */
  predicate V5Entry(sel: seq<Sub>, client: ClientId, e: Entry) {
    var own := FlatMap(V5Of(client), sel);
    && own != []
    && e.filter == own[0].filter && e.opts == own[0].opts && e.group == own[0].opts.sharedGroup
    && e.ids == AsIds(FlatMap(IdOf(client), sel))
  }

  ghost predicate Collected(sel: seq<Sub>, c: Collector) {
    && c.v3 == FlatMap(V3Relation, sel)
    && (forall k :: k in c.v5 <==> FlatMap(V5Of(k), sel) != [])
    && (forall k :: k in c.v5 ==> V5Entry(sel, k, c.v5[k]))
  }

  lemma V5Append(sel: seq<Sub>, s: Sub, k: ClientId)
    ensures FlatMap(V5Of(k), sel + [s]) == FlatMap(V5Of(k), sel) + V5Of(k)(s)
    ensures FlatMap(IdOf(k), sel + [s]) == FlatMap(IdOf(k), sel) + IdOf(k)(s)
  {
    FlatMapAppend(V5Of(k), sel, s);
    FlatMapAppend(IdOf(k), sel, s);
  }

  lemma AddedIdsMeans(ids: seq<nat>, id: Option<nat>)
    ensures AddedIds(AsIds(ids), id) == AsIds(ids + if id.Some? then [id.value] else [])
  {
    assert ids + [] == ids;
  }

  lemma {:induction false} NoSubsNoIds(sel: seq<Sub>, k: ClientId)
    ensures FlatMap(V5Of(k), sel) == [] ==> FlatMap(IdOf(k), sel) == []
    decreases |sel|
  {
    if sel != [] { NoSubsNoIds(sel[..|sel| - 1], k); }
  }

  /** One client's entry after one addition. */
  lemma AddOne(sel: seq<Sub>, c: Collector, s: Sub, k: ClientId)
    requires k in c.v5 <==> FlatMap(V5Of(k), sel) != []
    requires k in c.v5 ==> V5Entry(sel, k, c.v5[k])
    ensures k in Add(c, s).v5 <==> FlatMap(V5Of(k), sel + [s]) != []
    ensures k in Add(c, s).v5 ==> V5Entry(sel + [s], k, Add(c, s).v5[k])
  {
    V5Append(sel, s, k);
    var own, ids := FlatMap(V5Of(k), sel), FlatMap(IdOf(k), sel);
    hide FlatMap;
    if s.opts.V5? && s.client == k {
      AddedIdsMeans(ids, s.opts.subId);
      NoSubsNoIds(sel, k);
      if own == [] {
        assert own + [s] == [s];
      } else {
        assert (own + [s])[0] == own[0];
      }
    } else {
      assert own + [] == own && ids + [] == ids;
    }
  }

  lemma AddCollects(sel: seq<Sub>, c: Collector, s: Sub)
    requires Collected(sel, c)
    ensures Collected(sel + [s], Add(c, s))
  {
    FlatMapAppend(V3Relation, sel, s);
    forall k
      ensures k in Add(c, s).v5 <==> FlatMap(V5Of(k), sel + [s]) != []
      ensures k in Add(c, s).v5 ==> V5Entry(sel + [s], k, Add(c, s).v5[k])
    {
      hide FlatMap; hide V5Entry; hide Add;
      AddOne(sel, c, s, k);
    }
  }

  /** After any sequence of additions: v3 one relation each, v5 one entry per client with all ids. */
  lemma {:induction false} CollectExact(sel: seq<Sub>)
    ensures Collected(sel, Collect(sel))
    decreases |sel|
  {
    if sel != [] {
      var k := |sel| - 1;
      CollectExact(sel[..k]);
      AddCollects(sel[..k], Collect(sel[..k]), sel[k]);
      assert sel[..k] + [sel[k]] == sel;
    }
  }

  // ---------------------------------------------------------------------------------------------
  // Order of addition does not matter
  // ---------------------------------------------------------------------------------------------

  /** The subscription whose filter and options a v5 client's relation carries. */
  function First(sel: seq<Sub>, client: ClientId): Sub
    requires FlatMap(V5Of(client), sel) != []
  {
    FlatMap(V5Of(client), sel)[0]
  }

  /**
   Two orders of the same selection give the same v3 relations, v5 clients and identifiers. The
   filter and options of a v5 relation are those of its client's first subscription, so they agree
   exactly when the two orders begin with the same ones.
   */
  lemma OrderIrrelevant(a: seq<Sub>, b: seq<Sub>)
    requires multiset(a) == multiset(b)
    ensures multiset(Collect(a).v3) == multiset(Collect(b).v3)
    ensures Collect(a).v5.Keys == Collect(b).v5.Keys
    ensures forall k :: k in Collect(a).v5 ==>
      IdBag(Collect(a).v5[k].ids) == IdBag(Collect(b).v5[k].ids)
    ensures forall k :: k in Collect(a).v5 ==>
      && FlatMap(V5Of(k), a) != [] && FlatMap(V5Of(k), b) != []
      && (Collect(a).v5[k].filter == Collect(b).v5[k].filter <==> First(a, k).filter == First(b, k).filter)
      && (Collect(a).v5[k].opts == Collect(b).v5[k].opts <==> First(a, k).opts == First(b, k).opts)
  {
    hide FlatMap; hide Collect; hide V5Of; hide IdOf;
    CollectExact(a);
    CollectExact(b);
    FlatMapPermuted(V3Relation, a, b);
    forall k
      ensures k in Collect(a).v5 <==> k in Collect(b).v5
      ensures k in Collect(a).v5 ==> IdBag(Collect(a).v5[k].ids) == IdBag(Collect(b).v5[k].ids)
      ensures k in Collect(a).v5 ==> V5Entry(a, k, Collect(a).v5[k]) && V5Entry(b, k, Collect(b).v5[k])
    {
      FlatMapPermuted(V5Of(k), a, b);
      FlatMapPermuted(IdOf(k), a, b);
      if k in Collect(a).v5 { assert V5Entry(a, k, Collect(a).v5[k]); }
      if k in Collect(b).v5 { assert V5Entry(b, k, Collect(b).v5[k]); }
    }
  }

  function Min(a: nat, b: nat): nat { if a <= b then a else b }

  /** The highest QoS granted to any of the subscriptions. */
  function MaxQos(subs: seq<Sub>): (q: nat)
    requires subs != []
    ensures (forall s :: s in subs ==> s.opts.qos <= q) && exists s :: s in subs && s.opts.qos == q
  {
    var last := subs[|subs| - 1];
    if |subs| == 1 then last.opts.qos
    else
      var q := MaxQos(subs[..|subs| - 1]);
      assert forall s :: s in subs ==> s in subs[..|subs| - 1] || s == last;
      if last.opts.qos > q then last.opts.qos else q
  }

  /**
   Section 3.3.4 of MQTT 5.0 wants overlapping subscriptions served at the highest of their QoS. The
   relation carries the first one's, so the message goes out at the right QoS exactly when the
   publish asks for no more than the first grants, or no other subscription grants more.
   */
  lemma QosIsMaximalIff(sel: seq<Sub>, client: ClientId, publishQos: nat)
    requires client in Collect(sel).v5
    ensures var own := FlatMap(V5Of(client), sel);
      && own != []
      && (Min(publishQos, Collect(sel).v5[client].opts.qos) == Min(publishQos, MaxQos(own)) <==>
            publishQos <= own[0].opts.qos || forall s :: s in own ==> s.opts.qos <= own[0].opts.qos)
  {
    CollectExact(sel);
    hide FlatMap; hide Collect;
    var own := FlatMap(V5Of(client), sel);
    assert V5Entry(sel, client, Collect(sel).v5[client]);
    var top :| top in own && top.opts.qos == MaxQos(own);
    assert own[0] in own;
  }

  function IdBag(ids: Option<seq<nat>>): multiset<nat> { multiset(if ids.Some? then ids.value else []) }

  // ---------------------------------------------------------------------------------------------
  // One collector per node, and the list handed to delivery
  // ---------------------------------------------------------------------------------------------

  type Collectors = map<NodeId, Collector>

  function AddTo(cs: Collectors, s: Sub): Collectors {
    cs[s.id.node := Add(if s.id.node in cs then cs[s.id.node] else NoRelations, s)]
  }

  function CollectAll(sel: seq<Sub>): Collectors {
    if sel == [] then map[] else AddTo(CollectAll(sel[..|sel| - 1]), sel[|sel| - 1])
  }

  function OnNode(node: NodeId): Sub -> seq<Sub> { (s: Sub) => if s.id.node == node then [s] else [] }

  /** Each node's collector is that of the selected subscriptions living on it. */
  lemma {:induction false} CollectAllSplits(sel: seq<Sub>, node: NodeId)
    ensures node in CollectAll(sel) <==> FlatMap(OnNode(node), sel) != []
    ensures node in CollectAll(sel) ==> CollectAll(sel)[node] == Collect(FlatMap(OnNode(node), sel))
    decreases |sel|
  {
    if sel != [] {
      var k := |sel| - 1;
      CollectAllSplits(sel[..k], node);
      var before, s := FlatMap(OnNode(node), sel[..k]), sel[k];
      if s.id.node == node {
        assert (before + [s])[..|before|] == before;
        assert FlatMap(OnNode(node), sel) == before + [s];
      } else {
        assert FlatMap(OnNode(node), sel) == before + [] == before;
      }
    }
  }

  function EntryRelation(client: ClientId, e: Entry): Relation {
    Relation(e.filter, client, e.opts, e.ids, e.group)
  }

  /** The v3 relations, then one relation per v5 client in any order. */
  ghost predicate Listed(c: Collector, rels: seq<Relation>) {
    && c.v3 <= rels
    && var v5 := rels[|c.v3|..];
       && (forall i, j :: 0 <= i < j < |v5| ==> v5[i].client != v5[j].client)
       && (forall r :: r in v5 <==> r.client in c.v5 && r == EntryRelation(r.client, c.v5[r.client]))
  }

  method IntoRelations(c: Collector) returns (rels: seq<Relation>)
    ensures Listed(c, rels)
  {
    var v5: seq<Relation> := [];
    var todo := c.v5.Keys;
    while todo != {}
      invariant todo <= c.v5.Keys
      invariant forall i, j :: 0 <= i < j < |v5| ==> v5[i].client != v5[j].client
      invariant forall r :: r in v5 <==>
        r.client in c.v5 && r.client !in todo && r == EntryRelation(r.client, c.v5[r.client])
      decreases |todo|
    {
      var k :| k in todo;
      assert forall i :: 0 <= i < |v5| ==> v5[i] in v5;
      v5 := v5 + [EntryRelation(k, c.v5[k])];
      todo := todo - {k};
    }
    rels := c.v3 + v5;
    assert rels[|c.v3|..] == v5;
  }

  lemma V5OfIsV5(sel: seq<Sub>, client: ClientId)
    ensures forall x :: x in FlatMap(V5Of(client), sel) ==> x.opts.V5?
  {
    forall x | x in FlatMap(V5Of(client), sel) ensures x.opts.V5? {
      FlatMapMember(V5Of(client), sel, x);
    }
  }

  lemma V3RelationsAreV3(sel: seq<Sub>)
    ensures forall x :: x in FlatMap(V3Relation, sel) ==> x.opts.V3?
  {
    forall x | x in FlatMap(V3Relation, sel) ensures x.opts.V3? {
      FlatMapMember(V3Relation, sel, x);
    }
  }

  predicate IsV5For(r: Relation, client: ClientId) { r.opts.V5? && r.client == client }

  /**
   What one node's clients get: the v3 relations are one per selected subscription, and a v5 client
   has exactly one relation, with all of its identifiers and the filter, options and group of its
   first subscription, exactly when it has a selected subscription.
   */
  lemma FanOut(here: seq<Sub>, rels: seq<Relation>, client: ClientId)
    requires Listed(Collect(here), rels)
    ensures var v3 := FlatMap(V3Relation, here); v3 <= rels && forall i :: |v3| <= i < |rels| ==> rels[i].opts.V5?
    ensures (exists i :: 0 <= i < |rels| && IsV5For(rels[i], client)) <==> FlatMap(V5Of(client), here) != []
    ensures forall i, j :: 0 <= i < j < |rels| && IsV5For(rels[i], client) ==> !IsV5For(rels[j], client)
    ensures forall i :: 0 <= i < |rels| && IsV5For(rels[i], client) ==>
      && rels[i].ids == AsIds(FlatMap(IdOf(client), here))
      && FlatMap(V5Of(client), here) != []
      && rels[i].filter == First(here, client).filter && rels[i].opts == First(here, client).opts
      && rels[i].group == First(here, client).opts.sharedGroup
  {
    hide FlatMap; hide Collect;
    var c := Collect(here);
    CollectExact(here);
    ListedTail(here, c, rels);
    hide Listed;
    if client in c.v5 {
      ListedClient(c, rels, client);
      var i :| |c.v3| <= i < |rels| && rels[i] == EntryRelation(client, c.v5[client]);
      assert IsV5For(rels[i], client);
    }
    forall i | 0 <= i < |rels| && IsV5For(rels[i], client)
      ensures i >= |c.v3| && client in c.v5 && V5Entry(here, client, c.v5[client])
    {
    }
  }

  predicate Reaches(rels: seq<Relation>, client: ClientId) {
    exists i :: 0 <= i < |rels| && rels[i].client == client
  }

  /** Whatever the versions: a client is on the list exactly when one of its subscriptions was selected. */
  lemma {:induction false} ReachesExactly(here: seq<Sub>, rels: seq<Relation>, client: ClientId)
    requires Listed(Collect(here), rels)
    ensures Reaches(rels, client) <==> exists j :: 0 <= j < |here| && here[j].client == client
  {
    hide FlatMap; hide Collect; hide Listed;
    FanOut(here, rels, client);
    var v3, v5 := FlatMap(V3Relation, here), FlatMap(V5Of(client), here);
    if i :| 0 <= i < |rels| && rels[i].client == client {
      if i < |v3| {
        assert rels[i] == v3[i] && v3[i] in v3;
        FlatMapMember(V3Relation, here, rels[i]);
      } else {
        assert IsV5For(rels[i], client) && v5[0] in v5;
        FlatMapMember(V5Of(client), here, v5[0]);
      }
    }
    if j :| 0 <= j < |here| && here[j].client == client {
      if here[j].opts.V3? {
        var r := V3Relation(here[j])[0];
        FlatMapMember(V3Relation, here, r);
        var i :| 0 <= i < |v3| && v3[i] == r;
        assert rels[i].client == client;
      } else {
        assert here[j] in V5Of(client)(here[j]);
        FlatMapMember(V5Of(client), here, here[j]);
      }
    }
  }

  /** A relation says what its subscription says: filter, client, options and group. */
  predicate SpeaksFor(r: Relation, s: Sub) {
    && r.filter == s.filter && r.client == s.client && r.opts == s.opts && r.group == s.opts.sharedGroup
    && (s.opts.V3? ==> r.ids == None)
  }

  /** Every relation handed out speaks for a selected subscription. */
  lemma {:induction false} RelationSpeaks(here: seq<Sub>, rels: seq<Relation>, i: nat) returns (j: nat)
    requires Listed(Collect(here), rels) && i < |rels|
    ensures j < |here| && SpeaksFor(rels[i], here[j])
  {
    hide FlatMap; hide Collect; hide Listed;
    var r := rels[i];
    FanOut(here, rels, r.client);
    var v3, v5 := FlatMap(V3Relation, here), FlatMap(V5Of(r.client), here);
    if i < |v3| {
      assert r == v3[i] && v3[i] in v3;
      FlatMapMember(V3Relation, here, r);
      j :| 0 <= j < |here| && r in V3Relation(here[j]);
    } else {
      assert IsV5For(r, r.client) && v5[0] in v5;
      FlatMapMember(V5Of(r.client), here, v5[0]);
      j :| 0 <= j < |here| && v5[0] in V5Of(r.client)(here[j]);
    }
  }

  lemma CollectedParts(here: seq<Sub>, c: Collector)
    requires Collected(here, c)
    ensures c.v3 == FlatMap(V3Relation, here) && forall k :: k in c.v5 ==> V5Entry(here, k, c.v5[k])
  {
  }

  lemma EntryIsV5(here: seq<Sub>, client: ClientId, e: Entry)
    requires V5Entry(here, client, e)
    ensures e.opts.V5?
  {
    hide FlatMap;
    V5OfIsV5(here, client);
    assert FlatMap(V5Of(client), here)[0] in FlatMap(V5Of(client), here);
  }

  lemma ListedTail(here: seq<Sub>, c: Collector, rels: seq<Relation>)
    requires Listed(c, rels) && Collected(here, c)
    ensures c.v3 <= rels && forall i :: 0 <= i < |c.v3| ==> rels[i].opts.V3?
    ensures forall i :: |c.v3| <= i < |rels| ==>
      rels[i].opts.V5? && rels[i].client in c.v5 && rels[i] == EntryRelation(rels[i].client, c.v5[rels[i].client])
    ensures forall i, j :: |c.v3| <= i < j < |rels| ==> rels[i].client != rels[j].client
  {
    hide FlatMap; hide V5Entry; hide Collected;
    var n := |c.v3|;
    CollectedParts(here, c);
    V3RelationsAreV3(here);
    forall i | n <= i < |rels|
      ensures rels[i].opts.V5? && rels[i].client in c.v5 &&
        rels[i] == EntryRelation(rels[i].client, c.v5[rels[i].client])
    {
      assert rels[n..][i - n] == rels[i] && rels[i] in rels[n..];
      EntryIsV5(here, rels[i].client, c.v5[rels[i].client]);
    }
    forall i | 0 <= i < n ensures rels[i].opts.V3? { assert rels[i] == c.v3[i] && c.v3[i] in c.v3; }
    forall i, j | n <= i < j < |rels| ensures rels[i].client != rels[j].client {
      assert rels[n..][i - n] == rels[i] && rels[n..][j - n] == rels[j];
    }
  }

  lemma ListedClient(c: Collector, rels: seq<Relation>, client: ClientId)
    requires Listed(c, rels) && client in c.v5
    ensures exists i :: |c.v3| <= i < |rels| && rels[i] == EntryRelation(client, c.v5[client])
  {
    var n, r := |c.v3|, EntryRelation(client, c.v5[client]);
    assert r in rels[n..];
    var i :| 0 <= i < |rels[n..]| && rels[n..][i] == r;
    assert rels[n + i] == r;
  }
}
