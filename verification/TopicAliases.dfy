/**
 Topic aliases (section 3.3.2.3.4 of MQTT 5.0): the sending side replaces topics it has already
 announced by a number, the receiving side turns numbers back into topics.
 */
module TopicAliases {
  import opened Wrappers

  type Alias = a: int | 1 <= a <= 65535 witness 1
  type Max = m: int | 0 <= m <= 65535

  datatype AliasError = UnknownAlias | TooManyAliases | NothingGiven

  /** What the sender puts on the wire: a topic, an alias, or both. */
  datatype Wire = Wire(topic: Option<string>, alias: Option<Alias>)

  /** Announce a new topic while numbers are left; send the number alone afterwards. */
  function Get(max: Max, table: map<string, Alias>, topic: string): (map<string, Alias>, Wire) {
    if max == 0 then (table, Wire(Some(topic), None))
    else if topic in table then (table, Wire(None, Some(table[topic])))
    else if |table| >= max then (table, Wire(Some(topic), None))
    else
      var alias: Alias := |table| + 1;
      (table[topic := alias], Wire(Some(topic), Some(alias)))
  }

  /** Resolve an alias, or learn it. An absent topic arrives as the empty string. */
  function SetAndGet(max: Max, table: map<Alias, string>, alias: Option<Alias>, topic: string):
    Result<(map<Alias, string>, string), AliasError> {
    match alias
    case Some(a) =>
      if topic == "" then
        if a in table then Ok((table, table[a])) else Err(UnknownAlias)
      else if a in table then Ok((table[a := topic], topic))
      else if |table| >= max then Err(TooManyAliases)
      else Ok((table[a := topic], topic))
    case None => if topic == "" then Err(NothingGiven) else Ok((table, topic))
  }

  function OnWire(w: Wire): string { if w.topic.Some? then w.topic.value else "" }

  /** Send topics through both tables; what the receiver reads, or the first error. */
  function Relay(maxS: Max, maxC: Max, server: map<string, Alias>, client: map<Alias, string>, topics: seq<string>):
    Result<seq<string>, AliasError>
    decreases |topics|
  {
    if topics == [] then Ok([])
    else
      var (server', w) := Get(maxS, server, topics[0]);
      match SetAndGet(maxC, client, w.alias, OnWire(w))
      case Err(e) => Err(e)
      case Ok((client', read)) =>
        match Relay(maxS, maxC, server', client', topics[1..])
        case Err(e) => Err(e)
        case Ok(more) => Ok([read] + more)
  }

  /** The sender's numbers are exactly 1 up to the number of entries, one each. */
  ghost predicate Dense(server: map<string, Alias>) {
    && (forall t, u :: t in server && u in server && server[t] == server[u] ==> t == u)
    && (forall a: Alias :: Issued(server, a) <==> a <= |server|)
  }

  predicate Issued(server: map<string, Alias>, a: Alias) { exists t :: t in server && server[t] == a }

  /** The receiver's table is the sender's, inverted. */
  ghost predicate Inverse(server: map<string, Alias>, client: map<Alias, string>) {
    && |client| == |server|
    && (forall a: Alias :: a in client <==> a <= |server|)
    && (forall t :: t in server ==> server[t] in client && client[server[t]] == t)
  }

  lemma GetKeepsDense(max: Max, server: map<string, Alias>, topic: string)
    requires Dense(server) && |server| <= max
    ensures var (server', w) := Get(max, server, topic); Dense(server') && |server'| <= max
  {
    var (server', w) := Get(max, server, topic);
    if server' != server {
      var alias: Alias := |server| + 1;
      OneMore(server, topic, alias);
      assert forall t :: t in server ==> Issued(server, server[t]);
      forall a: Alias ensures Issued(server', a) <==> a <= |server'| {
        if a == alias { assert server'[topic] == a; }
        if Issued(server, a) {
          var t :| t in server && server[t] == a;
          assert server'[t] == a;
        }
      }
    }
  }

  /** One topic: the receiver reads it, and the tables stay inverse. */
  lemma RelayOne(maxS: Max, maxC: Max, server: map<string, Alias>, client: map<Alias, string>, topic: string)
    requires Dense(server) && |server| <= maxS <= maxC && Inverse(server, client) && topic != ""
    ensures var (server', w) := Get(maxS, server, topic);
      var r := SetAndGet(maxC, client, w.alias, OnWire(w));
      r.Ok? && r.value.1 == topic && Inverse(server', r.value.0)
  {
    if topic in server {
    } else if 0 < maxS && |server| < maxS {
      var alias: Alias := |server| + 1;
      assert alias !in client;
      InverseGrows(server, client, topic, alias);
    }
  }

  lemma OneMore<K, V>(m: map<K, V>, k: K, v: V)
    requires k !in m
    ensures |m[k := v]| == |m| + 1
  {
    assert m[k := v].Keys == m.Keys + {k};
    assert |m[k := v]| == |m[k := v].Keys|;
  }

  lemma InverseGrows(server: map<string, Alias>, client: map<Alias, string>, topic: string, alias: Alias)
    requires Inverse(server, client) && topic !in server && alias == |server| + 1
    ensures Inverse(server[topic := alias], client[alias := topic])
  {
    var server', client' := server[topic := alias], client[alias := topic];
    assert alias !in client;
    OneMore(server, topic, alias);
    OneMore(client, alias, topic);
    forall a: Alias ensures a in client' <==> a <= |server'| { assert a in client <==> a <= |server|; }
    forall t | t in server' ensures server'[t] in client' && client'[server'[t]] == t {
      if t != topic { assert server[t] in client; }
    }
  }

  lemma {:induction false} RelayFrom(
    maxS: Max, maxC: Max, server: map<string, Alias>, client: map<Alias, string>, topics: seq<string>)
    requires Dense(server) && |server| <= maxS <= maxC && Inverse(server, client)
    requires forall i :: 0 <= i < |topics| ==> topics[i] != ""
    ensures Relay(maxS, maxC, server, client, topics) == Ok(topics)
    decreases |topics|
  {
    hide Dense; hide Inverse; hide Get; hide SetAndGet;
    if topics != [] {
      GetKeepsDense(maxS, server, topics[0]);
      RelayOne(maxS, maxC, server, client, topics[0]);
      var (server', w) := Get(maxS, server, topics[0]);
      var client' := SetAndGet(maxC, client, w.alias, OnWire(w)).value.0;
      RelayFrom(maxS, maxC, server', client', topics[1..]);
      assert [topics[0]] + topics[1..] == topics;
    }
  }

  /** From empty tables, every sequence of non-empty topics arrives unchanged and without error. */
  lemma AliasesInvert(maxS: Max, maxC: Max, topics: seq<string>)
    requires maxS <= maxC && forall i :: 0 <= i < |topics| ==> topics[i] != ""
    ensures Relay(maxS, maxC, map[], map[], topics) == Ok(topics)
  {
    RelayFrom(maxS, maxC, map[], map[], topics);
  }

  // ---------------------------------------------------------------------------------------------
  // What every sequence of calls answers, from the calls alone
  // ---------------------------------------------------------------------------------------------

  datatype Call = Call(alias: Option<Alias>, topic: string, answer: Result<string, AliasError>)

  /** The receiving table after the requests `asked`, with the log of its answers. */
  function Resolved(max: Max, asked: seq<(Option<Alias>, string)>): (map<Alias, string>, seq<Call>) {
    if asked == [] then (map[], [])
    else
      var (table, log) := Resolved(max, asked[..|asked| - 1]);
      var (alias, topic) := asked[|asked| - 1];
      match SetAndGet(max, table, alias, topic)
      case Err(e) => (table, log + [Call(alias, topic, Err(e))])
      case Ok((table', read)) => (table', log + [Call(alias, topic, Ok(read))])
  }

  /** A successful call that gave the alias a topic. */
  predicate Binds(c: Call, a: Alias) { c.alias == Some(a) && c.topic != "" && c.answer.Ok? }

  function Bound(log: seq<Call>): set<Alias> {
    set i | 0 <= i < |log| && log[i].alias.Some? && log[i].topic != "" && log[i].answer.Ok? :: log[i].alias.value
  }

  /** Call `i` is the latest to bind the alias. */
  predicate Latest(log: seq<Call>, a: Alias, i: int) {
    0 <= i < |log| && Binds(log[i], a) && forall j :: i < j < |log| ==> !Binds(log[j], a)
  }

  /** The answer to a call, from the calls before it. */
  ghost predicate Justified(max: Max, before: seq<Call>, c: Call) {
    match c.alias
    case None => c.answer == if c.topic == "" then Err(NothingGiven) else Ok(c.topic)
    case Some(a) =>
      if c.topic != "" then
        c.answer == if a !in Bound(before) && |Bound(before)| >= max then Err(TooManyAliases) else Ok(c.topic)
      else if a in Bound(before) then exists i :: Latest(before, a, i) && c.answer == Ok(before[i].topic)
      else c.answer == Err(UnknownAlias)
  }

  /** The table holds each bound alias with the topic of its latest binding. */
  ghost predicate Remembers(table: map<Alias, string>, log: seq<Call>) {
    table.Keys == Bound(log) && forall a :: a in table ==> exists i :: Latest(log, a, i) && table[a] == log[i].topic
  }

  lemma BoundGrows(log: seq<Call>, c: Call)
    ensures Bound(log + [c]) ==
      Bound(log) + if c.alias.Some? && c.topic != "" && c.answer.Ok? then {c.alias.value} else {}
  {
    var all := log + [c];
    assert forall i :: 0 <= i < |log| ==> all[i] == log[i];
    assert all[|log|] == c;
    forall a | a in Bound(log) ensures a in Bound(all) {
      var i :| 0 <= i < |log| && Binds(log[i], a);
      assert Binds(all[i], a);
    }
  }

  lemma RemembersGrows(table: map<Alias, string>, log: seq<Call>, c: Call, table': map<Alias, string>)
    requires Remembers(table, log)
    requires table' == if c.alias.Some? && c.topic != "" && c.answer.Ok? then table[c.alias.value := c.topic] else table
    ensures Remembers(table', log + [c])
  {
    BoundGrows(log, c);
    hide Bound;
    var all := log + [c];
    assert all[|log|] == c;
    forall a | a in table' ensures exists i :: Latest(all, a, i) && table'[a] == all[i].topic {
      if Binds(c, a) {
        assert Latest(all, a, |log|);
      } else {
        var i :| Latest(log, a, i) && table[a] == log[i].topic;
        assert all[i] == log[i] && Latest(all, a, i);
      }
    }
  }

  lemma AnswerJustified(max: Max, table: map<Alias, string>, log: seq<Call>, alias: Option<Alias>, topic: string)
    requires Remembers(table, log)
    ensures match SetAndGet(max, table, alias, topic)
      case Err(e) => Justified(max, log, Call(alias, topic, Err(e)))
      case Ok((table', read)) =>
        var c := Call(alias, topic, Ok(read));
        && Justified(max, log, c)
        && table' == if c.alias.Some? && c.topic != "" then table[c.alias.value := c.topic] else table
  {
    assert |table.Keys| == |table|;
    hide Bound;
  }

  /** One more request adds one call to the log, justified by those before it. */
  lemma ResolvedStep(max: Max, asked: seq<(Option<Alias>, string)>) returns (c: Call)
    requires asked != [] && var (table, log) := Resolved(max, asked[..|asked| - 1]); Remembers(table, log)
    ensures var (table, log) := Resolved(max, asked);
      var before := Resolved(max, asked[..|asked| - 1]).1;
      && Remembers(table, log) && log == before + [c]
      && (c.alias, c.topic) == asked[|asked| - 1] && Justified(max, before, c)
  {
    hide SetAndGet; hide Justified; hide Remembers;
    var n := |asked| - 1;
    var (table, log) := Resolved(max, asked[..n]);
    var (table', log') := Resolved(max, asked);
    c := log'[|log|];
    AnswerJustified(max, table, log, asked[n].0, asked[n].1);
    RemembersGrows(table, log, c, table');
  }

  /**
   Over every sequence of calls, whatever the peer sends: an empty topic is answered by the topic of
   the latest successful call that bound its alias and fails exactly when there was none; a new
   alias is refused exactly when as many distinct ones are bound as are allowed.
   */
  lemma {:induction false} AliasHistory(max: Max, asked: seq<(Option<Alias>, string)>)
    ensures var (table, log) := Resolved(max, asked);
      && |log| == |asked| && Remembers(table, log)
      && forall k :: 0 <= k < |log| ==>
           (log[k].alias, log[k].topic) == asked[k] && Justified(max, log[..k], log[k])
    decreases |asked|
  {
    hide Justified; hide Remembers;
    if asked == [] {
      NothingRemembered();
    } else {
      hide Resolved;
      var n := |asked| - 1;
      AliasHistory(max, asked[..n]);
      var log, log' := Resolved(max, asked[..n]).1, Resolved(max, asked).1;
      var c := ResolvedStep(max, asked);
      forall k | 0 <= k < |log'|
        ensures (log'[k].alias, log'[k].topic) == asked[k] && Justified(max, log'[..k], log'[k])
      {
        if k < n { assert log'[..k] == log[..k] && log'[k] == log[k]; } else { assert log'[..k] == log; }
      }
    }
  }

  lemma NothingRemembered()
    ensures Remembers(map[], [])
  {
  }

  /** The sending table after `topics`, with what it put on the wire. */
  function Announced(max: Max, topics: seq<string>): (map<string, Alias>, seq<Wire>) {
    if topics == [] then (map[], [])
    else
      var (table, wires) := Announced(max, topics[..|topics| - 1]);
      var (table', w) := Get(max, table, topics[|topics| - 1]);
      (table', wires + [w])
  }

  /** How many distinct topics there are among the first `n`. */
  function Distinct(topics: seq<string>, n: nat): nat
    requires n <= |topics|
  {
    |set t | t in topics[..n]|
  }

  /** Position `i` is where the topic at `k` first came. */
  predicate First(topics: seq<string>, i: nat, k: nat) {
    i <= k < |topics| && topics[i] == topics[k] && forall j :: 0 <= j < i ==> topics[j] != topics[k]
  }

  /** What goes on the wire for a topic that was the `d + 1`st to come, new or not. */
  predicate WireFor(max: Max, w: Wire, topic: string, d: nat, isNew: bool) {
    if d >= max then w == Wire(Some(topic), None)
    else w.topic == (if isNew then Some(topic) else None) && w.alias.Some? && w.alias.value == d + 1
  }

  /** The table numbers the first `max` distinct topics in order of appearance. */
  ghost predicate Numbered(max: Max, table: map<string, Alias>, topics: seq<string>) {
    && |table| == (if Distinct(topics, |topics|) < max then Distinct(topics, |topics|) else max)
    && (forall t :: t in table ==> t in topics)
    && forall i: nat, k: nat :: First(topics, i, k) ==>
         if Distinct(topics, i) < max then topics[k] in table && table[topics[k]] == Distinct(topics, i) + 1
         else topics[k] !in table
  }

  lemma DistinctInit(topics: seq<string>, n: nat, i: nat)
    requires i <= n <= |topics|
    ensures Distinct(topics[..n], i) == Distinct(topics, i)
  {
    assert topics[..n][..i] == topics[..i];
  }

  lemma DistinctNext(topics: seq<string>, n: nat)
    requires n < |topics|
    ensures Distinct(topics, n + 1) == Distinct(topics, n) + if topics[n] in topics[..n] then 0 else 1
  {
    var first, more := topics[..n], topics[..n + 1];
    assert more == first + [topics[n]];
    assert (set t | t in more) == (set t | t in first) + {topics[n]};
  }

  lemma {:induction false} DistinctMonotone(topics: seq<string>, i: nat, n: nat)
    requires i <= n <= |topics|
    ensures Distinct(topics, i) <= Distinct(topics, n)
    decreases n - i
  {
    hide Distinct;
    if i < n {
      DistinctNext(topics, n - 1);
      DistinctMonotone(topics, i, n - 1);
    }
  }

  lemma FirstOf(topics: seq<string>, k: nat) returns (i: nat)
    requires k < |topics|
    ensures First(topics, i, k)
  {
    i := 0;
    while topics[i] != topics[k]
      invariant i <= k && forall j :: 0 <= j < i ==> topics[j] != topics[k]
      decreases k - i
    {
      i := i + 1;
    }
  }

  lemma FirstInit(topics: seq<string>, n: nat, i: nat, k: nat)
    requires n <= |topics| && k < n
    ensures First(topics[..n], i, k) <==> First(topics, i, k)
  {
  }

  lemma FirstUnique(topics: seq<string>, i: nat, k: nat, i': nat, k': nat)
    requires First(topics, i, k) && First(topics, i', k') && topics[k] == topics[k']
    ensures i == i'
  {
  }

  /** One more topic: what goes on the wire, and the table stays numbered. */
  lemma AnnounceOne(max: Max, table: map<string, Alias>, topics: seq<string>, i: nat)
    requires topics != [] && Numbered(max, table, topics[..|topics| - 1]) && First(topics, i, |topics| - 1)
    ensures var n := |topics| - 1;
      var (table', w) := Get(max, table, topics[n]);
      Numbered(max, table', topics) && WireFor(max, w, topics[n], Distinct(topics, i), i == n)
  {
    hide Distinct;
    var n := |topics| - 1;
    var init := topics[..n];
    var (table', w) := Get(max, table, topics[n]);
    DistinctNext(topics, n);
    DistinctInit(topics, n, n);
    DistinctInit(topics, n, i);
    DistinctMonotone(topics, i, n);
    if i < n {
      assert First(init, i, i) && topics[n] == init[i];
    } else {
      assert topics[n] !in init;
      if |table| < max { OneMore(table, topics[n], |table| + 1); }
    }
    forall j: nat, k: nat | First(topics, j, k)
      ensures if Distinct(topics, j) < max then topics[k] in table' && table'[topics[k]] == Distinct(topics, j) + 1
              else topics[k] !in table'
    {
      DistinctInit(topics, n, j);
      if topics[k] == topics[n] {
        FirstUnique(topics, j, k, i, n);
      } else {
        FirstInit(topics, n, j, k);
      }
    }
  }

  /**
   Over every sequence of topics: the first `max` distinct ones are numbered from 1 in order of
   appearance, announced with their number the first time and sent as the number alone after that;
   every later topic is always sent as it is.
   */
  lemma {:induction false} AnnouncedInOrder(max: Max, topics: seq<string>)
    ensures var (table, wires) := Announced(max, topics);
      && |wires| == |topics| && Numbered(max, table, topics)
      && forall i: nat, k: nat :: First(topics, i, k) ==>
           WireFor(max, wires[k], topics[k], Distinct(topics, i), i == k)
    decreases |topics|
  {
    hide Get; hide WireFor; hide Distinct;
    if topics == [] {
      assert Numbered(max, map[], []) by { NothingNumbered(max); }
    } else {
      hide Numbered;
      var n := |topics| - 1;
      AnnouncedInOrder(max, topics[..n]);
      var (table, wires) := Announced(max, topics[..n]);
      var wires' := Announced(max, topics).1;
      var last := FirstOf(topics, n);
      AnnounceOne(max, table, topics, last);
      forall i: nat, k: nat | First(topics, i, k)
        ensures WireFor(max, wires'[k], topics[k], Distinct(topics, i), i == k)
      {
        DistinctInit(topics, n, i);
        if k < n { FirstInit(topics, n, i, k); } else { FirstUnique(topics, i, k, last, n); }
      }
    }
  }

  lemma NothingNumbered(max: Max)
    ensures Numbered(max, map[], [])
  {
  }

  // ---------------------------------------------------------------------------------------------
  // The objects
  // ---------------------------------------------------------------------------------------------

  class ServerTopicAliases {
    const max: Max
    var aliases: map<string, Alias>

    ghost predicate Valid() reads this { Dense(aliases) && |aliases| <= max }

    constructor (max: Max)
      ensures Valid() && this.max == max && aliases == map[]
    {
      this.max, aliases := max, map[];
    }

    /** The next number never wraps to zero, so the branch for that is dead. */
    method Next(topic: string) returns (w: Wire)
      requires Valid()
      modifies this
      ensures Valid() && (aliases, w) == Get(max, old(aliases), topic)
      ensures topic in old(aliases) ==> aliases == old(aliases) && w == Wire(None, Some(aliases[topic]))
      ensures topic !in old(aliases) && |old(aliases)| == max ==>
        aliases == old(aliases) && w == Wire(Some(topic), None)
      ensures topic !in old(aliases) && |old(aliases)| < max ==>
        && w.topic == Some(topic) && w.alias.Some? && w.alias.value == |old(aliases)| + 1
        && aliases == old(aliases)[topic := w.alias.value]
    {
      hide Dense;
      GetKeepsDense(max, aliases, topic);
      if max == 0 { return Wire(Some(topic), None); }
      if topic in aliases { return Wire(None, Some(aliases[topic])); }
      var len := |aliases|;
      if len >= max { return Wire(Some(topic), None); }
      var number := (len + 1) % 65536;
      if number == 0 { assert false; }
      aliases := aliases[topic := number];
      w := Wire(Some(topic), Some(number));
    }
  }

  class ClientTopicAliases {
    const max: Max
    var aliases: map<Alias, string>

    constructor (max: Max)
      ensures this.max == max && aliases == map[]
    {
      this.max, aliases := max, map[];
    }

    method Resolve(alias: Option<Alias>, topic: string) returns (r: Result<string, AliasError>)
      modifies this
      ensures match SetAndGet(max, old(aliases), alias, topic)
        case Err(e) => r == Err(e) && aliases == old(aliases)
        case Ok((table, read)) => r == Ok(read) && aliases == table
      ensures r.Err? || alias == None || topic == "" ==> aliases == old(aliases)
      ensures r.Ok? && alias.Some? && topic != "" ==> aliases == old(aliases)[alias.value := topic]
      ensures r == Err(NothingGiven) <==> alias == None && topic == ""
      ensures r == Err(UnknownAlias) <==> alias.Some? && topic == "" && alias.value !in old(aliases)
      ensures r == Err(TooManyAliases) <==>
        alias.Some? && topic != "" && alias.value !in old(aliases) && |old(aliases)| >= max
      ensures r.Ok? ==> r.value == if topic != "" then topic else old(aliases)[alias.value]
    {
      match alias {
        case None => r := if topic == "" then Err(NothingGiven) else Ok(topic);
        case Some(a) =>
          if topic == "" {
            r := if a in aliases then Ok(aliases[a]) else Err(UnknownAlias);
          } else {
            if a !in aliases && |aliases| >= max { return Err(TooManyAliases); }
            aliases := aliases[a := topic];
            r := Ok(topic);
          }
      }
    }
  }
}
