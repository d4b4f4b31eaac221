/**
 Both halves of QoS 2 joined by two FIFO channels. The client is the load generator with its
 acknowledgement timeout off, the broker is `QosReceiver` on a connection whose sends succeed and
 whose publishes are accepted. An interleaving is any sequence of `Move`s.
 */
module QosProtocol {
  import opened Wrappers
  import opened Sequences
  import opened QosReceiver
  import opened QosSender

  datatype Down = RecDown(pid: Pid) | CompDown(pid: Pid)

  datatype System = System(client: Sender, up: seq<Up>, down: seq<Down>, broker: State)

  datatype Move = ClientSend(ts: nat) | ClientReceive | BrokerReceive

  function Reliable(maxInflight: nat): Env {
    Env(maxInflight, _ => Accepted, _ => true)
  }

  function Start(window: nat): System
    requires 1 <= window <= 65535
  {
    System(Sender(Slots(seq(window, _ => false), 0), map[], 0), [], [], Initial)
  }

  function ReplyOf(a: Action): seq<Down> {
    if a.Replied? && a.reply.PubRec? then [RecDown(a.reply.pid)]
    else if a.Replied? && a.reply.PubComp? then [CompDown(a.reply.pid)]
    else []
  }

  function DeliveryOf(a: Action): seq<Message> {
    if a.Delivered? && a.outcome == Accepted then [a.msg] else []
  }

  /** PUBREC and PUBCOMP packets written by the broker in a stretch of its history. */
  function Replies(log: seq<Action>): seq<Down> { FlatMap(ReplyOf, log) }

  /** Messages the broker forwarded to subscribers, in that order. */
  function Deliveries(log: seq<Action>): seq<Message> { FlatMap(DeliveryOf, log) }

  function ToEvent(p: Up): Event {
    match p
    case PublishUp(pid, msg) => Publish(ExactlyOnce, Some(pid), msg)
    case ReleaseUp(pid) => Release(pid)
  }

  /** One step of the system; a receiver with nothing to read stays put. */
  function Next(max: nat, s: System, m: Move): (s': System)
    requires s.client.slots.Valid()
    ensures s'.client.slots.Valid()
  {
    TakeIsFresh(s.client.slots);
    match m
    case ClientSend(ts) =>
      var (client, up) := SendOne(s.client, ts);
      s.(client := client, up := s.up + if up.Some? then [up.value] else [])
    case ClientReceive =>
      if s.down == [] then s else
      var s' := s.(down := s.down[1..]);
      (match s.down[0]
       case RecDown(pid) =>
         var (client, ups) := OnPubrec(s.client, pid);
         s'.(client := client, up := s.up + ups)
       case CompDown(pid) => s'.(client := OnAck(s.client, pid)))
    case BrokerReceive =>
      if s.up == [] then s else
      var broker := Step(Reliable(max), s.broker, ToEvent(s.up[0]));
      s.(up := s.up[1..], broker := broker, down := s.down + Replies(NewEntries(s.broker.log, broker.log)))
  }

  /** The system after a sequence of moves. */
  function Play(max: nat, s: System, moves: seq<Move>): (s': System)
    requires s.client.slots.Valid()
    ensures s'.client.slots.Valid()
    decreases |moves|
  {
    if moves == [] then s else Play(max, Next(max, s, moves[0]), moves[1..])
  }

  /** One call of the client's `fill` is some number of sends in a row, so runs of the system include it. */
  lemma {:induction false} FillIsSends(max: nat, s: System, batch: nat, limit: nat, clock: nat -> nat)
    returns (moves: seq<Move>)
    requires s.client.slots.Valid()
    ensures |moves| <= batch
    ensures var (client, ups) := Fill(s.client, batch, limit, clock);
      Play(max, s, moves) == s.(client := client, up := s.up + ups)
    decreases batch
  {
    hide Take; hide OnPubrec; hide OnAck; hide Step;
    TakeIsFresh(s.client.slots);
    var m := ClientSend(clock(s.client.sent));
    if batch == 0 || (limit > 0 && s.client.sent >= limit) || SendOne(s.client, m.ts).1.None? {
      moves := [];
      assert s.up + [] == s.up;
    } else {
      var (client, up) := SendOne(s.client, m.ts);
      var s1 := Next(max, s, m);
      var rest := FillIsSends(max, s1, batch - 1, limit, clock);
      moves := [m] + rest;
      Associative(s.up, [up.value], Fill(client, batch - 1, limit, clock).1);
      assert moves[1..] == rest;
    }
  }

  function NewEntries(before: seq<Action>, after: seq<Action>): seq<Action> {
    if |before| <= |after| then after[|before|..] else []
  }

  // ---------------------------------------------------------------------------------------------
  // The invariant
  // ---------------------------------------------------------------------------------------------

  function UpId(p: Up): seq<Pid> { [p.pid] }
  function DownId(p: Down): seq<Pid> { [p.pid] }
  function PendingId(e: (Pid, Message)): seq<Pid> { [e.0] }
  function PendingMsg(e: (Pid, Message)): seq<Message> { [e.1] }
  function PendingRec(e: (Pid, Message)): seq<Down> { [RecDown(e.0)] }
  function UpMsg(p: Up): seq<Message> { if p.PublishUp? then [p.msg] else [] }

  /** The ids carried by packets in either channel or by entries of the deferral queue. */
  function Tokens(s: System): multiset<Pid> {
    multiset(FlatMap(UpId, s.up)) + multiset(FlatMap(PendingId, s.broker.pending)) + multiset(FlatMap(DownId, s.down))
  }

  predicate Carries(client: Sender, pid: Pid, msg: Message) {
    pid in client.inflight && client.inflight[pid].msg == msg
  }

  predicate UpPhase(s: System, p: Up) {
    match p
    case PublishUp(pid, msg) => pid !in s.broker.cached && Carries(s.client, pid, msg)
    case ReleaseUp(pid) => pid in s.broker.cached
  }

  predicate DownPhase(s: System, p: Down) {
    p.RecDown? <==> p.pid in s.broker.cached
  }

  /** What a packet in a channel says about the broker's registered ids. */
  predicate Phases(s: System) {
    && (forall p :: p in s.up ==> UpPhase(s, p))
    && (forall e :: e in s.broker.pending ==> Carries(s.client, e.0, e.1))
    && (forall p :: p in s.down ==> DownPhase(s, p))
  }

  /** Messages leave the client in order and reach subscribers in order, each exactly once. */
  predicate InOrder(s: System) {
    Deliveries(s.broker.log) + FlatMap(PendingMsg, s.broker.pending) + FlatMap(UpMsg, s.up) == Numbers(s.client.sent)
  }

  /** The broker is in a state some packets led it to, so every result of `QosReceiver` holds of it. */
  ghost predicate BrokerReachable(max: nat, b: State) {
    exists events :: b == Run(Reliable(max), Initial, events)
  }

  lemma BrokerFlow(max: nat, b: State)
    requires BrokerReachable(max, b)
    ensures FlowInv(Reliable(max), b) && WorkConserving(Reliable(max), b)
  {
    var events :| b == Run(Reliable(max), Initial, events);
    RunKeeps(Reliable(max), Initial, events);
  }

  lemma BrokerSteps(max: nat, b: State, ev: Event)
    requires BrokerReachable(max, b)
    ensures var b' := Step(Reliable(max), b, ev);
      BrokerReachable(max, b') && FlowInv(Reliable(max), b') && WorkConserving(Reliable(max), b')
  {
    var events :| b == Run(Reliable(max), Initial, events);
    RunAppend(Reliable(max), Initial, events, ev);
    BrokerFlow(max, Step(Reliable(max), b, ev));
  }

  ghost predicate SysInv(window: nat, max: nat, s: System) {
    && SlotsMatch(s.client) && |s.client.slots.used| == window
    && s.broker.Alive() && BrokerReachable(max, s.broker)
    && FlowInv(Reliable(max), s.broker) && WorkConserving(Reliable(max), s.broker)
    && s.broker.cached <= s.client.inflight.Keys
    // every id in flight is carried by exactly one packet or deferral entry, and no other id is
    && Tokens(s) == multiset(s.client.inflight.Keys)
    && Phases(s) && InOrder(s)
  }

  // ---------------------------------------------------------------------------------------------
  // Counting
  // ---------------------------------------------------------------------------------------------

  lemma Alone(pid: Pid, rest: multiset<Pid>, keys: set<Pid>)
    requires multiset{pid} + rest == multiset(keys)
    ensures pid in keys && pid !in rest && rest == multiset(keys - {pid})
  {
    assert multiset(keys)[pid] == 1 + rest[pid];
    forall p: Pid
      ensures rest[p] == multiset(keys - {pid})[p]
    {
      assert (multiset{pid} + rest)[p] == multiset(keys)[p];
    }
  }

  lemma {:induction false} IdsBound(ids: set<Pid>, n: nat)
    requires forall p :: p in ids ==> p <= n
    ensures |ids| <= n
    decreases n
  {
    if n == 0 {
      assert ids == {};
    } else if n > 65535 {
      IdsBound(ids, n - 1);
    } else {
      IdsBound(ids - {n}, n - 1);
    }
  }

  lemma {:induction false} PendingIdsListed(pending: seq<(Pid, Message)>)
    ensures |FlatMap(PendingId, pending)| == |pending|
    ensures forall i :: 0 <= i < |pending| ==> FlatMap(PendingId, pending)[i] == pending[i].0
    decreases |pending|
  {
    if pending != [] {
      hide FlatMap;
      var init, last := pending[..|pending| - 1], pending[|pending| - 1];
      PendingIdsListed(init);
      assert pending == init + [last];
      FlatMapAppend(PendingId, init, last);
    }
  }

  /** Registered plus deferred ids fit into the client's window, with room for `extra` others. */
  lemma WindowBound(window: nat, max: nat, s: System, extra: set<Pid>)
    requires SysInv(window, max, s)
    requires extra <= s.client.inflight.Keys && extra !! s.broker.cached
    requires forall p :: p in extra ==> p !in FlatMap(PendingId, s.broker.pending)
    ensures |s.broker.cached| + |s.broker.pending| + |extra| <= window
  {
    hide InOrder; hide BrokerReachable; hide WorkConserving; hide Tokens; hide SlotsMatch; hide FlatMap;
    var deferred := Elems(FlatMap(PendingId, s.broker.pending));
    PendingIdsListed(s.broker.pending);
    DistinctSize(FlatMap(PendingId, s.broker.pending));
    forall p | p in deferred
      ensures p in s.client.inflight.Keys && p !in s.broker.cached
    {
      FlatMapMember(PendingId, s.broker.pending, p);
      var i :| 0 <= i < |s.broker.pending| && p in PendingId(s.broker.pending[i]);
      assert s.broker.pending[i] in s.broker.pending;
    }
    CountThree(s.broker.cached, deferred, extra, window, s.client);
  }

  lemma CountThree(a: set<Pid>, b: set<Pid>, c: set<Pid>, window: nat, client: Sender)
    requires a !! b && a !! c && b !! c
    requires a + b + c <= client.inflight.Keys
    requires SlotsMatch(client) && |client.slots.used| == window
    ensures |a| + |b| + |c| <= window
  {
    assert |a + b| == |a| + |b| && |a + b + c| == |a + b| + |c|;
    IdsBound(a + b + c, window);
  }

  // ---------------------------------------------------------------------------------------------
  // The broker's moves on a reliable connection
  // ---------------------------------------------------------------------------------------------

  lemma LogStep(log: seq<Action>, a: Action)
    ensures Deliveries(log + [a]) == Deliveries(log) + DeliveryOf(a)
    ensures DeliveryOf(a) == [] ==> Deliveries(log + [a]) == Deliveries(log)
    ensures Replies(log + [a]) == Replies(log) + ReplyOf(a)
    ensures ReplyOf(a) == [] ==> Replies(log + [a]) == Replies(log)
  {
    FlatMapAppend(DeliveryOf, log, a);
    FlatMapAppend(ReplyOf, log, a);
  }

  /** The replies of one step are what the history gained. */
  lemma StepReplies(before: seq<Action>, after: seq<Action>, r: seq<Down>)
    requires before <= after && Replies(after) == Replies(before) + r
    ensures Replies(NewEntries(before, after)) == r
  {
    var gained := after[|before|..];
    assert after == before + gained;
    FlatMapConcat(ReplyOf, before, gained);
    assert Replies(before) + Replies(gained) == Replies(before) + r;
    assert Replies(gained) == (Replies(before) + Replies(gained))[|Replies(before)|..] == r;
  }

  /** From `s` to `s'` the broker registered, delivered and answered exactly the messages of `out`. */
  predicate Moved(s: State, s': State, out: seq<(Pid, Message)>) {
    && s'.Alive()
    && s'.cached == s.cached + (set e | e in out :: e.0)
    && s.log <= s'.log
    && Deliveries(s'.log) == Deliveries(s.log) + FlatMap(PendingMsg, out)
    && Replies(s'.log) == Replies(s.log) + FlatMap(PendingRec, out)
  }

  lemma MovedNone(s: State)
    requires s.Alive()
    ensures Moved(s, s, [])
  {
    hide Deliveries; hide Replies;
    assert Deliveries(s.log) + [] == Deliveries(s.log) && Replies(s.log) + [] == Replies(s.log);
  }

  /** Noting something that is neither a delivery nor a reply. */
  lemma MovedByLog(s: State, a: Action)
    requires s.Alive() && DeliveryOf(a) == [] && ReplyOf(a) == []
    ensures Moved(s, s.(log := s.log + [a]), [])
  {
    hide Deliveries; hide Replies;
    MovedNone(s);
    LogStep(s.log, a);
  }

  lemma MovedQueue(s: State, s': State, pending: seq<(Pid, Message)>)
    ensures Moved(s, s', []) ==> Moved(s, s'.(pending := pending), [])
  {
  }

  lemma MovedTrans(s: State, s1: State, s2: State, a: seq<(Pid, Message)>, b: seq<(Pid, Message)>)
    requires Moved(s, s1, a) && Moved(s1, s2, b)
    ensures Moved(s, s2, a + b)
  {
    hide FlatMap; hide Deliveries; hide Replies;
    FlatMapConcat(PendingMsg, a, b);
    FlatMapConcat(PendingRec, a, b);
    Associative(Deliveries(s.log), FlatMap(PendingMsg, a), FlatMap(PendingMsg, b));
    Associative(Replies(s.log), FlatMap(PendingRec, a), FlatMap(PendingRec, b));
    assert (set e | e in a + b :: e.0) == (set e | e in a :: e.0) + (set e | e in b :: e.0);
  }

  lemma AckEffect(max: nat, s: State, pid: Pid, msg: Message)
    requires s.Alive() && !Full(Reliable(max), s) && pid !in s.cached
    ensures var s' := AckInbound(Reliable(max), s, pid, msg);
      s'.pending == s.pending && Moved(s, s', [(pid, msg)])
  {
    hide FlatMap; hide Deliveries; hide Replies;
    var a, b := Delivered(pid, msg, Accepted), Replied(PubRec(pid, true), true);
    LogStep(s.log, a);
    LogStep(s.log + [a], b);
    One((pid, msg));
    assert (set e | e in [(pid, msg)] :: e.0) == {pid};
  }

  /** Draining moves a prefix of the queue into the window, answering and delivering in order. */
  lemma {:induction false} DrainEffect(max: nat, s: State) returns (k: nat)
    requires s.Alive() && FlowInv(Reliable(max), s)
    ensures k <= |s.pending|
    ensures Drain(Reliable(max), s).pending == s.pending[k..]
    ensures Moved(s, Drain(Reliable(max), s), s.pending[..k])
    decreases |s.pending|
  {
    hide FlatMap; hide Deliveries; hide Replies;
    if s.pending == [] || Full(Reliable(max), s) {
      k := 0;
      MovedNone(s);
    } else {
      var e := s.pending[0];
      var s1 := s.(pending := s.pending[1..]);
      AckEffect(max, s1, e.0, e.1);
      var s2 := AckInbound(Reliable(max), s1, e.0, e.1);
      var k1 := DrainEffect(max, s2);
      k := k1 + 1;
      MovedTrans(s, s2, Drain(Reliable(max), s2), [e], s2.pending[..k1]);
      TailSlices(s.pending, k1);
    }
  }

  /** A first copy is delivered at once if the window has room, and otherwise deferred. */
  lemma PublishEffect(max: nat, s: State, pid: Pid, msg: Message)
    requires WorkConserving(Reliable(max), s) && s.Alive() && pid !in s.cached && !Deferred(s, pid)
    ensures var s' := Step(Reliable(max), s, Publish(ExactlyOnce, Some(pid), msg));
      if !Full(Reliable(max), s) then
        s.pending == [] == s'.pending && Moved(s, s', [(pid, msg)])
      else
        && Moved(s, s', [])
        && s'.pending == s.pending + if |s.pending| < PENDING_CAP then [(pid, msg)] else []
  {
    hide FlatMap; hide Deliveries; hide Replies; hide Moved; hide AckInbound;
    var ev := Publish(ExactlyOnce, Some(pid), msg);
    var s0 := s.(log := s.log + [Received(ev)]);
    MovedByLog(s, Received(ev));
    var s1 := s0.(log := s0.log + [TakenIn(pid, msg)]);
    MovedByLog(s0, TakenIn(pid, msg));
    var none: seq<(Pid, Message)> := [];
    MovedTrans(s, s0, s1, none, none);
    assert none + none == none;
    MovedQueue(s, s1, s.pending + [(pid, msg)]);
    if !Full(Reliable(max), s) {
      AckEffect(max, s1, pid, msg);
      MovedTrans(s, s1, AckInbound(Reliable(max), s1, pid, msg), [], [(pid, msg)]);
      assert [] + [(pid, msg)] == [(pid, msg)];
    }
  }

  /** A release frees its id, is answered by PUBCOMP, and lets a prefix of the queue in. */
  lemma ReleaseEffect(max: nat, s: State, pid: Pid) returns (k: nat, s1: State)
    requires FlowInv(Reliable(max), s) && s.Alive()
    ensures k <= |s.pending|
    ensures s1.cached == s.cached - {pid} && s.log <= s1.log
    ensures Deliveries(s1.log) == Deliveries(s.log) && Replies(s1.log) == Replies(s.log) + [CompDown(pid)]
    ensures var s' := Step(Reliable(max), s, Release(pid));
      s'.pending == s.pending[k..] && Moved(s1, s', s.pending[..k])
  {
    var a, b := Received(Release(pid)), Replied(PubComp(pid), true);
    LogStep(s.log, a);
    LogStep(s.log + [a], b);
    s1 := State(s.cached - {pid}, s.pending, s.log + [a] + [b], Live);
    k := DrainEffect(max, s1);
  }

  // ---------------------------------------------------------------------------------------------
  // Every move keeps the invariant
  // ---------------------------------------------------------------------------------------------

  lemma DisjointParts(a: seq<Pid>, b: seq<Pid>, c: seq<Pid>, keys: set<Pid>)
    requires multiset(a) + multiset(b) + multiset(c) == multiset(keys)
    ensures forall x :: x in a ==> x in keys && x !in b && x !in c
    ensures forall x :: x in b ==> x in keys && x !in c
    ensures forall x :: x in c ==> x in keys
  {
    forall x | x in a || x in b || x in c
      ensures x in keys && !(x in a && x in b) && !(x in a && x in c) && !(x in b && x in c)
    {
      var m: multiset<Pid> := multiset(a) + multiset(b) + multiset(c);
      assert m[x] == multiset(keys)[x];
    }
  }

  lemma HeadOnce(a: seq<Pid>, rest: multiset<Pid>, keys: set<Pid>)
    requires a != [] && multiset(a) + rest == multiset(keys)
    ensures a[0] in keys && a[0] !in a[1..] && a[0] !in rest
  {
    assert a == [a[0]] + a[1..];
    Alone(a[0], multiset(a[1..]) + rest, keys);
  }

  lemma UpSeen(up: seq<Up>, p: Up)
    requires p in up
    ensures p.pid in FlatMap(UpId, up)
  {
    FlatMapMember(UpId, up, p.pid);
    assert p.pid in UpId(p);
  }

  lemma DownSeen(down: seq<Down>, p: Down)
    requires p in down
    ensures p.pid in FlatMap(DownId, down)
  {
    FlatMapMember(DownId, down, p.pid);
    assert p.pid in DownId(p);
  }

  lemma PendingSeen(pending: seq<(Pid, Message)>, e: (Pid, Message))
    requires e in pending
    ensures e.0 in FlatMap(PendingId, pending)
  {
    FlatMapMember(PendingId, pending, e.0);
    assert e.0 in PendingId(e);
  }

  /** No two tokens share an id: the reading used when a packet at the head of a channel is taken. */
  lemma TokensApart(s: System)
    requires Tokens(s) == multiset(s.client.inflight.Keys)
    ensures forall p, e :: p in s.up && e in s.broker.pending ==> p.pid != e.0
    ensures forall p, q :: p in s.up && q in s.down ==> p.pid != q.pid
    ensures forall e, q :: e in s.broker.pending && q in s.down ==> e.0 != q.pid
  {
    DisjointParts(FlatMap(UpId, s.up), FlatMap(PendingId, s.broker.pending), FlatMap(DownId, s.down),
      s.client.inflight.Keys);
    forall p | p in s.up ensures p.pid in FlatMap(UpId, s.up) { UpSeen(s.up, p); }
    forall p | p in s.down ensures p.pid in FlatMap(DownId, s.down) { DownSeen(s.down, p); }
    forall e | e in s.broker.pending ensures e.0 in FlatMap(PendingId, s.broker.pending) {
      PendingSeen(s.broker.pending, e);
    }
  }

  lemma UpHeadApart(s: System)
    requires Tokens(s) == multiset(s.client.inflight.Keys) && s.up != []
    ensures forall p :: p in s.up[1..] ==> p.pid != s.up[0].pid
  {
    FlatMapHead(UpId, s.up);
    HeadOnce(FlatMap(UpId, s.up),
      multiset(FlatMap(PendingId, s.broker.pending)) + multiset(FlatMap(DownId, s.down)), s.client.inflight.Keys);
    forall p | p in s.up[1..] ensures p.pid != s.up[0].pid { UpSeen(s.up[1..], p); }
  }

  lemma SendPhases(s: System, s': System, pid: Pid, ts: nat)
    requires Phases(s) && s.broker.cached <= s.client.inflight.Keys && pid !in s.client.inflight
    requires s'.broker == s.broker && s'.down == s.down && s'.up == s.up + [PublishUp(pid, s.client.sent)]
    requires s'.client.inflight == s.client.inflight[pid := Inflight(s.client.sent, ts, false)]
    ensures Phases(s')
  {
    forall p | p in s'.up ensures UpPhase(s', p) {
      if p in s.up { assert UpPhase(s, p); }
    }
    forall p | p in s'.down ensures DownPhase(s', p) { assert DownPhase(s, p); }
  }

  lemma KeyAdded(keys: set<Pid>, pid: Pid)
    requires pid !in keys
    ensures multiset(keys + {pid}) == multiset(keys) + multiset{pid}
  {
  }

  lemma PushUpTokens(s: System, s': System, p: Up)
    requires s'.up == s.up + [p] && s'.down == s.down && s'.broker == s.broker
    ensures Tokens(s') == Tokens(s) + multiset{p.pid}
  {
    FlatMapAppend(UpId, s.up, p);
  }

  lemma PopUpTokens(s: System)
    requires s.up != []
    ensures Tokens(s) == Tokens(s.(up := s.up[1..])) + multiset{s.up[0].pid}
  {
    FlatMapHead(UpId, s.up);
  }

  lemma PopDownTokens(s: System)
    requires s.down != []
    ensures Tokens(s) == Tokens(s.(down := s.down[1..])) + multiset{s.down[0].pid}
  {
    FlatMapHead(DownId, s.down);
  }

  lemma SendOrder(s: System, s': System, pid: Pid)
    requires InOrder(s) && s'.broker == s.broker && s'.up == s.up + [PublishUp(pid, s.client.sent)]
    requires s'.client.sent == s.client.sent + 1
    ensures InOrder(s')
  {
    FlatMapAppend(UpMsg, s.up, PublishUp(pid, s.client.sent));
  }

  lemma SendKeeps(window: nat, max: nat, s: System, ts: nat)
    requires SysInv(window, max, s)
    ensures SysInv(window, max, Next(max, s, ClientSend(ts)))
  {
    hide Step; hide FlowInv; hide WorkConserving; hide BrokerReachable; hide Phases; hide InOrder; hide Tokens;
    hide Take;
    var (client, up) := SendOne(s.client, ts);
    var s' := Next(max, s, ClientSend(ts));
    SendOneMatches(s.client, ts);
    TakeIsFresh(s.client.slots);
    if up.Some? {
      var pid := up.value.pid;
      SendPhases(s, s', pid, ts);
      SendOrder(s, s', pid);
      PushUpTokens(s, s', up.value);
      KeyAdded(s.client.inflight.Keys, pid);
      assert client.inflight.Keys == s.client.inflight.Keys + {pid};
    } else {
      assert s.up + [] == s.up;
    }
  }

  lemma RecPhases(s: System, s': System, pid: Pid)
    requires Phases(s) && s.down != [] && s.down[0] == RecDown(pid) && pid in s.client.inflight
    requires s'.broker == s.broker && s'.down == s.down[1..] && s'.up == s.up + [ReleaseUp(pid)]
    requires s'.client == OnPubrec(s.client, pid).0
    ensures Phases(s')
  {
    assert DownPhase(s, s.down[0]);
    forall p | p in s'.up ensures UpPhase(s', p) {
      if p in s.up { assert UpPhase(s, p); }
    }
    forall e | e in s'.broker.pending ensures Carries(s'.client, e.0, e.1) { assert Carries(s.client, e.0, e.1); }
    forall p | p in s'.down ensures DownPhase(s', p) { assert DownPhase(s, p); }
  }

  /** The head of the way down says what the broker has registered. */
  lemma DownHead(s: System)
    requires Phases(s) && s.down != []
    ensures s.down[0].RecDown? <==> s.down[0].pid in s.broker.cached
  {
    assert DownPhase(s, s.down[0]);
  }

  lemma OnPubrecMatches(c: Sender, pid: Pid)
    requires SlotsMatch(c)
    ensures var c' := OnPubrec(c, pid).0;
      SlotsMatch(c') && c'.inflight.Keys == c.inflight.Keys && c'.slots == c.slots && c'.sent == c.sent
  {
  }

  lemma RecTokens(s: System, s': System, pid: Pid)
    requires s.down != [] && s.down[0] == RecDown(pid) && s'.broker == s.broker
    requires s'.down == s.down[1..] && s'.up == s.up + [ReleaseUp(pid)]
    ensures Tokens(s') == Tokens(s)
  {
    PopDownTokens(s);
    PushUpTokens(s.(down := s.down[1..]), s', ReleaseUp(pid));
  }

  lemma RecOrder(s: System, s': System, pid: Pid)
    requires InOrder(s) && s'.broker == s.broker && s'.up == s.up + [ReleaseUp(pid)] && s'.client.sent == s.client.sent
    ensures InOrder(s')
  {
    hide FlatMap; hide Deliveries;
    FlatMapAppend(UpMsg, s.up, ReleaseUp(pid));
  }

  lemma ClientRecKeeps(window: nat, max: nat, s: System)
    requires SysInv(window, max, s) && s.down != [] && s.down[0].RecDown?
    ensures SysInv(window, max, Next(max, s, ClientReceive))
  {
    hide Step; hide SendOne; hide FlowInv; hide WorkConserving; hide BrokerReachable; hide Phases; hide Tokens;
    hide InOrder; hide SlotsMatch;
    var pid := s.down[0].pid;
    ValidSlots(s.client);
    DownHead(s);
    OnPubrecMatches(s.client, pid);
    var s' := Next(max, s, ClientReceive);
    RecPhases(s, s', pid);
    RecTokens(s, s', pid);
    RecOrder(s, s', pid);
  }

  lemma ValidSlots(c: Sender)
    requires SlotsMatch(c)
    ensures c.slots.Valid()
  {
  }

  lemma CompPhases(s: System, s': System, pid: Pid)
    requires Phases(s) && s.down != [] && s.down[0] == CompDown(pid)
    requires Tokens(s) == multiset(s.client.inflight.Keys)
    requires s'.broker == s.broker && s'.down == s.down[1..] && s'.up == s.up
    requires s'.client == OnAck(s.client, pid)
    ensures Phases(s')
  {
    TokensApart(s);
    assert s.down[0] in s.down;
    forall p | p in s'.up ensures UpPhase(s', p) { assert UpPhase(s, p) && p.pid != pid; }
    forall e | e in s'.broker.pending ensures Carries(s'.client, e.0, e.1) {
      assert Carries(s.client, e.0, e.1) && e.0 != pid;
    }
    forall p | p in s'.down ensures DownPhase(s', p) { assert DownPhase(s, p); }
  }

  lemma CompOrder(s: System, s': System)
    requires InOrder(s) && s'.broker == s.broker && s'.up == s.up && s'.client.sent == s.client.sent
    ensures InOrder(s')
  {
  }

  lemma OnAckKeys(c: Sender, pid: Pid)
    requires SlotsMatch(c)
    ensures var c' := OnAck(c, pid);
      c'.inflight.Keys == c.inflight.Keys - {pid} && |c'.slots.used| == |c.slots.used| && c'.sent == c.sent
  {
  }

  lemma ClientCompKeeps(window: nat, max: nat, s: System)
    requires SysInv(window, max, s) && s.down != [] && s.down[0].CompDown?
    ensures SysInv(window, max, Next(max, s, ClientReceive))
  {
    hide Step; hide SendOne; hide FlowInv; hide WorkConserving; hide BrokerReachable; hide Phases; hide Tokens;
    hide InOrder; hide SlotsMatch; hide OnAck;
    var pid := s.down[0].pid;
    ValidSlots(s.client);
    DownHead(s);
    OnAckMatches(s.client, pid);
    OnAckKeys(s.client, pid);
    var s' := Next(max, s, ClientReceive);
    CompPhases(s, s', pid);
    CompOrder(s, s');
    CompTokens(s, s', pid);
  }

  lemma CompTokens(s: System, s': System, pid: Pid)
    requires Tokens(s) == multiset(s.client.inflight.Keys) && s.down != [] && s.down[0] == CompDown(pid)
    requires s'.broker == s.broker && s'.down == s.down[1..] && s'.up == s.up
    requires s'.client.inflight.Keys == s.client.inflight.Keys - {pid}
    ensures Tokens(s') == multiset(s'.client.inflight.Keys)
  {
    PopDownTokens(s);
    assert Tokens(s') == Tokens(s.(down := s.down[1..]));
    Alone(pid, Tokens(s'), s.client.inflight.Keys);
  }

  lemma One(e: (Pid, Message))
    ensures FlatMap(PendingMsg, [e]) == [e.1]
    ensures FlatMap(PendingRec, [e]) == [RecDown(e.0)]
    ensures FlatMap(PendingId, [e]) == [e.0]
  {
  }

  /** An accepted publish: the broker moves the packet into the window. */
  lemma DirectPhases(s: System, s': System, pid: Pid, msg: Message)
    requires s.up != [] && s.up[0] == PublishUp(pid, msg)
    requires Phases(s) && Tokens(s) == multiset(s.client.inflight.Keys)
    requires s'.client == s.client && s'.up == s.up[1..] && s'.down == s.down + [RecDown(pid)]
    requires s.broker.pending == [] == s'.broker.pending
    requires s'.broker.cached == s.broker.cached + {pid}
    ensures Phases(s') && Tokens(s') == Tokens(s)
  {
    TokensApart(s);
    UpHeadApart(s);
    assert s.up[0] in s.up;
    forall p | p in s'.up ensures UpPhase(s', p) { assert UpPhase(s, p) && p.pid != pid; }
    forall p | p in s'.down ensures DownPhase(s', p) {
      if p in s.down { assert DownPhase(s, p) && p.pid != pid; }
    }
    PopUpTokens(s);
    FlatMapAppend(DownId, s.down, RecDown(pid));
  }

  lemma DirectOrder(s: System, s': System, pid: Pid, msg: Message)
    requires s.up != [] && s.up[0] == PublishUp(pid, msg) && InOrder(s)
    requires s'.client == s.client && s'.up == s.up[1..]
    requires s.broker.pending == [] == s'.broker.pending
    requires Deliveries(s'.broker.log) == Deliveries(s.broker.log) + [msg]
    ensures InOrder(s')
  {
    FlatMapHead(UpMsg, s.up);
    Regroup(Deliveries(s.broker.log), [], [msg], FlatMap(UpMsg, s'.up));
    assert [] + [msg] == [msg];
  }

  /** A publish that finds the window full: the broker moves the packet to the deferral queue. */
  lemma DeferPhases(s: System, s': System, pid: Pid, msg: Message)
    requires s.up != [] && s.up[0] == PublishUp(pid, msg)
    requires Phases(s)
    requires s'.client == s.client && s'.up == s.up[1..] && s'.down == s.down
    requires s'.broker.pending == s.broker.pending + [(pid, msg)] && s'.broker.cached == s.broker.cached
    ensures Phases(s') && Tokens(s') == Tokens(s)
  {
    assert UpPhase(s, s.up[0]);
    forall p | p in s'.up ensures UpPhase(s', p) { assert UpPhase(s, p); }
    forall e | e in s'.broker.pending ensures Carries(s'.client, e.0, e.1) {
      assert e in s.broker.pending || e == (pid, msg);
    }
    forall p | p in s'.down ensures DownPhase(s', p) { assert DownPhase(s, p); }
    PopUpTokens(s);
    FlatMapAppend(PendingId, s.broker.pending, (pid, msg));
  }

  lemma DeferOrder(s: System, s': System, pid: Pid, msg: Message)
    requires s.up != [] && s.up[0] == PublishUp(pid, msg) && InOrder(s)
    requires s'.client == s.client && s'.up == s.up[1..] && s'.broker.pending == s.broker.pending + [(pid, msg)]
    requires Deliveries(s'.broker.log) == Deliveries(s.broker.log)
    ensures InOrder(s')
  {
    FlatMapAppend(PendingMsg, s.broker.pending, (pid, msg));
    FlatMapHead(UpMsg, s.up);
    Regroup(Deliveries(s.broker.log), FlatMap(PendingMsg, s.broker.pending), [msg], FlatMap(UpMsg, s'.up));
  }

  lemma MovedNothing(s: State, s': State)
    requires Moved(s, s', [])
    ensures s'.Alive() && s'.cached == s.cached && s.log <= s'.log
    ensures Deliveries(s'.log) == Deliveries(s.log) && Replies(s'.log) == Replies(s.log) + []
  {
  }

  lemma MovedOne(s: State, s': State, pid: Pid, msg: Message)
    requires Moved(s, s', [(pid, msg)])
    ensures s'.Alive() && s'.cached == s.cached + {pid} && s.log <= s'.log
    ensures Deliveries(s'.log) == Deliveries(s.log) + [msg] && Replies(s'.log) == Replies(s.log) + [RecDown(pid)]
  {
    hide FlatMap; hide Deliveries; hide Replies;
    One((pid, msg));
    assert (set e | e in [(pid, msg)] :: e.0) == {pid};
  }

  /** A deferred copy never meets a full deferral queue: the window is too small for that. */
  lemma NeverDropped(window: nat, max: nat, s: System)
    requires SysInv(window, max, s) && s.up != [] && s.up[0].PublishUp?
    requires window <= max + 4096
    ensures s.up[0].pid in s.client.inflight && s.up[0].pid !in s.broker.cached && !Deferred(s.broker, s.up[0].pid)
    ensures Full(Reliable(max), s.broker) ==> |s.broker.pending| < PENDING_CAP
  {
    hide InOrder; hide BrokerReachable; hide WorkConserving; hide FlatMap; hide SlotsMatch; hide Tokens; hide FlowInv;
    var p := s.up[0];
    assert p in s.up && UpPhase(s, p);
    TokensApart(s);
    forall i | 0 <= i < |s.broker.pending| ensures s.broker.pending[i].0 != p.pid {
      assert s.broker.pending[i] in s.broker.pending;
    }
    FlatMapMember(PendingId, s.broker.pending, p.pid);
    WindowBound(window, max, s, {p.pid});
  }

  lemma BrokerMoves(max: nat, s: System)
    requires BrokerReachable(max, s.broker) && s.client.slots.Valid() && s.up != []
    ensures var b := Next(max, s, BrokerReceive).broker;
      BrokerReachable(max, b) && FlowInv(Reliable(max), b) && WorkConserving(Reliable(max), b)
  {
    hide Step; hide FlowInv; hide WorkConserving;
    BrokerSteps(max, s.broker, ToEvent(s.up[0]));
  }

  lemma PublishShape(max: nat, s: System)
    requires WorkConserving(Reliable(max), s.broker) && s.broker.Alive() && s.client.slots.Valid()
    requires s.up != [] && s.up[0].PublishUp?
    requires s.up[0].pid !in s.broker.cached && !Deferred(s.broker, s.up[0].pid)
    requires Full(Reliable(max), s.broker) ==> |s.broker.pending| < PENDING_CAP
    ensures var s', pid, msg := Next(max, s, BrokerReceive), s.up[0].pid, s.up[0].msg;
      && s'.client == s.client && s'.up == s.up[1..] && s'.broker.Alive()
      && if !Full(Reliable(max), s.broker) then
           && s.broker.pending == [] == s'.broker.pending
           && s'.broker.cached == s.broker.cached + {pid}
           && s'.down == s.down + [RecDown(pid)]
           && Deliveries(s'.broker.log) == Deliveries(s.broker.log) + [msg]
         else
           && s'.broker.pending == s.broker.pending + [(pid, msg)]
           && s'.broker.cached == s.broker.cached
           && s'.down == s.down
           && Deliveries(s'.broker.log) == Deliveries(s.broker.log)
  {
    hide Step; hide WorkConserving; hide FlatMap; hide Deliveries; hide Replies; hide Moved; hide Deferred;
    hide SendOne; hide OnPubrec; hide OnAck;
    var PublishUp(pid, msg) := s.up[0];
    var s' := Next(max, s, BrokerReceive);
    PublishEffect(max, s.broker, pid, msg);
    if !Full(Reliable(max), s.broker) {
      MovedOne(s.broker, s'.broker, pid, msg);
      StepReplies(s.broker.log, s'.broker.log, [RecDown(pid)]);
    } else {
      MovedNothing(s.broker, s'.broker);
      StepReplies(s.broker.log, s'.broker.log, []);
      assert s.down + [] == s.down;
    }
  }

  lemma BrokerPublishKeeps(window: nat, max: nat, s: System)
    requires SysInv(window, max, s) && s.up != [] && s.up[0].PublishUp?
    requires window <= max + 4096
    ensures SysInv(window, max, Next(max, s, BrokerReceive))
  {
    hide Next; hide FlowInv; hide BrokerReachable; hide InOrder; hide Tokens; hide Phases;
    var PublishUp(pid, msg) := s.up[0];
    var s' := Next(max, s, BrokerReceive);
    BrokerMoves(max, s);
    NeverDropped(window, max, s);
    PublishShape(max, s);
    if !Full(Reliable(max), s.broker) {
      DirectPhases(s, s', pid, msg);
      DirectOrder(s, s', pid, msg);
    } else {
      DeferPhases(s, s', pid, msg);
      DeferOrder(s, s', pid, msg);
    }
  }

  lemma {:induction false} RecsAreIds(out: seq<(Pid, Message)>)
    ensures FlatMap(DownId, FlatMap(PendingRec, out)) == FlatMap(PendingId, out)
    ensures forall p :: p in FlatMap(PendingRec, out) ==> p.RecDown? && p.pid in (set e | e in out :: e.0)
    decreases |out|
  {
    if out != [] {
      var k := |out| - 1;
      RecsAreIds(out[..k]);
      FlatMapAppend(DownId, FlatMap(PendingRec, out[..k]), RecDown(out[k].0));
      forall p | p in FlatMap(PendingRec, out)
        ensures p.RecDown? && p.pid in (set e | e in out :: e.0)
      {
        if p in FlatMap(PendingRec, out[..k]) {
          var e :| e in out[..k] && e.0 == p.pid;
          assert e in out;
        } else {
          assert p == RecDown(out[k].0) && out[k] in out;
        }
      }
    }
  }

  /** A PUBREL: its packet becomes a PUBCOMP, and a prefix of the queue becomes PUBRECs. */
  lemma ReleasePhases(s: System, s': System, pid: Pid, k: nat)
    requires s.up != [] && s.up[0] == ReleaseUp(pid) && k <= |s.broker.pending|
    requires Phases(s) && Tokens(s) == multiset(s.client.inflight.Keys)
    requires s'.client == s.client && s'.up == s.up[1..]
    requires s'.broker.pending == s.broker.pending[k..]
    requires s'.broker.cached == s.broker.cached - {pid} + (set e | e in s.broker.pending[..k] :: e.0)
    requires s'.down == s.down + [CompDown(pid)] + FlatMap(PendingRec, s.broker.pending[..k])
    ensures Phases(s')
  {
    hide FlatMap; hide Tokens;
    var out := s.broker.pending[..k];
    TokensApart(s);
    UpHeadApart(s);
    assert s.up[0] in s.up;
    assert forall e :: e in out ==> e in s.broker.pending;
    forall p | p in s'.up ensures UpPhase(s', p) { assert UpPhase(s, p) && p.pid != pid; }
    forall p | p in s'.down ensures DownPhase(s', p) {
      RecsAreIds(out);
      if p in s.down { assert DownPhase(s, p) && p.pid != pid; }
    }
  }

  lemma ReleaseTokens(s: System, s': System, pid: Pid, k: nat)
    requires s.up != [] && s.up[0] == ReleaseUp(pid) && k <= |s.broker.pending|
    requires s'.up == s.up[1..] && s'.broker.pending == s.broker.pending[k..]
    requires s'.down == s.down + [CompDown(pid)] + FlatMap(PendingRec, s.broker.pending[..k])
    ensures Tokens(s') == Tokens(s)
  {
    hide FlatMap;
    var out, rest := s.broker.pending[..k], s.broker.pending[k..];
    PopUpTokens(s);
    assert s.broker.pending == out + rest;
    FlatMapConcat(PendingId, out, rest);
    FlatMapAppend(DownId, s.down, CompDown(pid));
    FlatMapConcat(DownId, s.down + [CompDown(pid)], FlatMap(PendingRec, out));
    RecsAreIds(out);
  }

  lemma ReleaseOrder(s: System, s': System, k: nat)
    requires InOrder(s) && s.up != [] && s.up[0].ReleaseUp? && k <= |s.broker.pending|
    requires s'.client == s.client && s'.up == s.up[1..] && s'.broker.pending == s.broker.pending[k..]
    requires Deliveries(s'.broker.log) == Deliveries(s.broker.log) + FlatMap(PendingMsg, s.broker.pending[..k])
    ensures InOrder(s')
  {
    hide FlatMap; hide Deliveries; hide Numbers;
    var out, rest := s.broker.pending[..k], s.broker.pending[k..];
    assert s.broker.pending == out + rest;
    FlatMapConcat(PendingMsg, out, rest);
    FlatMapHead(UpMsg, s.up);
    Associative(Deliveries(s.broker.log), FlatMap(PendingMsg, out), FlatMap(PendingMsg, rest));
    assert [] + FlatMap(UpMsg, s.up[1..]) == FlatMap(UpMsg, s.up[1..]);
  }

  lemma ReleaseShape(max: nat, s: System) returns (k: nat)
    requires FlowInv(Reliable(max), s.broker) && s.broker.Alive() && s.up != [] && s.up[0].ReleaseUp?
    requires s.client.slots.Valid()
    ensures k <= |s.broker.pending|
    ensures var s', pid, out := Next(max, s, BrokerReceive), s.up[0].pid, s.broker.pending[..k];
      && s'.client == s.client && s'.up == s.up[1..]
      && s'.broker.pending == s.broker.pending[k..]
      && s'.broker.cached == s.broker.cached - {pid} + (set e | e in out :: e.0)
      && s'.down == s.down + [CompDown(pid)] + FlatMap(PendingRec, out)
      && Deliveries(s'.broker.log) == Deliveries(s.broker.log) + FlatMap(PendingMsg, out)
      && s'.broker.Alive()
  {
    var pid, s' := s.up[0].pid, Next(max, s, BrokerReceive);
    var b1;
    k, b1 := ReleaseEffect(max, s.broker, pid);
    var recs := FlatMap(PendingRec, s.broker.pending[..k]);
    Associative(Replies(s.broker.log), [CompDown(pid)], recs);
    StepReplies(s.broker.log, s'.broker.log, [CompDown(pid)] + recs);
    Associative(s.down, [CompDown(pid)], recs);
  }

  lemma BrokerReleaseKeeps(window: nat, max: nat, s: System)
    requires SysInv(window, max, s) && s.up != [] && s.up[0].ReleaseUp?
    ensures SysInv(window, max, Next(max, s, BrokerReceive))
  {
    hide Next; hide BrokerReachable; hide InOrder; hide Tokens; hide FlatMap; hide SlotsMatch; hide WorkConserving;
    hide FlowInv;
    ValidSlots(s.client);
    var pid, s' := s.up[0].pid, Next(max, s, BrokerReceive);
    BrokerMoves(max, s);
    var k := ReleaseShape(max, s);
    ReleasePhases(s, s', pid, k);
    ReleaseTokens(s, s', pid, k);
    ReleaseOrder(s, s', k);
    assert forall e :: e in s.broker.pending[..k] ==> e in s.broker.pending && Carries(s.client, e.0, e.1);
  }

  lemma NextKeeps(window: nat, max: nat, s: System, m: Move)
    requires SysInv(window, max, s) && window <= max + 4096
    ensures SysInv(window, max, Next(max, s, m))
  {
    hide SysInv; hide Step; hide SendOne;
    match m
    case ClientSend(ts) => SendKeeps(window, max, s, ts);
    case ClientReceive =>
      if s.down != [] {
        if s.down[0].RecDown? { ClientRecKeeps(window, max, s); } else { ClientCompKeeps(window, max, s); }
      }
    case BrokerReceive =>
      if s.up != [] {
        if s.up[0].PublishUp? { BrokerPublishKeeps(window, max, s); } else { BrokerReleaseKeeps(window, max, s); }
      }
  }

  lemma {:induction false} PlayKeeps(window: nat, max: nat, s: System, moves: seq<Move>)
    requires SysInv(window, max, s) && window <= max + 4096
    ensures SysInv(window, max, Play(max, s, moves))
    decreases |moves|
  {
    if moves != [] {
      NextKeeps(window, max, s, moves[0]);
      PlayKeeps(window, max, Next(max, s, moves[0]), moves[1..]);
    }
  }

  lemma Reachable(window: nat, max: nat, moves: seq<Move>)
    requires 1 <= window <= 65535 && window <= max + 4096
    ensures SysInv(window, max, Play(max, Start(window), moves))
  {
    assert Tokens(Start(window)) == multiset{};
    assert Initial == Run(Reliable(max), Initial, []);
    PlayKeeps(window, max, Start(window), moves);
  }

  // ---------------------------------------------------------------------------------------------
  // Progress
  // ---------------------------------------------------------------------------------------------

  function RecOf(p: Down): seq<Pid> { if p.RecDown? then [p.pid] else [] }

  /** Receive moves left in the exchange, bounded: 5 for a PUBLISH under way down to 1 for a PUBCOMP. */
  function Work(s: System): nat {
    2 * |s.up| + 3 * |FlatMap(UpMsg, s.up)| + 4 * |s.broker.pending| + |s.down| + 2 * |FlatMap(RecOf, s.down)|
  }

  lemma {:induction false} RecsCounted(out: seq<(Pid, Message)>)
    ensures |FlatMap(PendingRec, out)| == |out|
    ensures |FlatMap(RecOf, FlatMap(PendingRec, out))| == |out|
    decreases |out|
  {
    if out != [] {
      var k := |out| - 1;
      RecsCounted(out[..k]);
      FlatMapAppend(RecOf, FlatMap(PendingRec, out[..k]), RecDown(out[k].0));
    }
  }

  predicate Enabled(s: System, m: Move) {
    match m
    case ClientSend(_) => false
    case ClientReceive => s.down != []
    case BrokerReceive => s.up != []
  }

  lemma ClientWork(max: nat, s: System)
    requires s.client.slots.Valid() && s.down != []
    ensures Work(Next(max, s, ClientReceive)) < Work(s)
  {
    FlatMapHead(RecOf, s.down);
    FlatMapAppend(UpMsg, s.up, ReleaseUp(s.down[0].pid));
    assert s.up + [] == s.up;
  }

  lemma ReleaseWork(max: nat, s: System)
    requires FlowInv(Reliable(max), s.broker) && s.broker.Alive() && s.client.slots.Valid()
    requires s.up != [] && s.up[0].ReleaseUp?
    ensures Work(Next(max, s, BrokerReceive)) < Work(s)
  {
    hide Next;
    FlatMapHead(UpMsg, s.up);
    var k := ReleaseShape(max, s);
    var out := s.broker.pending[..k];
    RecsCounted(out);
    FlatMapAppend(RecOf, s.down, CompDown(s.up[0].pid));
    FlatMapConcat(RecOf, s.down + [CompDown(s.up[0].pid)], FlatMap(PendingRec, out));
  }

  lemma PublishWork(window: nat, max: nat, s: System)
    requires SysInv(window, max, s) && window <= max + 4096
    requires s.up != [] && s.up[0].PublishUp?
    ensures Work(Next(max, s, BrokerReceive)) < Work(s)
  {
    hide Next; hide InOrder; hide Tokens; hide Phases; hide BrokerReachable; hide FlowInv;
    NeverDropped(window, max, s);
    PublishShape(max, s);
    FlatMapHead(UpMsg, s.up);
    FlatMapAppend(RecOf, s.down, RecDown(s.up[0].pid));
  }

  /** Delivering a packet uses up work. */
  lemma ReceiveWork(window: nat, max: nat, s: System, m: Move)
    requires SysInv(window, max, s) && window <= max + 4096 && Enabled(s, m)
    ensures Work(Next(max, s, m)) < Work(s)
  {
    hide Work; hide Next;
    match m
    case ClientReceive => ClientWork(max, s);
    case BrokerReceive => if s.up[0].ReleaseUp? { ReleaseWork(max, s); } else { PublishWork(window, max, s); }
  }

  /** Schedules that only deliver packets, each of them present when its turn comes. */
  predicate Delivering(max: nat, s: System, moves: seq<Move>)
    requires s.client.slots.Valid()
    decreases |moves|
  {
    moves == [] || (Enabled(s, moves[0]) && Delivering(max, Next(max, s, moves[0]), moves[1..]))
  }

  lemma {:induction false} DeliveringIsBounded(window: nat, max: nat, s: System, moves: seq<Move>)
    requires SysInv(window, max, s) && window <= max + 4096
    requires Delivering(max, s, moves)
    ensures |moves| + Work(Play(max, s, moves)) <= Work(s)
    decreases |moves|
  {
    hide Work; hide Next;
    if moves != [] {
      ReceiveWork(window, max, s, moves[0]);
      NextKeeps(window, max, s, moves[0]);
      DeliveringIsBounded(window, max, Next(max, s, moves[0]), moves[1..]);
    }
  }

  // ---------------------------------------------------------------------------------------------
  // Main results
  // ---------------------------------------------------------------------------------------------

  predicate InFlight(client: Sender, m: Message) {
    exists pid :: pid in client.inflight && client.inflight[pid].msg == m
  }

  lemma TravellingIsInFlight(s: System, m: Message)
    requires Phases(s) && m in FlatMap(PendingMsg, s.broker.pending) + FlatMap(UpMsg, s.up)
    ensures InFlight(s.client, m)
  {
    if m in FlatMap(PendingMsg, s.broker.pending) {
      FlatMapMember(PendingMsg, s.broker.pending, m);
      var i :| 0 <= i < |s.broker.pending| && m in PendingMsg(s.broker.pending[i]);
      assert s.broker.pending[i] in s.broker.pending;
    } else {
      FlatMapMember(UpMsg, s.up, m);
      var i :| 0 <= i < |s.up| && m in UpMsg(s.up[i]);
      assert UpPhase(s, s.up[i]);
    }
  }

  /**
   In every interleaving the deliveries are exactly messages 0, 1, 2, ... in order, so each is
   delivered at most once; and a message whose slot was released has been delivered.
   */
  lemma ExactlyOnceInOrder(window: nat, max: nat, moves: seq<Move>, m: Message)
    requires 1 <= window <= 65535 && window <= max + 4096
    ensures var s := Play(max, Start(window), moves);
      var d := Deliveries(s.broker.log);
      && |d| <= s.client.sent
      && (m < |d| ==> d[m] == m)
      && (m < s.client.sent && !InFlight(s.client, m) ==> m < |d|)
  {
    hide Play; hide FlatMap; hide Deliveries; hide Numbers; hide Phases; hide InFlight; hide Tokens;
    hide BrokerReachable; hide FlowInv; hide WorkConserving; hide SlotsMatch;
    var s := Play(max, Start(window), moves);
    Reachable(window, max, moves);
    var d := Deliveries(s.broker.log);
    var rest := FlatMap(PendingMsg, s.broker.pending) + FlatMap(UpMsg, s.up);
    Associative(d, FlatMap(PendingMsg, s.broker.pending), FlatMap(UpMsg, s.up));
    PartsOfNumbers(d, rest, s.client.sent, m);
    if |d| <= m < s.client.sent { TravellingIsInFlight(s, m); }
  }

  lemma PartsOfNumbers(d: seq<Message>, rest: seq<Message>, n: nat, m: Message)
    requires d + rest == Numbers(n)
    ensures |d| <= n && (m < |d| ==> d[m] == m) && (|d| <= m < n ==> m in rest)
  {
    hide Numbers;
    NumbersAt(n);
    if m < |d| { assert d[m] == (d + rest)[m]; }
    if |d| <= m < n { assert rest[m - |d|] == (d + rest)[m]; }
  }

  /** The id of a new PUBLISH is unknown to the broker and on no packet under way. */
  lemma IdsAreFresh(window: nat, max: nat, moves: seq<Move>, ts: nat)
    requires 1 <= window <= 65535 && window <= max + 4096
    ensures var s := Play(max, Start(window), moves);
      var up := SendOne(s.client, ts).1;
      up.Some? ==>
        && up.value.pid !in s.broker.cached && !Deferred(s.broker, up.value.pid)
        && (forall p :: p in s.up ==> p.pid != up.value.pid)
        && (forall p :: p in s.down ==> p.pid != up.value.pid)
  {
    var s := Play(max, Start(window), moves);
    Reachable(window, max, moves);
    SendOneMatches(s.client, ts);
    DisjointParts(FlatMap(UpId, s.up), FlatMap(PendingId, s.broker.pending), FlatMap(DownId, s.down),
      s.client.inflight.Keys);
    forall p | p in s.up ensures p.pid in s.client.inflight { UpSeen(s.up, p); }
    forall p | p in s.down ensures p.pid in s.client.inflight { DownSeen(s.down, p); }
    forall e | e in s.broker.pending ensures e.0 in s.client.inflight { PendingSeen(s.broker.pending, e); }
  }

  /** A client that respects the broker's window is never deferred. */
  lemma NothingDeferred(window: nat, max: nat, moves: seq<Move>)
    requires 1 <= window <= 65535 && window <= max
    ensures Play(max, Start(window), moves).broker.pending == []
  {
    var s := Play(max, Start(window), moves);
    Reachable(window, max, moves);
    WindowBound(window, max, s, {});
  }

  lemma RestDefersNothing(window: nat, max: nat, s: System)
    requires SysInv(window, max, s) && max > 0 && s.up == [] && s.down == []
    ensures s.broker.pending == []
  {
    hide BrokerReachable; hide Phases; hide InOrder; hide SlotsMatch;
    if s.broker.pending != [] {
      assert Full(Reliable(max), s.broker) && s.broker.cached != {};
      var pid :| pid in s.broker.cached;
      assert pid in Tokens(s);
      FlatMapMember(PendingId, s.broker.pending, pid);
      assert false;
    }
  }

  lemma RestHoldsNothing(window: nat, max: nat, s: System)
    requires SysInv(window, max, s) && s.broker.pending == [] && s.up == [] && s.down == []
    ensures s.client.inflight == map[]
  {
    hide BrokerReachable; hide Phases; hide InOrder; hide SlotsMatch; hide FlowInv; hide WorkConserving;
    assert Tokens(s) == multiset{};
    assert forall pid :: pid in s.client.inflight.Keys <==> pid in multiset(s.client.inflight.Keys);
  }

  /** With nothing under way, every slot is free and every message was delivered once, in order. */
  lemma Quiescent(window: nat, max: nat, s: System)
    requires SysInv(window, max, s) && max > 0 && s.up == [] && s.down == []
    ensures s.client.inflight == map[] && true !in s.client.slots.used
    ensures Deliveries(s.broker.log) == Numbers(s.client.sent)
  {
    hide BrokerReachable; hide Phases; hide FlowInv; hide WorkConserving; hide Tokens;
    RestDefersNothing(window, max, s);
    RestHoldsNothing(window, max, s);
    forall i | 0 <= i < window ensures !s.client.slots.used[i] {
      var pid: Pid := i + 1;
      assert pid !in s.client.inflight;
    }
  }

  lemma CompletesFrom(window: nat, max: nat, s: System, rest: seq<Move>)
    requires SysInv(window, max, s) && window <= max + 4096 && 0 < max
    requires Delivering(max, s, rest)
    ensures |rest| <= Work(s)
    ensures var e := Play(max, s, rest);
      e.up == [] && e.down == [] ==>
        e.client.inflight == map[] && true !in e.client.slots.used && Deliveries(e.broker.log) == Numbers(e.client.sent)
  {
    hide Next; hide Work; hide Play; hide Delivering;
    PlayKeeps(window, max, s, rest);
    DeliveringIsBounded(window, max, s, rest);
    var e := Play(max, s, rest);
    if e.up == [] && e.down == [] { Quiescent(window, max, e); }
  }

  /**
   Progress: whatever was sent, any way of delivering the packets under way stops after at most
   `Work` steps, and it can only stop with every slot free and every message delivered once, in order.
   */
  lemma EveryMessageCompletes(window: nat, max: nat, moves: seq<Move>, rest: seq<Move>)
    requires 1 <= window <= 65535 && 0 < max && window <= max + 4096
    requires Delivering(max, Play(max, Start(window), moves), rest)
    ensures var s := Play(max, Start(window), moves);
      var e := Play(max, s, rest);
      && |rest| <= Work(s)
      && (e.up == [] && e.down == [] ==>
            e.client.inflight == map[] &&
            true !in e.client.slots.used && Deliveries(e.broker.log) == Numbers(e.client.sent))
  {
    hide Next; hide Work; hide Play; hide Delivering;
    Reachable(window, max, moves);
    CompletesFrom(window, max, Play(max, Start(window), moves), rest);
  }
}
