/**
 The two-party system with the client's acknowledgement timeout on: at any time the client may give
 up on a message and free its packet id. Delivery stays at most once and in order whatever the
 windows are; exactly once is lost when a freed id is used again while the broker still holds it.
 */
module QosTimeouts {
  import opened Wrappers
  import opened Sequences
  import opened QosReceiver
  import opened QosSender
  import opened QosProtocol

  datatype Move = Regular(move: QosProtocol.Move) | GiveUp(pid: Pid)

  /** A sweep of timeouts is some of these moves in a row. */
  function Next(max: nat, s: System, m: Move): (s': System)
    requires s.client.slots.Valid()
    ensures s'.client.slots.Valid()
  {
    match m
    case Regular(move) => QosProtocol.Next(max, s, move)
    case GiveUp(pid) => s.(client := OnAck(s.client, pid))
  }

  function Play(max: nat, s: System, moves: seq<Move>): (s': System)
    requires s.client.slots.Valid()
    ensures s'.client.slots.Valid()
    decreases |moves|
  {
    if moves == [] then s else Play(max, Next(max, s, moves[0]), moves[1..])
  }

  /** Messages delivered, then those waiting at the broker, then those under way to it. */
  function Order(s: System): seq<Message> {
    Deliveries(s.broker.log) + FlatMap(PendingMsg, s.broker.pending) + FlatMap(UpMsg, s.up)
  }

  ghost predicate Inv(max: nat, s: System) {
    && s.broker.Alive() && BrokerReachable(max, s.broker)
    && Increasing(Order(s)) && Below(Order(s), s.client.sent)
  }

  /** The broker keeps nothing of a PUBLISH: its id is held or deferred, or both stores are full. */
  predicate Refused(max: nat, b: State, pid: Pid) {
    pid in b.cached || Deferred(b, pid) || (Full(Reliable(max), b) && |b.pending| >= PENDING_CAP)
  }

  // ---------------------------------------------------------------------------------------------
  // The broker's side
  // ---------------------------------------------------------------------------------------------

  /** A PUBLISH that is refused changes no message; one for a held id is answered all the same. */
  lemma RefusedEffect(max: nat, b: State, pid: Pid, msg: Message)
    requires b.Alive() && Refused(max, b, pid)
    ensures var b' := Step(Reliable(max), b, Publish(ExactlyOnce, Some(pid), msg));
      && b'.Alive() && b'.pending == b.pending && b'.cached == b.cached && b.log <= b'.log
      && Deliveries(b'.log) == Deliveries(b.log)
      && Replies(b'.log) == Replies(b.log) + (if !Deferred(b, pid) && pid in b.cached then [RecDown(pid)] else [])
  {
    hide Deliveries; hide Replies;
    var a, r := Received(Publish(ExactlyOnce, Some(pid), msg)), Replied(PubRec(pid, true), true);
    LogStep(b.log, a);
    LogStep(b.log + [a], r);
    assert Replies(b.log) + [] == Replies(b.log);
  }

  lemma OrderAfter(s: System, s': System, out: seq<(Pid, Message)>, k: nat)
    requires k <= |s.broker.pending| && out == s.broker.pending[..k] && s'.broker.pending == s.broker.pending[k..]
    requires Deliveries(s'.broker.log) == Deliveries(s.broker.log) + FlatMap(PendingMsg, out)
    requires FlatMap(UpMsg, s'.up) == FlatMap(UpMsg, s.up)
    ensures Order(s') == Order(s)
  {
    hide FlatMap; hide Deliveries;
    assert s.broker.pending == out + s'.broker.pending;
    FlatMapConcat(PendingMsg, out, s'.broker.pending);
    Associative(Deliveries(s.broker.log), FlatMap(PendingMsg, out), FlatMap(PendingMsg, s'.broker.pending));
  }

  /** A release lets messages move on but changes neither which there are nor their order. */
  lemma ReleaseOrder(max: nat, s: System)
    requires Inv(max, s) && s.client.slots.Valid() && s.up != [] && s.up[0].ReleaseUp?
    ensures var s' := QosProtocol.Next(max, s, BrokerReceive);
      s'.broker.Alive() && s'.client == s.client && Order(s') == Order(s)
  {
    hide FlatMap; hide Deliveries; hide Increasing; hide Below; hide BrokerReachable; hide FlowInv;
    hide QosProtocol.Next;
    BrokerFlow(max, s.broker);
    var k := ReleaseShape(max, s);
    var s' := QosProtocol.Next(max, s, BrokerReceive);
    FlatMapHead(UpMsg, s.up);
    assert [] + FlatMap(UpMsg, s.up[1..]) == FlatMap(UpMsg, s.up[1..]);
    OrderAfter(s, s', s.broker.pending[..k], k);
  }

  /** Exactly which arriving messages are lost. */
  lemma LostExactlyWhen(max: nat, s: System)
    requires Inv(max, s) && s.client.slots.Valid() && s.up != [] && s.up[0].PublishUp?
    ensures var s' := QosProtocol.Next(max, s, BrokerReceive);
      && s'.broker.Alive() && s'.client == s.client
      && (Order(s') == Order(s) <==> !Refused(max, s.broker, s.up[0].pid))
      && (Refused(max, s.broker, s.up[0].pid) ==>
            Order(s') ==
            Deliveries(s.broker.log) + FlatMap(PendingMsg, s.broker.pending) + FlatMap(UpMsg, s.up[1..]))
  {
    hide FlatMap; hide Deliveries; hide Increasing; hide Below; hide BrokerReachable; hide Step; hide Refused;
    var PublishUp(pid, msg) := s.up[0];
    var s' := QosProtocol.Next(max, s, BrokerReceive);
    var b, b' := s.broker, s'.broker;
    assert b' == Step(Reliable(max), b, Publish(ExactlyOnce, Some(pid), msg)) && s'.up == s.up[1..];
    FlatMapHead(UpMsg, s.up);
    var rest := FlatMap(UpMsg, s.up[1..]);
    assert FlatMap(UpMsg, s.up) == [msg] + rest;
    if Refused(max, b, pid) {
      RefusedEffect(max, b, pid, msg);
      assert |Order(s')| < |Order(s)|;
    } else {
      TakenEffect(max, b, pid, msg);
      var front := Deliveries(b.log) + FlatMap(PendingMsg, b.pending);
      Associative(front, [msg], rest);
    }
  }

  lemma TakenEffect(max: nat, b: State, pid: Pid, msg: Message)
    requires b.Alive() && BrokerReachable(max, b) && !Refused(max, b, pid)
    ensures var b' := Step(Reliable(max), b, Publish(ExactlyOnce, Some(pid), msg));
      && b'.Alive()
      && Deliveries(b'.log) + FlatMap(PendingMsg, b'.pending) ==
         Deliveries(b.log) + FlatMap(PendingMsg, b.pending) + [msg]
  {
    hide FlatMap; hide Deliveries; hide Replies; hide Step; hide BrokerReachable; hide FlowInv;
    hide WorkConserving;
    BrokerFlow(max, b);
    PublishEffect(max, b, pid, msg);
    One((pid, msg));
    NoneWaiting();
    FlatMapAppend(PendingMsg, b.pending, (pid, msg));
    if Full(Reliable(max), b) {
      Associative(Deliveries(b.log), FlatMap(PendingMsg, b.pending), [msg]);
      assert Deliveries(b.log) + [] == Deliveries(b.log);
    } else {
      assert Deliveries(b.log) + [] == Deliveries(b.log);
      assert Deliveries(b.log) + [msg] + [] == Deliveries(b.log) + [msg];
    }
  }

  lemma NoneWaiting()
    ensures FlatMap(PendingMsg, []) == []
  {
  }

  // ---------------------------------------------------------------------------------------------
  // At most once, in order
  // ---------------------------------------------------------------------------------------------

  lemma BrokerKeeps(max: nat, s: System)
    requires Inv(max, s) && s.client.slots.Valid() && s.up != []
    ensures Inv(max, QosProtocol.Next(max, s, BrokerReceive))
  {
    hide FlatMap; hide Deliveries; hide Increasing; hide Below; hide BrokerReachable; hide Step; hide Refused;
    BrokerSteps(max, s.broker, ToEvent(s.up[0]));
    if s.up[0].ReleaseUp? {
      ReleaseOrder(max, s);
    } else {
      LostExactlyWhen(max, s);
      if Refused(max, s.broker, s.up[0].pid) {
        FlatMapHead(UpMsg, s.up);
        var front, back := Deliveries(s.broker.log) + FlatMap(PendingMsg, s.broker.pending), FlatMap(UpMsg, s.up);
        DropMiddle(front, back, s.client.sent);
        assert back[1..] == FlatMap(UpMsg, s.up[1..]);
      }
    }
  }

  lemma ClientKeeps(max: nat, s: System, m: Move)
    requires Inv(max, s) && s.client.slots.Valid() && m != Regular(BrokerReceive)
    ensures Inv(max, Next(max, s, m))
  {
    hide FlatMap; hide Deliveries; hide BrokerReachable; hide Take; hide Step; hide Increasing; hide Below;
    var s' := Next(max, s, m);
    if m.Regular? && m.move.ClientSend? {
      var up := SendOne(s.client, m.move.ts).1;
      if up.Some? {
        FlatMapAppend(UpMsg, s.up, up.value);
        var front := Deliveries(s.broker.log) + FlatMap(PendingMsg, s.broker.pending);
        PushLast(front, FlatMap(UpMsg, s.up), s.client.sent);
      } else {
        assert s.up + [] == s.up;
      }
    } else if m.Regular? && m.move.ClientReceive? && s.down != [] {
      FlatMapAppend(UpMsg, s.up, ReleaseUp(s.down[0].pid));
      assert s.up + [] == s.up;
    }
  }

  lemma {:induction false} PlayKeeps(max: nat, s: System, moves: seq<Move>)
    requires Inv(max, s) && s.client.slots.Valid()
    ensures Inv(max, Play(max, s, moves))
    decreases |moves|
  {
    hide Next; hide Inv;
    if moves != [] {
      MoveKeeps(max, s, moves[0]);
      PlayKeeps(max, Next(max, s, moves[0]), moves[1..]);
    }
  }

  lemma MoveKeeps(max: nat, s: System, m: Move)
    requires Inv(max, s) && s.client.slots.Valid()
    ensures Inv(max, Next(max, s, m))
  {
    hide Inv;
    if m != Regular(BrokerReceive) {
      ClientKeeps(max, s, m);
    } else if s.up != [] {
      BrokerKeeps(max, s);
    }
  }

  lemma StartInv(window: nat, max: nat)
    requires 1 <= window <= 65535
    ensures Inv(max, Start(window))
  {
    assert Initial == Run(Reliable(max), Initial, []);
  }

  /**
   Whatever the windows and whenever the client gives up on messages, deliveries are in sending
   order and none is repeated, and only messages sent are delivered.
   */
  lemma AtMostOnceInOrder(window: nat, max: nat, moves: seq<Move>)
    requires 1 <= window <= 65535
    ensures var s := Play(max, Start(window), moves);
      Increasing(Deliveries(s.broker.log)) && Below(Deliveries(s.broker.log), s.client.sent)
  {
    hide Play; hide BrokerReachable; hide FlatMap; hide Deliveries;
    StartInv(window, max);
    PlayKeeps(max, Start(window), moves);
    var s := Play(max, Start(window), moves);
    var d := Deliveries(s.broker.log);
    forall i | 0 <= i < |d| ensures Order(s)[i] == d[i] { }
  }

  // ---------------------------------------------------------------------------------------------
  // A message that is lost
  // ---------------------------------------------------------------------------------------------

  /** Where the system stands, nothing being deferred. */
  ghost predicate At(max: nat, s: System, client: Sender, up: seq<Up>, down: seq<Down>, cached: set<Pid>) {
    && s.client == client && s.up == up && s.down == down && s.broker.cached == cached && s.broker.pending == []
    && s.broker.Alive() && BrokerReachable(max, s.broker) && Deliveries(s.broker.log) == [0]
  }

  function Client(used: bool, inflight: map<Pid, Inflight>, sent: nat): Sender {
    Sender(Slots([used], 0), inflight, sent)
  }

  lemma SendFromOne(inflight: map<Pid, Inflight>, sent: nat)
    ensures SendOne(Client(false, inflight, sent), 0) ==
      (Client(true, inflight[1 := Inflight(sent, 0, false)], sent + 1), Some(PublishUp(1, sent)))
  {
    var slots := Slots([false], 0);
    assert slots.At(0) == 0 && FreeFrom(slots, 0) == 0;
    assert [false][0 := true] == [true];
  }

  /** Message 0 is sent and delivered; its PUBREC is under way. */
  lemma FirstDelivered(max: nat)
    requires max >= 1
    ensures var s := Play(max, Start(1), [Regular(ClientSend(0)), Regular(BrokerReceive)]);
      At(max, s, Client(true, map[1 := Inflight(0, 0, false)], 1), [], [RecDown(1)], {1})
  {
    hide Step; hide BrokerReachable;
    var s0 := Start(1);
    assert s0.client == Client(false, map[], 0) by { assert seq(1, _ => false) == [false]; }
    SendFromOne(map[], 0);
    var s1 := QosProtocol.Next(max, s0, ClientSend(0));
    StartInv(1, max);
    MoveKeeps(max, s0, Regular(ClientSend(0)));
    BrokerFlow(max, s1.broker);
    PublishShape(max, s1);
    MoveKeeps(max, s1, Regular(BrokerReceive));
    PlayTwo(max, s0, Regular(ClientSend(0)), Regular(BrokerReceive));
  }

  lemma PlayTwo(max: nat, s: System, a: Move, b: Move)
    requires s.client.slots.Valid()
    ensures Play(max, s, [a, b]) == Next(max, Next(max, s, a), b)
  {
    hide Next;
    assert [a, b][1..] == [b] && [b][1..] == [];
    var s1 := Next(max, s, a);
    assert Play(max, s1, [b]) == Play(max, Next(max, s1, b), []);
  }

  lemma {:induction false} PlayConcat(max: nat, s: System, a: seq<Move>, b: seq<Move>)
    requires s.client.slots.Valid()
    ensures Play(max, s, a + b) == Play(max, Play(max, s, a), b)
    decreases |a|
  {
    hide Next;
    if a == [] {
      assert a + b == b;
    } else {
      PlayConcat(max, Next(max, s, a[0]), a[1..], b);
      assert (a + b)[1..] == a[1..] + b;
    }
  }

  /** The client gives up on message 0 and sends message 1 under the freed id. */
  lemma IdReused(max: nat, s: System)
    requires At(max, s, Client(true, map[1 := Inflight(0, 0, false)], 1), [], [RecDown(1)], {1})
    ensures var s' := Play(max, s, [GiveUp(1), Regular(ClientSend(0))]);
      At(max, s', Client(true, map[1 := Inflight(1, 0, false)], 2), [PublishUp(1, 1)], [RecDown(1)], {1})
  {
    hide BrokerReachable; hide Take; hide Deliveries;
    var s1 := Next(max, s, GiveUp(1));
    assert [true][0 := false] == [false];
    assert map[1 := Inflight(0, 0, false)] - {1} == map[];
    assert s1.client == Client(false, map[], 1);
    SendFromOne(map[], 1);
    PlayTwo(max, s, GiveUp(1), Regular(ClientSend(0)));
  }

  /** The broker takes it for a copy of message 0, answers it, and the client releases the id. */
  lemma TakenForCopy(max: nat, s: System)
    requires At(max, s, Client(true, map[1 := Inflight(1, 0, false)], 2), [PublishUp(1, 1)], [RecDown(1)], {1})
    ensures var s' := Play(max, s, [Regular(BrokerReceive), Regular(ClientReceive)]);
      At(max, s', Client(true, map[1 := Inflight(1, 0, true)], 2), [ReleaseUp(1)], [RecDown(1)], {1})
  {
    hide BrokerReachable; hide Step; hide Deliveries; hide Replies;
    RefusedEffect(max, s.broker, 1, 1);
    BrokerSteps(max, s.broker, ToEvent(s.up[0]));
    var s1 := QosProtocol.Next(max, s, BrokerReceive);
    StepReplies(s.broker.log, s1.broker.log, [RecDown(1)]);
    assert s1.down == [RecDown(1), RecDown(1)] && s1.up == [];
    assert s1.down[1..] == [RecDown(1)];
    PlayTwo(max, s, Regular(BrokerReceive), Regular(ClientReceive));
  }

  /** The release completes: the id is free on both sides and the client counts message 1 as done. */
  lemma Completed(max: nat, s: System)
    requires At(max, s, Client(true, map[1 := Inflight(1, 0, true)], 2), [ReleaseUp(1)], [RecDown(1)], {1})
    ensures var s1 := Next(max, s, Regular(BrokerReceive));
      var s' := Play(max, s1, [Regular(ClientReceive), Regular(ClientReceive)]);
      At(max, s', Client(false, map[], 2), [ReleaseUp(1)], [], {})
  {
    hide BrokerReachable; hide Step; hide Deliveries; hide FlowInv;
    BrokerFlow(max, s.broker);
    BrokerSteps(max, s.broker, ToEvent(s.up[0]));
    var k := ReleaseShape(max, s);
    var s1 := QosProtocol.Next(max, s, BrokerReceive);
    assert s.broker.pending[..k] == [] && FlatMap(PendingMsg, []) == [] && FlatMap(PendingRec, []) == [];
    assert s1.down == [RecDown(1), CompDown(1)] && s1.up == [];
    assert s1.down[1..] == [CompDown(1)] && s1.down[1..][1..] == [];
    assert [true][0 := false] == [false];
    assert map[1 := Inflight(1, 0, true)] - {1} == map[];
    PlayTwo(max, s1, Regular(ClientReceive), Regular(ClientReceive));
  }

  /**
   One slot suffices: the client gives up on message 0, delivered but not yet completed, and sends
   message 1 under its id. The broker answers it as a copy of message 0, the exchange completes, and
   message 1 is delivered to nobody.
   */
  lemma LossExample(max: nat) returns (moves: seq<Move>)
    requires max >= 1
    ensures var s := Play(max, Start(1), moves);
      s.client.sent == 2 && s.client.inflight == map[] && s.broker.pending == [] && Deliveries(s.broker.log) == [0]
      && FlatMap(UpMsg, s.up) == []
  {
    hide Next; hide Play; hide BrokerReachable;
    var a := [Regular(ClientSend(0)), Regular(BrokerReceive)];
    var b := [GiveUp(1), Regular(ClientSend(0))];
    var c := [Regular(BrokerReceive), Regular(ClientReceive)];
    var d := [Regular(ClientReceive), Regular(ClientReceive)];
    FirstDelivered(max);
    var s1 := Play(max, Start(1), a);
    IdReused(max, s1);
    var s2 := Play(max, s1, b);
    TakenForCopy(max, s2);
    var s3 := Play(max, s2, c);
    Completed(max, s3);
    PlayOne(max, s3, Regular(BrokerReceive));
    moves := a + b + c + [Regular(BrokerReceive)] + d;
    PlayConcat(max, Start(1), a, b);
    PlayConcat(max, Start(1), a + b, c);
    PlayConcat(max, Start(1), a + b + c, [Regular(BrokerReceive)]);
    PlayConcat(max, Start(1), a + b + c + [Regular(BrokerReceive)], d);
    OnlyRelease();
  }

  lemma OnlyRelease()
    ensures FlatMap(UpMsg, [ReleaseUp(1)]) == []
  {
  }

  lemma PlayOne(max: nat, s: System, m: Move)
    requires s.client.slots.Valid()
    ensures Play(max, s, [m]) == Next(max, s, m)
  {
    hide Next;
    assert [m][1..] == [];
  }
}
