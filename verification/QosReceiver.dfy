/**
 The receiving half of QoS 2 in a broker session: the inbound window, the deferral queue and
 the handlers for PUBLISH and PUBREL. Forwarding a message and writing a reply may fail; both are
 oracles indexed by the length of the history, so a statement about every `Env` is a statement
 about every behaviour of the rest of the broker and of the socket.
 */
module QosReceiver {
  import opened Wrappers
  import opened Sequences
  import opened Sets

  type Pid = p: int | 1 <= p <= 65535 witness 1

  /** Identity of an application message; topic and payload play no part here. */
  type Message = nat

  /** Bound of the deferral queue. */
  const PENDING_CAP := 4096

  datatype QoS = AtMostOnce | AtLeastOnce | ExactlyOnce

  datatype Event =
    | Publish(qos: QoS, id: Option<Pid>, msg: Message)
    | Release(pid: Pid)

  datatype Reply = PubAck(pid: Pid) | PubRec(pid: Pid, success: bool) | PubComp(pid: Pid)

  /** Outcome of handing a message to the rest of the broker: success, a refusal, or an error. */
  datatype Outcome = Accepted | Refused | Broken

  datatype Reason = WindowFull | PacketIdInUse | ProtocolError | PublishFailed | SendFailed

  datatype Status = Live | Ended(reason: Reason)

  /** One entry of the session's history. `TakenIn` marks a first copy that flow control keeps. */
  datatype Action =
    | Received(event: Event)
    | TakenIn(pid: Pid, msg: Message)
    | Delivered(pid: Pid, msg: Message, outcome: Outcome)
    | Forwarded(msg: Message, outcome: Outcome)
    | Replied(reply: Reply, ok: bool)

  datatype Env = Env(maxInflight: nat, publish: nat -> Outcome, send: nat -> bool)

  datatype State = State(cached: set<Pid>, pending: seq<(Pid, Message)>, log: seq<Action>, status: Status) {
    predicate Alive() { status.Live? }
  }

  const Initial := State({}, [], [], Live)

  // ---------------------------------------------------------------------------------------------
  // The transition function
  // ---------------------------------------------------------------------------------------------

  predicate Full(env: Env, s: State) {
    |s.cached| >= env.maxInflight
  }

  predicate Deferred(s: State, pid: Pid) {
    exists i :: 0 <= i < |s.pending| && s.pending[i].0 == pid
  }

  function Answer(env: Env, s: State, r: Reply): State {
    var ok := env.send(|s.log|);
    s.(log := s.log + [Replied(r, ok)], status := if ok then s.status else Ended(SendFailed))
  }

  /** Forward one QoS 2 message, register its id when that succeeded, and answer PUBREC. */
  function AckInbound(env: Env, s: State, pid: Pid, msg: Message): State {
    var outcome := env.publish(|s.log|);
    var s1 := s.(log := s.log + [Delivered(pid, msg, outcome)]);
    match outcome
    case Broken => s1.(status := Ended(PublishFailed))
    case Refused => Answer(env, s1, PubRec(pid, false))
    case Accepted =>
      if Full(env, s1) then s1.(status := Ended(WindowFull))
      else if pid in s1.cached then s1.(status := Ended(PacketIdInUse))
      else
        var s2 := Answer(env, s1, PubRec(pid, true));
        if s2.Alive() then s2.(cached := s.cached + {pid}) else s2
  }

  /** Process deferred messages, oldest first, while the window has room. */
  function Drain(env: Env, s: State): State
    decreases |s.pending|
  {
    if !s.Alive() || s.pending == [] || Full(env, s) then s
    else
      var (pid, msg) := s.pending[0];
      Drain(env, AckInbound(env, s.(pending := s.pending[1..]), pid, msg))
  }

  function OnExactlyOnce(env: Env, s: State, pid: Pid, msg: Message): State {
    if Deferred(s, pid) then s
    else if pid in s.cached then Answer(env, s, PubRec(pid, true))
    else if Full(env, s) then
      if |s.pending| >= PENDING_CAP then s
      else s.(pending := s.pending + [(pid, msg)], log := s.log + [TakenIn(pid, msg)])
    else AckInbound(env, s.(log := s.log + [TakenIn(pid, msg)]), pid, msg)
  }

  function OnAtLeastOnce(env: Env, s: State, pid: Pid, msg: Message): State {
    if Full(env, s) then s.(status := Ended(WindowFull))
    else
      var outcome := env.publish(|s.log|);
      var s1 := s.(log := s.log + [Forwarded(msg, outcome)]);
      if outcome == Broken then s1.(status := Ended(PublishFailed))
      else Answer(env, s1, PubAck(pid))
  }

  /** One inbound packet, up to and including its reply. A dead session does nothing. */
  function Step(env: Env, s: State, ev: Event): State {
    if !s.Alive() then s else
    var s0 := s.(log := s.log + [Received(ev)]);
    match ev
    case Release(pid) =>
      var s1 := Answer(env, s0.(cached := s0.cached - {pid}), PubComp(pid));
      Drain(env, s1)
    case Publish(ExactlyOnce, Some(pid), msg) => OnExactlyOnce(env, s0, pid, msg)
    case Publish(AtLeastOnce, Some(pid), msg) => OnAtLeastOnce(env, s0, pid, msg)
    case Publish(AtMostOnce, _, msg) =>
      var outcome := env.publish(|s0.log|);
      s0.(log := s0.log + [Forwarded(msg, outcome)], status := if outcome == Broken then Ended(PublishFailed) else Live)
    case Publish(_, None, _) => s0.(status := Ended(ProtocolError))
  }

  function Run(env: Env, s: State, events: seq<Event>): State
    decreases |events|
  {
    if events == [] then s else Run(env, Step(env, s, events[0]), events[1..])
  }

  // ---------------------------------------------------------------------------------------------
  // What every reachable state satisfies
  // ---------------------------------------------------------------------------------------------

  function TakenBy(a: Action): seq<(Pid, Message)> {
    if a.TakenIn? then [(a.pid, a.msg)] else []
  }

  function ProcessedBy(a: Action): seq<(Pid, Message)> {
    if a.Delivered? then [(a.pid, a.msg)] else []
  }

  /** First copies accepted by flow control, in arrival order. */
  function Taken(log: seq<Action>): seq<(Pid, Message)> { FlatMap(TakenBy, log) }

  /** QoS 2 messages handed to the broker, in that order. */
  function Processed(log: seq<Action>): seq<(Pid, Message)> { FlatMap(ProcessedBy, log) }

  predicate DeliveredAt(log: seq<Action>, i: int, pid: Pid) {
    0 <= i < |log| && log[i].Delivered? && log[i].pid == pid && log[i].outcome == Accepted
  }

  /** Position `i` is followed by a PUBREL for `pid` strictly before position `j`. */
  predicate ReleasedBetween(log: seq<Action>, i: int, j: int, pid: Pid)
    requires 0 <= i && j <= |log|
  {
    exists k :: i < k < j && log[k] == Received(Release(pid))
  }

  /** Two successful deliveries under one packet id are separated by a PUBREL for it. */
  ghost predicate AtMostOnceLog(log: seq<Action>) {
    forall pid: Pid, i, j :: DeliveredAt(log, i, pid) && DeliveredAt(log, j, pid) && i < j ==>
      ReleasedBetween(log, i, j, pid)
  }

  predicate DistinctIds(pending: seq<(Pid, Message)>) {
    forall i, j :: 0 <= i < j < |pending| ==> pending[i].0 != pending[j].0
  }

  /** Flow control: ids are registered or deferred, never both, and both stores are bounded. */
  predicate FlowInv(env: Env, s: State) {
    && |s.cached| <= env.maxInflight
    && |s.pending| <= PENDING_CAP
    && DistinctIds(s.pending)
    && (forall i :: 0 <= i < |s.pending| ==> s.pending[i].0 !in s.cached)
  }

  /** A live session defers only because its window is full. */
  predicate WorkConserving(env: Env, s: State) {
    s.Alive() && s.pending != [] ==> Full(env, s)
  }

  /** Every delivery not yet released is still registered. */
  ghost predicate OpenIsCached(s: State) {
    s.Alive() ==> forall pid: Pid, i ::
      DeliveredAt(s.log, i, pid) && !ReleasedBetween(s.log, i, |s.log|, pid) ==> pid in s.cached
  }

  /** Accepted first copies are processed in arrival order: what is not yet processed is the queue. */
  predicate Conserved(s: State) {
    Taken(s.log) == Processed(s.log) + s.pending
  }

  /** Registering a QoS 2 id never fails: only a QoS 1 publish can hit a full window. */
  predicate HonestEnd(s: State) {
    && s.status != Ended(PacketIdInUse)
    && (s.status == Ended(WindowFull) ==>
          s.log != [] && var a := s.log[|s.log| - 1];
          a.Received? && a.event.Publish? && a.event.qos == AtLeastOnce)
  }

  ghost predicate Safe(env: Env, s: State) {
    HonestEnd(s) && FlowInv(env, s) && OpenIsCached(s) && AtMostOnceLog(s.log) && Conserved(s)
  }

  ghost predicate Inv(env: Env, s: State) {
    Safe(env, s) && WorkConserving(env, s)
  }

  lemma TakenStep(log: seq<Action>, a: Action)
    ensures Taken(log + [a]) == Taken(log) + TakenBy(a)
    ensures Processed(log + [a]) == Processed(log) + ProcessedBy(a)
  {
    FlatMapAppend(TakenBy, log, a);
    FlatMapAppend(ProcessedBy, log, a);
  }

  lemma ReleasedGrows(log: seq<Action>, a: Action, i: int, pid: Pid)
    requires 0 <= i
    ensures ReleasedBetween(log + [a], i, |log|, pid) == ReleasedBetween(log, i, |log|, pid)
    ensures ReleasedBetween(log, i, |log|, pid) ==> ReleasedBetween(log + [a], i, |log| + 1, pid)
  {
    if ReleasedBetween(log, i, |log|, pid) {
      var k :| i < k < |log| && log[k] == Received(Release(pid));
      assert (log + [a])[k] == Received(Release(pid));
    }
    if ReleasedBetween(log + [a], i, |log|, pid) {
      var k :| i < k < |log| && (log + [a])[k] == Received(Release(pid));
      assert log[k] == Received(Release(pid));
    }
  }

  lemma ReleasedPrefix(log: seq<Action>, a: Action, i: int, j: int, pid: Pid)
    requires 0 <= i && j <= |log|
    requires ReleasedBetween(log, i, j, pid)
    ensures ReleasedBetween(log + [a], i, j, pid)
  {
    var k :| i < k < j && log[k] == Received(Release(pid));
    assert (log + [a])[k] == Received(Release(pid));
  }

  /** Logging an action that is not a delivery, nor a PUBREL for a registered id, keeps the log facts. */
  lemma LogQuiet(s: State, s': State, a: Action)
    requires OpenIsCached(s) && AtMostOnceLog(s.log) && s.Alive()
    requires s'.log == s.log + [a] &&
      s.cached <= s'.cached + (if a.Received? && a.event.Release? then {a.event.pid} else {})
    requires !(a.Delivered? && a.outcome == Accepted)
    ensures OpenIsCached(s') && AtMostOnceLog(s'.log)
  {
    forall pid: Pid, i | DeliveredAt(s'.log, i, pid)
      ensures DeliveredAt(s.log, i, pid)
      ensures !ReleasedBetween(s'.log, i, |s'.log|, pid) ==> pid in s'.cached
      ensures forall j :: DeliveredAt(s'.log, j, pid) && i < j ==> ReleasedBetween(s'.log, i, j, pid)
    {
      assert DeliveredAt(s.log, i, pid);
      ReleasedGrows(s.log, a, i, pid);
      if a == Received(Release(pid)) {
        assert s'.log[|s.log|] == Received(Release(pid));
      }
      forall j | DeliveredAt(s'.log, j, pid) && i < j
        ensures ReleasedBetween(s'.log, i, j, pid)
      {
        assert DeliveredAt(s.log, j, pid);
        ReleasedPrefix(s.log, a, i, j, pid);
      }
    }
  }

  /** A successful delivery under an id that was not registered. */
  lemma LogDelivery(s: State, s': State, a: Action)
    requires OpenIsCached(s) && AtMostOnceLog(s.log) && s.Alive()
    requires a.Delivered? && a.pid !in s.cached
    requires s'.log == s.log + [a]
    ensures AtMostOnceLog(s'.log)
    ensures s.cached + {a.pid} <= s'.cached ==> OpenIsCached(s')
  {
    forall pid: Pid, i | DeliveredAt(s'.log, i, pid)
      ensures !ReleasedBetween(s'.log, i, |s'.log|, pid) ==> pid in s.cached + {a.pid}
      ensures forall j :: DeliveredAt(s'.log, j, pid) && i < j ==> ReleasedBetween(s'.log, i, j, pid)
    {
      ReleasedGrows(s.log, a, i, pid);
      assert i < |s.log| ==> DeliveredAt(s.log, i, pid);
      forall j | DeliveredAt(s'.log, j, pid) && i < j
        ensures ReleasedBetween(s'.log, i, j, pid)
      {
        if j < |s.log| {
          assert DeliveredAt(s.log, j, pid);
          ReleasedPrefix(s.log, a, i, j, pid);
        }
      }
    }
  }

  lemma ReplyKeeps(env: Env, s: State, r: Reply)
    requires Safe(env, s) && s.Alive()
    ensures Safe(env, Answer(env, s, r))
  {
    var a := Replied(r, env.send(|s.log|));
    TakenStep(s.log, a);
    LogQuiet(s, Answer(env, s, r), a);
  }

  /** The window has room and the id is new, so `add` cannot fail: only the oracles end the session. */
  lemma AckKeeps(env: Env, s: State, pid: Pid, msg: Message)
    requires FlowInv(env, s) && OpenIsCached(s) && AtMostOnceLog(s.log) && s.Alive()
    requires Taken(s.log) == Processed(s.log) + [(pid, msg)] + s.pending
    requires pid !in s.cached && !Deferred(s, pid) && !Full(env, s)
    ensures var s' := AckInbound(env, s, pid, msg);
      && Safe(env, s')
      && s'.pending == s.pending
      && (s'.Alive() <==>
            var o := env.publish(|s.log|); o != Broken && env.send(|s.log| + 1))
  {
    var o := env.publish(|s.log|);
    var a := Delivered(pid, msg, o);
    var s1 := s.(log := s.log + [a]);
    TakenStep(s.log, a);
    assert Conserved(s1);
    if o == Accepted {
      var s2 := s1.(cached := s.cached + {pid});
      LogDelivery(s, s2, a);
      ReplyKeeps(env, s2, PubRec(pid, true));
      var s' := AckInbound(env, s, pid, msg);
      assert s'.log == Answer(env, s2, PubRec(pid, true)).log;
    } else {
      LogQuiet(s, s1, a);
      if o == Refused { ReplyKeeps(env, s1, PubRec(pid, false)); }
    }
  }

  lemma DrainKeeps(env: Env, s: State)
    requires Safe(env, s)
    ensures Inv(env, Drain(env, s))
    decreases |s.pending|
  {
    if s.Alive() && s.pending != [] && !Full(env, s) {
      var (pid, msg) := s.pending[0];
      var s1 := s.(pending := s.pending[1..]);
      assert s.pending == [(pid, msg)] + s1.pending;
      assert Processed(s.log) + s.pending == Processed(s.log) + [(pid, msg)] + s1.pending;
      AckKeeps(env, s1, pid, msg);
      DrainKeeps(env, AckInbound(env, s1, pid, msg));
    }
  }

  /** The arrival of a PUBLISH is noted. */
  lemma PublishArrives(env: Env, s: State, ev: Event)
    requires Inv(env, s) && s.Alive() && ev.Publish?
    ensures Inv(env, s.(log := s.log + [Received(ev)]))
  {
    hide OpenIsCached; hide AtMostOnceLog; hide Taken; hide Processed; hide FlowInv;
    var a := Received(ev);
    var s0 := s.(log := s.log + [a]);
    TakenStep(s.log, a);
    LogQuiet(s, s0, a);
    SameFlow(env, s, s0);
  }

  /** The arrival of a PUBREL is noted and its id is free. */
  lemma ReleaseArrives(env: Env, s: State, pid: Pid)
    requires Inv(env, s) && s.Alive()
    ensures Safe(env, s.(log := s.log + [Received(Release(pid))], cached := s.cached - {pid}))
  {
    hide OpenIsCached; hide AtMostOnceLog; hide Taken; hide Processed; hide FlowInv;
    var a := Received(Release(pid));
    var s0 := s.(log := s.log + [a], cached := s.cached - {pid});
    TakenStep(s.log, a);
    LogQuiet(s, s0, a);
    SameFlow(env, s, s0);
  }

  lemma SameFlow(env: Env, s: State, s': State)
    requires FlowInv(env, s) && s'.pending == s.pending && s'.cached <= s.cached
    ensures FlowInv(env, s')
  {
    SubsetSize(s'.cached, s.cached);
  }

  lemma StepKeeps(env: Env, s: State, ev: Event)
    requires Inv(env, s)
    ensures Inv(env, Step(env, s, ev))
  {
    hide OpenIsCached; hide AtMostOnceLog; hide Conserved; hide FlowInv; hide HonestEnd; hide Drain;
    if s.Alive() {
      match ev
      case Release(pid) =>
        ReleaseArrives(env, s, pid);
        var s1 := s.(log := s.log + [Received(ev)], cached := s.cached - {pid});
        ReplyKeeps(env, s1, PubComp(pid));
        DrainKeeps(env, Answer(env, s1, PubComp(pid)));
      case Publish(_, _, _) =>
        PublishArrives(env, s, ev);
        PublishKeeps(env, s, ev);
    }
  }

  lemma PublishKeeps(env: Env, s: State, ev: Event)
    requires s.Alive() && ev.Publish? && Inv(env, s.(log := s.log + [Received(ev)]))
    ensures Inv(env, Step(env, s, ev))
  {
    hide OpenIsCached; hide AtMostOnceLog; hide Conserved; hide FlowInv;
    var s0 := s.(log := s.log + [Received(ev)]);
    var Publish(qos, id, msg) := ev;
    match (qos, id) {
      case (ExactlyOnce, Some(pid)) => ExactlyOnceKeeps(env, s0, pid, msg);
      case (AtMostOnce, _) => var _ := ForwardKeeps(env, s0, msg);
      case (AtLeastOnce, Some(pid)) =>
        if !Full(env, s0) {
          var s1 := ForwardKeeps(env, s0, msg);
          if env.publish(|s0.log|) != Broken { ReplyKeeps(env, s1, PubAck(pid)); }
        } else {
          EndKeeps(env, s0, WindowFull);
        }
      case (_, None) => EndKeeps(env, s0, ProtocolError);
    }
  }

  /** Ending a session keeps all but the claim about why it ended. */
  lemma EndKeeps(env: Env, s: State, reason: Reason)
    requires Inv(env, s) && s.Alive()
    ensures var s' := s.(status := Ended(reason));
      FlowInv(env, s') && OpenIsCached(s') && AtMostOnceLog(s'.log) && Conserved(s') && WorkConserving(env, s')
  {
  }

  lemma ForwardKeeps(env: Env, s: State, msg: Message) returns (s': State)
    requires Inv(env, s) && s.Alive()
    ensures s' == s.(log := s.log + [Forwarded(msg, env.publish(|s.log|))])
    ensures s'.Alive() && Inv(env, s') && Inv(env, s'.(status := Ended(PublishFailed)))
  {
    var a := Forwarded(msg, env.publish(|s.log|));
    s' := s.(log := s.log + [a]);
    TakenStep(s.log, a);
    LogQuiet(s, s', a);
  }

  lemma ExactlyOnceKeeps(env: Env, s: State, pid: Pid, msg: Message)
    requires Inv(env, s) && s.Alive()
    ensures Inv(env, OnExactlyOnce(env, s, pid, msg))
  {
    var a := TakenIn(pid, msg);
    var s1 := s.(log := s.log + [a]);
    if Deferred(s, pid) {
    } else if pid in s.cached {
      ReplyKeeps(env, s, PubRec(pid, true));
    } else if Full(env, s) && |s.pending| >= PENDING_CAP {
    } else {
      TakenStep(s.log, a);
      LogQuiet(s, s1, a);
      if !Full(env, s) {
        assert s.pending == [];
        AckKeeps(env, s1, pid, msg);
      }
    }
  }

  /** The invariant holds after every sequence of packets, whatever forwarding and sending do. */
  lemma {:induction false} RunKeeps(env: Env, s: State, events: seq<Event>)
    requires Inv(env, s)
    ensures Inv(env, Run(env, s, events))
    decreases |events|
  {
    if events != [] {
      StepKeeps(env, s, events[0]);
      RunKeeps(env, Step(env, s, events[0]), events[1..]);
    }
  }

  lemma {:induction false} RunAppend(env: Env, s: State, events: seq<Event>, ev: Event)
    ensures Run(env, s, events + [ev]) == Step(env, Run(env, s, events), ev)
    decreases |events|
  {
    if events == [] {
      assert Run(env, s, [ev]) == Run(env, Step(env, s, ev), []);
      assert [] + [ev] == [ev];
    } else {
      assert (events + [ev])[1..] == events[1..] + [ev];
      RunAppend(env, Step(env, s, events[0]), events[1..], ev);
    }
  }

  // ---------------------------------------------------------------------------------------------
  // Main results
  // ---------------------------------------------------------------------------------------------

  /** Section 4.3.3 of MQTT 3.1.1: no message is delivered twice between two PUBRELs of its id. */
  lemma AtMostOnceDelivery(env: Env, events: seq<Event>, pid: Pid, i: int, j: int)
    requires var log := Run(env, Initial, events).log;
      DeliveredAt(log, i, pid) && DeliveredAt(log, j, pid) && i < j
    ensures ReleasedBetween(Run(env, Initial, events).log, i, j, pid)
  {
    RunKeeps(env, Initial, events);
  }

  /** Flow control over whole runs: bounded, disjoint, work-conserving and in arrival order. */
  lemma FlowControl(env: Env, events: seq<Event>)
    ensures var s := Run(env, Initial, events);
      && FlowInv(env, s) && |s.pending| <= 4096
      && WorkConserving(env, s)
      && HonestEnd(s)
      && Taken(s.log) == Processed(s.log) + s.pending
  {
    RunKeeps(env, Initial, events);
  }
}
