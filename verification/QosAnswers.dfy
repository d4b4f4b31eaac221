/**
 What a receiving session does, told from its history alone: which ids are registered, which
 messages wait and whether the window has room are read off the log, never off the session's own
 state. Every packet of every run is answered exactly as this reference says.
 */
module QosAnswers {
  import opened Wrappers
  import opened Sequences
  import opened Sets
  import opened QosReceiver

  // ---------------------------------------------------------------------------------------------
  // Reading the history
  // ---------------------------------------------------------------------------------------------

  /** Delivered successfully and not released since. */
  ghost predicate Registered(log: seq<Action>, pid: Pid) {
    exists i :: DeliveredAt(log, i, pid) && !ReleasedBetween(log, i, |log|, pid)
  }

  ghost function Open(log: seq<Action>): set<Pid> {
    set i | 0 <= i < |log| && log[i].Delivered? && Registered(log, log[i].pid) :: log[i].pid
  }

  /** First copies taken in and not yet handed to the broker, oldest first. */
  function Waiting(log: seq<Action>): seq<(Pid, Message)> {
    if |Processed(log)| <= |Taken(log)| then Taken(log)[|Processed(log)|..] else []
  }

  ghost predicate Waits(log: seq<Action>, pid: Pid) {
    exists i :: 0 <= i < |Waiting(log)| && Waiting(log)[i].0 == pid
  }

  // ---------------------------------------------------------------------------------------------
  // The answers
  // ---------------------------------------------------------------------------------------------

  /** One message handed to the broker, then PUBREC: success only if it was accepted. */
  function Handed(env: Env, at: nat, pid: Pid, msg: Message): seq<Action> {
    match env.publish(at)
    case Broken => [Delivered(pid, msg, Broken)]
    case Refused => [Delivered(pid, msg, Refused), Replied(PubRec(pid, false), env.send(at + 1))]
    case Accepted => [Delivered(pid, msg, Accepted), Replied(PubRec(pid, true), env.send(at + 1))]
  }

  predicate Failure(a: Action) {
    (a.Replied? && !a.ok) || ((a.Delivered? || a.Forwarded?) && a.outcome == Broken)
  }

  predicate Fails(actions: seq<Action>) { exists i :: 0 <= i < |actions| && Failure(actions[i]) }

  /** Waiting messages handed over one by one while there is room and nothing fails. */
  function Moved(env: Env, at: nat, waiting: seq<(Pid, Message)>, room: int): seq<Action>
    decreases |waiting|
  {
    if waiting == [] || room <= 0 then []
    else
      var one := Handed(env, at, waiting[0].0, waiting[0].1);
      if Fails(one) then one
      else one + Moved(env, at + |one|, waiting[1..], if env.publish(at) == Accepted then room - 1 else room)
  }

  /** What follows the arrival of a packet. */
  ghost function Answered(env: Env, log: seq<Action>, ev: Event): seq<Action> {
    var at := |log| + 1;
    var full := |Open(log)| >= env.maxInflight;
    match ev
    case Publish(AtMostOnce, _, msg) => [Forwarded(msg, env.publish(at))]
    case Publish(AtLeastOnce, Some(pid), msg) =>
      if full then []
      else if env.publish(at) == Broken then [Forwarded(msg, Broken)]
      else [Forwarded(msg, env.publish(at)), Replied(PubAck(pid), env.send(at + 1))]
    case Publish(ExactlyOnce, Some(pid), msg) =>
      if Waits(log, pid) then []
      else if Registered(log, pid) then [Replied(PubRec(pid, true), env.send(at))]
      else if !full then [TakenIn(pid, msg)] + Handed(env, at + 1, pid, msg)
      else if |Waiting(log)| < 4096 then [TakenIn(pid, msg)]
      else []
    case Publish(_, None, _) => []
    case Release(pid) =>
      var ok := env.send(at);
      [Replied(PubComp(pid), ok)]
      + if ok then Moved(env, at + 1, Waiting(log), env.maxInflight - |Open(log) - {pid}|) else []
  }

  /** The session goes on unless something failed, an id is missing, or QoS 1 met a full window. */
  ghost predicate GoesOn(env: Env, log: seq<Action>, ev: Event) {
    && !Fails(Answered(env, log, ev))
    && !(ev.Publish? && ev.qos != AtMostOnce && ev.id.None?)
    && !(ev.Publish? && ev.qos == AtLeastOnce && |Open(log)| >= env.maxInflight)
  }

  // ---------------------------------------------------------------------------------------------
  // The session's state is what the history says
  // ---------------------------------------------------------------------------------------------

  /** Every registered id was delivered and not released since. */
  ghost predicate Backed(s: State) {
    s.Alive() ==> forall pid :: pid in s.cached ==> Registered(s.log, pid)
  }

  ghost predicate Known(env: Env, s: State) { Inv(env, s) && Backed(s) }

  lemma StillRegistered(log: seq<Action>, a: Action, pid: Pid)
    requires Registered(log, pid) && a != Received(Release(pid))
    ensures Registered(log + [a], pid)
  {
    var i :| DeliveredAt(log, i, pid) && !ReleasedBetween(log, i, |log|, pid);
    var more := log + [a];
    assert DeliveredAt(more, i, pid);
    forall k | i < k < |more| ensures more[k] != Received(Release(pid)) {
      if k < |log| { assert log[k] == more[k]; }
    }
  }

  lemma NowRegistered(log: seq<Action>, pid: Pid, msg: Message)
    ensures Registered(log + [Delivered(pid, msg, Accepted)], pid)
  {
    assert DeliveredAt(log + [Delivered(pid, msg, Accepted)], |log|, pid);
  }

  lemma BackedMore(s: State, s': State, a: Action)
    requires Backed(s) && s.Alive() && s'.log == s.log + [a]
    requires s'.cached <= s.cached && !(a.Received? && a.event.Release? && a.event.pid in s'.cached)
    ensures Backed(s')
  {
    hide Registered;
    forall pid | pid in s'.cached ensures Registered(s'.log, pid) { StillRegistered(s.log, a, pid); }
  }

  lemma AckBacked(env: Env, s: State, pid: Pid, msg: Message)
    requires Backed(s) && s.Alive() && !Full(env, s) && pid !in s.cached
    ensures Backed(AckInbound(env, s, pid, msg))
  {
    hide Registered;
    var o := env.publish(|s.log|);
    var a, r := Delivered(pid, msg, o), Replied(PubRec(pid, o == Accepted), env.send(|s.log| + 1));
    var s1 := s.(log := s.log + [a]);
    BackedMore(s, s1, a);
    if o == Accepted {
      NowRegistered(s.log, pid, msg);
      StillRegistered(s1.log, r, pid);
    }
    forall p | p in s.cached ensures Registered(s1.log + [r], p) { StillRegistered(s1.log, r, p); }
  }

  lemma {:induction false} DrainBacked(env: Env, s: State)
    requires Safe(env, s) && Backed(s)
    ensures Backed(Drain(env, s))
    decreases |s.pending|
  {
    hide Backed; hide OpenIsCached; hide AtMostOnceLog;
    if s.Alive() && s.pending != [] && !Full(env, s) {
      var (pid, msg) := s.pending[0];
      var s1 := s.(pending := s.pending[1..]);
      BackedQueue(s, s1);
      assert s.pending == [(pid, msg)] + s1.pending;
      assert Processed(s.log) + s.pending == Processed(s.log) + [(pid, msg)] + s1.pending;
      SameLogFacts(s, s1);
      AckKeeps(env, s1, pid, msg);
      AckBacked(env, s1, pid, msg);
      DrainBacked(env, AckInbound(env, s1, pid, msg));
    }
  }

  lemma BackedQueue(s: State, s': State)
    requires Backed(s) && s'.log == s.log && s'.cached == s.cached && s'.status == s.status
    ensures Backed(s')
  {
  }

  lemma SameLogFacts(s: State, s': State)
    requires OpenIsCached(s) && AtMostOnceLog(s.log)
    requires s'.log == s.log && s'.cached == s.cached && s'.status == s.status
    ensures OpenIsCached(s') && AtMostOnceLog(s'.log)
  {
  }

  lemma StepBacked(env: Env, s: State, ev: Event)
    requires Known(env, s) && s.Alive()
    ensures Backed(Step(env, s, ev))
  {
    hide Registered; hide OpenIsCached; hide AtMostOnceLog; hide Drain; hide AckInbound; hide Conserved;
    var a := Received(ev);
    var s0 := s.(log := s.log + [a]);
    match ev
    case Release(pid) =>
      var s1 := s0.(cached := s0.cached - {pid});
      BackedMore(s, s1, a);
      ReleaseArrives(env, s, pid);
      ReplyKeeps(env, s1, PubComp(pid));
      var s2 := Answer(env, s1, PubComp(pid));
      BackedMore(s1, s2, s2.log[|s1.log|]);
      DrainBacked(env, s2);
    case Publish(qos, id, msg) =>
      BackedMore(s, s0, a);
      if qos == ExactlyOnce && id.Some? {
        var pid := id.value;
        var s1 := s0.(log := s0.log + [TakenIn(pid, msg)]);
        BackedMore(s0, s1, TakenIn(pid, msg));
        BackedMore(s0, Answer(env, s0, PubRec(pid, true)), Replied(PubRec(pid, true), env.send(|s0.log|)));
        if !Full(env, s0) && pid !in s0.cached { AckBacked(env, s1, pid, msg); }
      } else {
        var f := Forwarded(msg, env.publish(|s0.log|));
        var s1 := s0.(log := s0.log + [f]);
        BackedMore(s0, s1, f);
        if id.Some? {
          BackedMore(s1, Answer(env, s1, PubAck(id.value)), Replied(PubAck(id.value), env.send(|s1.log|)));
        }
      }
  }

  lemma {:induction false} RunKnown(env: Env, s: State, events: seq<Event>)
    requires Known(env, s)
    ensures Known(env, Run(env, s, events))
    decreases |events|
  {
    hide Inv; hide Backed; hide Step;
    if events != [] {
      StepKeeps(env, s, events[0]);
      if s.Alive() { StepBacked(env, s, events[0]); } else { DeadStays(env, s, events[0]); }
      RunKnown(env, Step(env, s, events[0]), events[1..]);
    }
  }

  lemma DeadStays(env: Env, s: State, ev: Event)
    requires !s.Alive()
    ensures Step(env, s, ev) == s
  {
  }

  lemma StateFromHistory(env: Env, s: State)
    requires Known(env, s) && s.Alive()
    ensures s.cached == Open(s.log) && s.pending == Waiting(s.log)
    ensures forall pid :: pid in s.cached <==> Registered(s.log, pid)
    ensures forall pid :: Deferred(s, pid) <==> Waits(s.log, pid)
  {
    hide AtMostOnceLog; hide Taken; hide Processed;
    forall pid ensures pid in s.cached <==> Registered(s.log, pid) {
      if i :| DeliveredAt(s.log, i, pid) && !ReleasedBetween(s.log, i, |s.log|, pid) { }
    }
    forall pid ensures pid in Open(s.log) <==> Registered(s.log, pid) { }
    assert Waiting(s.log) == s.pending;
  }

  // ---------------------------------------------------------------------------------------------
  // Every packet is answered as the history says
  // ---------------------------------------------------------------------------------------------

  lemma FailsOne(a: Action)
    ensures Fails([a]) <==> Failure(a)
  {
    if Failure(a) { assert Failure([a][0]); }
  }

  lemma FailsConcat(a: seq<Action>, b: seq<Action>)
    ensures Fails(a + b) <==> Fails(a) || Fails(b)
  {
    if i :| 0 <= i < |a| && Failure(a[i]) { assert Failure((a + b)[i]); }
    if i :| 0 <= i < |b| && Failure(b[i]) { assert Failure((a + b)[|a| + i]); }
    if i :| 0 <= i < |a + b| && Failure((a + b)[i]) { assert if i < |a| then Failure(a[i]) else Failure(b[i - |a|]); }
  }

  lemma AckAnswers(env: Env, s: State, pid: Pid, msg: Message)
    requires s.Alive() && !Full(env, s) && pid !in s.cached
    ensures var s', one := AckInbound(env, s, pid, msg), Handed(env, |s.log|, pid, msg);
      && s'.log == s.log + one && (s'.Alive() <==> !Fails(one)) && s'.pending == s.pending
      && (s'.Alive() ==> s'.cached == s.cached + if env.publish(|s.log|) == Accepted then {pid} else {})
  {
    var one := Handed(env, |s.log|, pid, msg);
    FailsOne(one[0]);
    if |one| == 2 {
      FailsOne(one[1]);
      FailsConcat([one[0]], [one[1]]);
      assert one == [one[0]] + [one[1]];
      assert s.log + [one[0]] + [one[1]] == s.log + one;
    } else {
      assert one == [one[0]];
    }
  }

  lemma {:induction false} DrainAnswers(env: Env, s: State)
    requires FlowInv(env, s) && s.Alive()
    ensures var s', out := Drain(env, s), Moved(env, |s.log|, s.pending, env.maxInflight - |s.cached|);
      s'.log == s.log + out && (s'.Alive() <==> !Fails(out))
    decreases |s.pending|
  {
    hide Handed; hide AckInbound; hide Fails;
    if s.pending == [] || Full(env, s) {
      assert s.log + [] == s.log;
      NoFailure();
    } else {
      var (pid, msg) := s.pending[0];
      var s1 := s.(pending := s.pending[1..]);
      AckAnswers(env, s1, pid, msg);
      var s2, one := AckInbound(env, s1, pid, msg), Handed(env, |s.log|, pid, msg);
      if Fails(one) {
        DeadDrains(env, s2);
      } else {
        assert FlowInv(env, s2) by { assert pid !in s.cached; }
        DrainAnswers(env, s2);
        var rest := Moved(env, |s2.log|, s2.pending, env.maxInflight - |s2.cached|);
        Associative(s.log, one, rest);
        FailsConcat(one, rest);
      }
    }
  }

  lemma NoFailure()
    ensures !Fails([])
  {
  }

  lemma DeadDrains(env: Env, s: State)
    requires !s.Alive()
    ensures Drain(env, s) == s
  {
  }

  lemma ReleaseAnswers(env: Env, s: State, pid: Pid)
    requires Known(env, s) && s.Alive()
    ensures var s', out := Step(env, s, Release(pid)), Answered(env, s.log, Release(pid));
      s'.log == s.log + [Received(Release(pid))] + out && (s'.Alive() <==> !Fails(out))
  {
    hide OpenIsCached; hide AtMostOnceLog; hide Drain; hide Moved; hide Registered; hide Fails; hide Conserved;
    hide Open; hide Waiting; hide Waits; hide Deferred; hide FlowInv; hide WorkConserving; hide HonestEnd;
    StateFromHistory(env, s);
    var a := Received(Release(pid));
    var s1 := s.(log := s.log + [a], cached := s.cached - {pid});
    ReleaseArrives(env, s, pid);
    var ok := env.send(|s1.log|);
    var r := Replied(PubComp(pid), ok);
    var s2 := Answer(env, s1, PubComp(pid));
    FailsOne(r);
    if ok {
      SameFlow(env, s1, s2);
      DrainAnswers(env, s2);
      var out := Moved(env, |s2.log|, s2.pending, env.maxInflight - |s2.cached|);
      FailsConcat([r], out);
      Associative(s1.log, [r], out);
    } else {
      DeadDrains(env, s2);
      assert [r] + [] == [r];
    }
  }

  lemma PublishAnswers(env: Env, s: State, ev: Event)
    requires Known(env, s) && s.Alive() && ev.Publish?
    ensures var s', out := Step(env, s, ev), Answered(env, s.log, ev);
      s'.log == s.log + [Received(ev)] + out && (s'.Alive() <==> GoesOn(env, s.log, ev))
  {
    hide OpenIsCached; hide AtMostOnceLog; hide Registered; hide Fails; hide Conserved; hide Open; hide Handed;
    hide AckInbound; hide Waits; hide Deferred; hide FlowInv; hide Waiting;
    StateFromHistory(env, s);
    var s0 := s.(log := s.log + [Received(ev)]);
    SameQueue(s, s0);
    NoFailure();
    assert s0.log + [] == s0.log;
    var Publish(qos, id, msg) := ev;
    var f := Forwarded(msg, env.publish(|s0.log|));
    FailsOne(f);
    if id.Some? {
      var pid := id.value;
      var k, r := Replied(PubAck(pid), env.send(|s0.log| + 1)), Replied(PubRec(pid, true), env.send(|s0.log|));
      var t := TakenIn(pid, msg);
      FailsOne(k);
      FailsOne(r);
      FailsOne(t);
      FailsConcat([f], [k]);
      assert [f] + [k] == [f, k] && s0.log + [f] + [k] == s0.log + [f, k];
      if qos == ExactlyOnce && !Deferred(s0, pid) && pid !in s0.cached && !Full(env, s0) {
        var s1 := s0.(log := s0.log + [t]);
        AckAnswers(env, s1, pid, msg);
        var one := Handed(env, |s1.log|, pid, msg);
        FailsConcat([t], one);
        Associative(s0.log, [t], one);
      }
    }
  }

  lemma SameQueue(s: State, s': State)
    requires s'.pending == s.pending
    ensures forall pid :: Deferred(s', pid) <==> Deferred(s, pid)
  {
  }

  /**
   In every run, whatever forwarding and sending do, a live session answers the next packet exactly
   as its history says, and goes on exactly when nothing fatal happened.
   */
  lemma AnswersFromHistory(env: Env, events: seq<Event>, ev: Event)
    requires Run(env, Initial, events).Alive()
    ensures var log, s' := Run(env, Initial, events).log, Run(env, Initial, events + [ev]);
      && s'.log == log + [Received(ev)] + Answered(env, log, ev)
      && (s'.Alive() <==> GoesOn(env, log, ev))
  {
    hide Known; hide Step; hide Answered; hide Run;
    StartKnown(env);
    RunKnown(env, Initial, events);
    RunAppend(env, Initial, events, ev);
    var s := Run(env, Initial, events);
    match ev
    case Release(pid) => ReleaseAnswers(env, s, pid);
    case Publish(_, _, _) => PublishAnswers(env, s, ev);
  }

  lemma StartKnown(env: Env)
    ensures Known(env, Initial)
  {
  }

  // ---------------------------------------------------------------------------------------------
  // What a peer can rely on
  // ---------------------------------------------------------------------------------------------

  /** What must stand before a reply, and before a message is forwarded. */
  predicate Justified(log: seq<Action>, i: nat)
    requires i < |log|
  {
    match log[i]
    case Replied(PubAck(pid), _) =>
      && i >= 2 && log[i - 1].Forwarded? && log[i - 1].outcome != Broken
      && log[i - 2] == Received(Publish(AtLeastOnce, Some(pid), log[i - 1].msg))
    case Replied(PubRec(pid, success), _) =>
      && i >= 1
      && ((log[i - 1].Delivered? && log[i - 1].pid == pid
           && log[i - 1].outcome == if success then Accepted else Refused)
          || (success && log[i - 1].Received? && log[i - 1].event.Publish?
              && log[i - 1].event.qos == ExactlyOnce && log[i - 1].event.id == Some(pid)))
    case Replied(PubComp(pid), _) => i >= 1 && log[i - 1] == Received(Release(pid))
    case Forwarded(msg, _) =>
      && i >= 1 && log[i - 1].Received? && log[i - 1].event.Publish?
      && log[i - 1].event.msg == msg && log[i - 1].event.qos != ExactlyOnce
    case _ => true
  }

  /** What must follow a packet, and a message handed over. */
  predicate FollowedUp(log: seq<Action>, i: nat)
    requires i < |log|
  {
    match log[i]
    case Received(Release(pid)) => i + 1 < |log| && log[i + 1].Replied? && log[i + 1].reply == PubComp(pid)
    case Received(Publish(AtMostOnce, _, msg)) => i + 1 < |log| && log[i + 1].Forwarded? && log[i + 1].msg == msg
    case Delivered(pid, _, outcome) =>
      outcome != Broken ==>
        i + 1 < |log| && log[i + 1].Replied? && log[i + 1].reply == PubRec(pid, outcome == Accepted)
    case Forwarded(_, outcome) =>
      i >= 1 && log[i - 1].Received? && log[i - 1].event.Publish? && log[i - 1].event.qos == AtLeastOnce
      && log[i - 1].event.id.Some? && outcome != Broken ==>
        i + 1 < |log| && log[i + 1].Replied? && log[i + 1].reply == PubAck(log[i - 1].event.id.value)
    case _ => true
  }

  predicate Proper(log: seq<Action>) {
    forall i :: 0 <= i < |log| ==> Justified(log, i) && FollowedUp(log, i)
  }

  lemma {:induction false} MovedIsProper(env: Env, at: nat, waiting: seq<(Pid, Message)>, room: int)
    ensures Proper(Moved(env, at, waiting, room))
    ensures var m := Moved(env, at, waiting, room); m != [] ==> m[0].Delivered?
    decreases |waiting|
  {
    hide Proper; hide Handed; hide Fails;
    EmptyIsProper();
    if waiting != [] && room > 0 {
      var one := Handed(env, at, waiting[0].0, waiting[0].1);
      HandedStarts(env, at, waiting[0].0, waiting[0].1);
      HandedIsProper(env, at, waiting[0].0, waiting[0].1);
      if !Fails(one) {
        var room' := if env.publish(at) == Accepted then room - 1 else room;
        MovedIsProper(env, at + |one|, waiting[1..], room');
        ProperConcat(one, Moved(env, at + |one|, waiting[1..], room'));
      }
    }
  }

  lemma HandedIsProper(env: Env, at: nat, pid: Pid, msg: Message)
    ensures Proper(Handed(env, at, pid, msg))
  {
  }

  lemma ProperFront(a: seq<Action>, b: seq<Action>, i: nat)
    requires i < |a| && Justified(a, i) && FollowedUp(a, i)
    ensures Justified(a + b, i) && FollowedUp(a + b, i)
  {
    var s := a + b;
    assert s[i] == a[i] && (i >= 1 ==> s[i - 1] == a[i - 1]) && (i >= 2 ==> s[i - 2] == a[i - 2]);
    assert i + 1 < |a| ==> s[i + 1] == a[i + 1];
  }

  lemma ProperBack(a: seq<Action>, b: seq<Action>, j: nat)
    requires j < |b| && Justified(b, j) && FollowedUp(b, j) && (b[0].Delivered? || b[0].Received?)
    ensures Justified(a + b, |a| + j) && FollowedUp(a + b, |a| + j)
  {
    var s, i := a + b, |a| + j;
    assert s[i] == b[j] && (j >= 1 ==> s[i - 1] == b[j - 1]) && (j >= 2 ==> s[i - 2] == b[j - 2]);
    assert j + 1 < |b| ==> s[i + 1] == b[j + 1];
  }

  /** Stretches that begin with a packet or a delivery can be put after anything proper. */
  lemma ProperConcat(a: seq<Action>, b: seq<Action>)
    requires Proper(a) && Proper(b) && (b != [] ==> b[0].Delivered? || b[0].Received?)
    ensures Proper(a + b)
  {
    hide Justified; hide FollowedUp;
    var s := a + b;
    forall i | 0 <= i < |s| ensures Justified(s, i) && FollowedUp(s, i) {
      if i < |a| { ProperFront(a, b, i); } else { ProperBack(a, b, i - |a|); }
    }
  }

  lemma ReleaseIsProper(env: Env, log: seq<Action>, pid: Pid)
    ensures Proper([Received(Release(pid))] + Answered(env, log, Release(pid)))
  {
    hide Moved; hide Open; hide Waiting; hide Proper;
    var at := |log| + 1;
    var ok := env.send(at);
    var head := [Received(Release(pid)), Replied(PubComp(pid), ok)];
    var room := env.maxInflight - |Open(log) - {pid}|;
    MovedIsProper(env, at + 1, Waiting(log), room);
    ReplyIsProper(Release(pid), PubComp(pid), ok);
    EmptyIsProper();
    var tail := if ok then Moved(env, at + 1, Waiting(log), room) else [];
    ProperConcat(head, tail);
    assert [Received(Release(pid))] + Answered(env, log, Release(pid)) == head + tail;
  }

  lemma ReplyIsProper(ev: Event, reply: Reply, ok: bool)
    requires
      || (ev.Release? && reply == PubComp(ev.pid))
      || (ev.Publish? && ev.qos == ExactlyOnce && ev.id.Some? && reply == PubRec(ev.id.value, true))
    ensures Proper([Received(ev), Replied(reply, ok)])
  {
  }

  lemma TakenIsProper(ev: Event, pid: Pid, msg: Message)
    requires ev.Publish? && ev.qos == ExactlyOnce
    ensures Proper([Received(ev)]) && Proper([Received(ev), TakenIn(pid, msg)])
  {
  }

  lemma ExactlyOnceIsProper(env: Env, log: seq<Action>, pid: Pid, msg: Message)
    ensures var ev := Publish(ExactlyOnce, Some(pid), msg); Proper([Received(ev)] + Answered(env, log, ev))
  {
    hide Open; hide Registered; hide Waits; hide Handed; hide Proper; hide Waiting;
    var ev, at := Publish(ExactlyOnce, Some(pid), msg), |log| + 1;
    var handed := Handed(env, at + 1, pid, msg);
    HandedIsProper(env, at + 1, pid, msg);
    HandedStarts(env, at + 1, pid, msg);
    TakenIsProper(ev, pid, msg);
    ReplyIsProper(ev, PubRec(pid, true), env.send(at));
    var head := [Received(ev), TakenIn(pid, msg)];
    ProperConcat(head, handed);
    Associative([Received(ev)], [TakenIn(pid, msg)], handed);
    assert [Received(ev)] + [] == [Received(ev)] && [Received(ev)] + [TakenIn(pid, msg)] == head;
    assert [Received(ev)] + [Replied(PubRec(pid, true), env.send(at))]
      == [Received(ev), Replied(PubRec(pid, true), env.send(at))];
  }

  lemma AnsweredIsProper(env: Env, log: seq<Action>, ev: Event)
    ensures Proper([Received(ev)] + Answered(env, log, ev))
  {
    hide Moved; hide Open; hide Registered; hide Waits; hide Handed; hide Waiting;
    match ev
    case Release(pid) => ReleaseIsProper(env, log, pid);
    case Publish(ExactlyOnce, Some(pid), msg) => ExactlyOnceIsProper(env, log, pid, msg);
    case _ =>
  }

  lemma EmptyIsProper()
    ensures Proper([])
  {
  }

  lemma HandedStarts(env: Env, at: nat, pid: Pid, msg: Message)
    ensures Handed(env, at, pid, msg) != [] && Handed(env, at, pid, msg)[0].Delivered?
  {
  }

  /**
   Over every run: PUBACK only right after its message was forwarded and not before, and always then;
   PUBREC success only after an accepted delivery or for a copy, refusal exactly after a refusal;
   one PUBCOMP for every PUBREL; every QoS 0 message forwarded.
   */
  lemma {:induction false} EveryReplyJustified(env: Env, events: seq<Event>)
    ensures Proper(Run(env, Initial, events).log)
    decreases |events|
  {
    hide Proper; hide Answered; hide Run;
    if events == [] {
      NothingLogged(env);
    } else {
      var k := |events| - 1;
      EveryReplyJustified(env, events[..k]);
      var s, ev := Run(env, Initial, events[..k]), events[k];
      assert events == events[..k] + [ev];
      RunAppend(env, Initial, events[..k], ev);
      if s.Alive() {
        AnswersFromHistory(env, events[..k], ev);
        AnsweredIsProper(env, s.log, ev);
        ProperConcat(s.log, [Received(ev)] + Answered(env, s.log, ev));
        Associative(s.log, [Received(ev)], Answered(env, s.log, ev));
      } else {
        DeadStays(env, s, ev);
      }
    }
  }

  lemma NothingLogged(env: Env)
    ensures Run(env, Initial, []).log == [] && Proper([])
  {
  }
}
