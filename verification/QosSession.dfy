/**
 The session object itself: the inbound window (`InInflight`) and the packet handlers, in the
 imperative form the broker runs. Every handler is proved to implement `QosReceiver.Step`, so the
 results about runs of `Step` hold of sequences of handler calls.
 */
module QosSession {
  import opened Wrappers
  import opened QosReceiver

  /** Packet ids received and not yet released, bounded by the window, with its statistics gauge. */
  class InInflight {
    const maxInflight: nat
    var cached: set<Pid>
    var gauge: int

    ghost predicate Valid() reads this { gauge == |cached| }

    constructor (maxInflight: nat)
      ensures Valid() && this.maxInflight == maxInflight && cached == {}
    {
      this.maxInflight, cached, gauge := maxInflight, {}, 0;
    }

    predicate IsFull() reads this { |cached| >= maxInflight }

    predicate Contains(pid: Pid) reads this { pid in cached }

    /** A full window always refuses, even an id it already holds; QoS 2 also refuses a held id. */
    method Add(pid: Pid, qos: QoS) returns (r: Result<bool, Reason>)
      requires Valid()
      modifies this
      ensures Valid()
      ensures old(IsFull()) ==> r == Err(WindowFull) && cached == old(cached)
      ensures !old(IsFull()) && pid !in old(cached) ==> r == Ok(true) && cached == old(cached) + {pid}
      ensures !old(IsFull()) && pid in old(cached) ==>
        cached == old(cached) && r == if qos == ExactlyOnce then Err(PacketIdInUse) else Ok(false)
    {
      if |cached| >= maxInflight { return Err(WindowFull); }
      if pid !in cached {
        cached, gauge := cached + {pid}, gauge + 1;
        return Ok(true);
      } else if qos == ExactlyOnce {
        return Err(PacketIdInUse);
      } else {
        return Ok(false);
      }
    }

    method Remove(pid: Pid) returns (removed: bool)
      requires Valid()
      modifies this
      ensures Valid() && cached == old(cached) - {pid} && removed == (pid in old(cached))
    {
      removed := pid in cached;
      if removed { cached, gauge := cached - {pid}, gauge - 1; }
    }
  }

  /** The status a handler's result leaves the session in; an error is terminal. */
  function StatusOf(r: Result<(), Reason>): Status {
    if r.Ok? then Live else Ended(r.error)
  }

  class Session {
    const env: Env
    const window: InInflight
    var pending: seq<(Pid, Message)>
    var log: seq<Action>

    ghost predicate Valid() reads this, window {
      window.Valid() && window.maxInflight == env.maxInflight
    }

    ghost function View(status: Status): State reads this, window {
      State(window.cached, pending, log, status)
    }

    constructor (env: Env)
      ensures Valid() && fresh(window) && this.env == env
      ensures View(Live) == Initial
    {
      this.env := env;
      window := new InInflight(env.maxInflight);
      pending, log := [], [];
    }

    /** Hand a message to the rest of the broker; `note` records the attempt in the history. */
    method Forward(note: Outcome -> Action) returns (outcome: Outcome)
      modifies this`log
      ensures outcome == env.publish(|old(log)|) && log == old(log) + [note(outcome)]
    {
      outcome := env.publish(|log|);
      log := log + [note(outcome)];
    }

    method Send(reply: Reply) returns (r: Result<(), Reason>)
      modifies this`log
      ensures var ok := env.send(|old(log)|);
        log == old(log) + [Replied(reply, ok)] && r == if ok then Ok(()) else Err(SendFailed)
    {
      var ok := env.send(|log|);
      log := log + [Replied(reply, ok)];
      r := if ok then Ok(()) else Err(SendFailed);
    }

    method AckQos2Inbound(pid: Pid, msg: Message) returns (r: Result<(), Reason>)
      requires Valid()
      modifies this, window
      ensures Valid() && View(StatusOf(r)) == AckInbound(env, old(View(Live)), pid, msg)
    {
      var outcome := Forward(o => Delivered(pid, msg, o));
      if outcome == Broken { return Err(PublishFailed); }
      var registered := false;
      if outcome == Accepted {
        var added := window.Add(pid, ExactlyOnce);
        if added.Err? { return Err(added.error); }
        registered := added.value;
      }
      r := Send(PubRec(pid, outcome == Accepted));
      if registered && r.Err? { var _ := window.Remove(pid); }
    }

    method DrainQos2Pending() returns (r: Result<(), Reason>)
      requires Valid()
      modifies this, window
      ensures Valid() && View(StatusOf(r)) == Drain(env, old(View(Live)))
    {
      r := Ok(());
      while pending != []
        invariant Valid() && r.Ok?
        invariant Drain(env, View(Live)) == Drain(env, old(View(Live)))
        decreases |pending|
      {
        var (pid, msg) := pending[0];
        if window.IsFull() { break; }
        pending := pending[1..];
        r := AckQos2Inbound(pid, msg);
        if r.Err? { return; }
      }
    }

    method IsDeferred(pid: Pid) returns (found: bool)
      ensures found == exists i :: 0 <= i < |pending| && pending[i].0 == pid
    {
      for i := 0 to |pending|
        invariant forall k :: 0 <= k < i ==> pending[k].0 != pid
      {
        if pending[i].0 == pid { return true; }
      }
      return false;
    }

    method ProcessExactlyOnce(pid: Pid, msg: Message) returns (r: Result<(), Reason>)
      requires Valid()
      modifies this, window
      ensures Valid() && View(StatusOf(r)) == OnExactlyOnce(env, old(View(Live)), pid, msg)
    {
      var duplicate := IsDeferred(pid);
      if duplicate { return Ok(()); }
      if window.Contains(pid) {
        r := Send(PubRec(pid, true));
      } else if window.IsFull() {
        if |pending| >= PENDING_CAP { return Ok(()); }
        pending, log := pending + [(pid, msg)], log + [TakenIn(pid, msg)];
        r := Ok(());
      } else {
        log := log + [TakenIn(pid, msg)];
        r := AckQos2Inbound(pid, msg);
      }
    }

    /** The id is registered only while the message is being forwarded and acknowledged. */
    method ProcessAtLeastOnce(pid: Pid, msg: Message) returns (r: Result<(), Reason>)
      requires Valid()
      modifies this, window
      ensures Valid() && View(StatusOf(r)) == OnAtLeastOnce(env, old(View(Live)), pid, msg)
    {
      var added := window.Add(pid, AtLeastOnce);
      if added.Err? { return Err(added.error); }
      var outcome := Forward(o => Forwarded(msg, o));
      if outcome == Broken {
        if added.value { var _ := window.Remove(pid); }
        assert window.cached == old(window.cached);
        return Err(PublishFailed);
      }
      r := Send(PubAck(pid));
      if added.value { var _ := window.Remove(pid); }
      assert window.cached == old(window.cached);
    }

    /** One inbound packet: the session's new state is `Step` of the old one. */
    method OnPacket(ev: Event) returns (r: Result<(), Reason>)
      requires Valid()
      modifies this, window
      ensures Valid() && View(StatusOf(r)) == Step(env, old(View(Live)), ev)
    {
      hide OnExactlyOnce; hide OnAtLeastOnce; hide AckInbound;
      log := log + [Received(ev)];
      match ev {
        case Release(pid) =>
          var _ := window.Remove(pid);
          r := Send(PubComp(pid));
          if r.Err? { return; }
          r := DrainQos2Pending();
        case Publish(qos, id, msg) =>
          if qos == AtMostOnce {
            var outcome := Forward(o => Forwarded(msg, o));
            r := if outcome == Broken then Err(PublishFailed) else Ok(());
          } else if id.None? {
            r := Err(ProtocolError);
          } else if qos == AtLeastOnce {
            r := ProcessAtLeastOnce(id.value, msg);
          } else {
            r := ProcessExactlyOnce(id.value, msg);
          }
      }
    }
  }
}
