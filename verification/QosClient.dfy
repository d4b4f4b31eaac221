/** The load generator's objects; every method is tied to its function in `QosSender`. */
module QosClient {
  import opened Wrappers
  import opened Sequences
  import opened QosSender

  class SlotTable {
    var used: array<bool>
    var cursor: nat

    ghost function View(): Slots reads this, used { Slots(used[..], cursor) }

    /** A window of `count` slots, at least one. */
    constructor (count: nat)
      requires count <= 65535
      ensures fresh(used) && View().Valid()
      ensures View() == Slots(seq(if count == 0 then 1 else count, _ => false), 0)
    {
      used := new bool[if count == 0 then 1 else count](_ => false);
      cursor := 0;
    }

    method Take() returns (r: Option<Pid>)
      requires View().Valid()
      modifies this, used
      ensures used == old(used)
      ensures (View(), r) == QosSender.Take(old(View()))
      ensures View().Valid()
    {
      var n := used.Length;
      ghost var s := View();
      for i := 0 to n
        invariant View() == s && FreeFrom(s, i) == FreeFrom(s, 0)
      {
        var idx := (cursor + i) % n;
        if !used[idx] {
          used[idx] := true;
          cursor := (idx + 1) % n;
          return Some(idx + 1);
        }
      }
      return None;
    }

    /** Ids of 0 or out of range are ignored. */
    method Release(pid: int)
      requires View().Valid()
      modifies used
      ensures View() == ReleaseSlot(old(View()), pid)
    {
      if pid == 0 { return; }
      var idx := pid - 1;
      if 0 <= idx < used.Length { used[idx] := false; }
    }
  }

  class Outbound {
    const slots: SlotTable
    var inflight: map<Pid, Inflight>
    var sent: nat

    ghost function View(): Sender reads this, slots, slots.used {
      Sender(slots.View(), inflight, sent)
    }

    ghost predicate Valid() reads this, slots, slots.used { SlotsMatch(View()) }

    /** The window honours the broker's Receive Maximum when it advertised one. */
    constructor (maxInflight: nat, receiveMax: Option<nat>)
      requires maxInflight <= 65535
      ensures fresh(slots) && fresh(slots.used) && Valid()
      ensures inflight == map[] && sent == 0
      ensures slots.used.Length > 1 ==>
        slots.used.Length <= maxInflight && (receiveMax.Some? ==> slots.used.Length <= receiveMax.value)
      ensures slots.used.Length == maxInflight || receiveMax == Some(slots.used.Length)
        || (slots.used.Length == 1 && (maxInflight == 0 || receiveMax == Some(0)))
    {
      var window := maxInflight;
      if receiveMax.Some? && receiveMax.value < window { window := receiveMax.value; }
      if receiveMax.Some? && window < 1 { window := 1; }
      slots := new SlotTable(window);
      inflight, sent := map[], 0;
    }

    /** Claim an id for the next message and record it as in flight. */
    method QueueOne(ts: nat) returns (up: Option<Up>)
      requires Valid()
      modifies this, slots, slots.used
      ensures slots.used == old(slots.used) && Valid()
      ensures (View(), up) == SendOne(old(View()), ts)
      ensures up.None? <==> AllClaimed(old(View()).slots)
      ensures up.None? ==> View() == old(View())
      ensures up.Some? ==>
        && up.value.PublishUp? && up.value.msg == old(sent) && up.value.pid !in old(inflight)
        && inflight == old(inflight)[up.value.pid := Inflight(old(sent), ts, false)] && sent == old(sent) + 1
    {
      SendOneMatches(View(), ts);
      SendOneQueues(View(), ts);
      var r := slots.Take();
      if r.None? { return None; }
      inflight := inflight[r.value := Inflight(sent, ts, false)];
      up := Some(PublishUp(r.value, sent));
      sent := sent + 1;
    }

    /**
     Queue publishes. At QoS 0 the only bounds are the batch and the message limit, and nothing is
     recorded as in flight; otherwise the window is a bound as well.
     */
    method Fill(qos: nat, batch: nat, limit: nat, clock: nat -> nat) returns (pending: seq<Up>, plain: seq<Message>)
      requires Valid()
      modifies this, slots, slots.used
      ensures slots.used == old(slots.used) && Valid()
      ensures qos > 0 ==> (View(), pending) == QosSender.Fill(old(View()), batch, limit, clock) && plain == []
      ensures qos > 0 ==> |pending| <= batch && sent == old(sent) + |pending| && Grown(old(View()), View())
      ensures qos > 0 ==> forall i :: 0 <= i < |pending| ==>
        Queued(old(View()), View(), pending[i], old(sent) + i, clock(old(sent) + i))
      ensures qos > 0 && limit > 0 && pending != [] ==> sent <= limit
      ensures qos > 0 && |pending| < batch ==> (limit > 0 && sent >= limit) || AllClaimed(slots.View())
      ensures qos == 0 ==> pending == [] && View() == old(View()).(sent := old(sent) + |plain|)
      ensures qos == 0 ==> forall i :: 0 <= i < |plain| ==> plain[i] == old(sent) + i
      ensures qos == 0 ==> |plain| == if limit == 0 || old(sent) + batch <= limit then batch
                                      else if old(sent) >= limit then 0 else limit - old(sent)
    {
      hide QosSender.Fill; hide SlotsMatch; hide Queued; hide AllClaimed; hide Grown;
      FillExact(View(), batch, limit, clock);
      pending, plain := [], [];
      if qos == 0 {
        plain := FillPlain(batch, limit);
      } else {
        pending := FillWindow(batch, limit, clock);
      }
    }

    method FillPlain(batch: nat, limit: nat) returns (plain: seq<Message>)
      requires Valid()
      modifies this`sent
      ensures Valid() && View() == old(View()).(sent := old(sent) + |plain|)
      ensures forall i :: 0 <= i < |plain| ==> plain[i] == old(sent) + i
      ensures |plain| == if limit == 0 || old(sent) + batch <= limit then batch
                         else if old(sent) >= limit then 0 else limit - old(sent)
    {
      plain := [];
      var queued := 0;
      while queued < batch
        invariant queued == |plain| <= batch && sent == old(sent) + queued
        invariant queued > 0 ==> limit == 0 || sent <= limit
        invariant forall i :: 0 <= i < |plain| ==> plain[i] == old(sent) + i
      {
        if limit > 0 && sent >= limit { break; }
        plain := plain + [sent];
        sent := sent + 1;
        queued := queued + 1;
      }
    }

    method FillWindow(batch: nat, limit: nat, clock: nat -> nat) returns (pending: seq<Up>)
      requires Valid()
      modifies this, slots, slots.used
      ensures slots.used == old(slots.used) && Valid()
      ensures (View(), pending) == QosSender.Fill(old(View()), batch, limit, clock)
    {
      hide SendOne; hide QosSender.Take; hide FreeFrom;
      pending := [];
      var queued := 0;
      ghost var goal := QosSender.Fill(View(), batch, limit, clock);
      assert [] + goal.1 == goal.1;
      while queued < batch
        invariant queued <= batch && Valid() && slots.used == old(slots.used)
        invariant QosSender.Fill(View(), batch - queued, limit, clock).0 == goal.0
        invariant pending + QosSender.Fill(View(), batch - queued, limit, clock).1 == goal.1
      {
        if limit > 0 && sent >= limit { break; }
        ghost var before := View();
        ghost var rest := QosSender.Fill(before, batch - queued, limit, clock).1;
        var up := QueueOne(clock(sent));
        if up.None? { break; }
        queued := queued + 1;
        assert rest == [up.value] + rest[1..];
        Associative(pending, [up.value], rest[1..]);
        pending := pending + [up.value];
      }
      assert QosSender.Fill(View(), batch - queued, limit, clock) == (View(), []);
      assert goal.1 == pending + [] == pending;
      assert goal == (View(), pending);
    }

    method OnAck(pid: Pid)
      requires Valid()
      modifies this, slots.used
      ensures Valid() && View() == QosSender.OnAck(old(View()), pid)
      ensures inflight == old(inflight) - {pid} && sent == old(sent)
    {
      OnAckMatches(View(), pid);
      if pid in inflight {
        inflight := inflight - {pid};
        slots.Release(pid);
      }
    }

    method OnPubrec(pid: Pid) returns (pending: seq<Up>)
      requires Valid()
      modifies this
      ensures Valid() && (View(), pending) == QosSender.OnPubrec(old(View()), pid)
      ensures sent == old(sent) && slots.View() == old(slots.View())
      ensures pid !in old(inflight) ==> pending == [] && inflight == old(inflight)
      ensures pid in old(inflight) ==>
        pending == [ReleaseUp(pid)] && inflight == old(inflight)[pid := old(inflight)[pid].(pubrelSent := true)]
    {
      pending := [];
      if pid in inflight {
        inflight := inflight[pid := inflight[pid].(pubrelSent := true)];
        pending := [ReleaseUp(pid)];
      }
    }

    /** Give up on exactly the messages sent before the cutoff; a zero timeout gives up on none. */
    method SweepTimeouts(now: nat, ackTimeout: nat)
      requires Valid()
      modifies this, slots.used
      ensures Valid() && sent == old(sent)
      ensures ackTimeout == 0 ==> View() == old(View())
      ensures ackTimeout > 0 ==>
        inflight == map p | p in old(inflight) && old(inflight)[p].ts + ackTimeout * 1000000 >= now :: old(inflight)[p]
    {
      hide SlotsMatch;
      if ackTimeout == 0 { return; }
      var delay := ackTimeout * 1000000;
      var cutoff := if now >= delay then now - delay else 0;
      var stale := set p | p in inflight && inflight[p].ts < cutoff;
      ghost var all, gone := stale, {};
      while stale != {}
        invariant Valid() && sent == old(sent) && stale <= inflight.Keys
        invariant all == stale + gone && stale !! gone && inflight == old(inflight) - gone
      {
        var pid :| pid in stale;
        stale, gone := stale - {pid}, gone + {pid};
        OnAck(pid);
      }
    }
  }
}
