/**
 The bounds on the client's window are sharp: with one slot more than the broker's window there is
 a run that defers a message, and with one slot more than its window and deferral queue together
 there is a run in which the broker drops a message without an answer.
 */
module QosOverload {
  import opened Wrappers
  import opened QosReceiver
  import opened QosSender
  import opened QosProtocol

  lemma {:induction false} PlayAppend(max: nat, s: System, moves: seq<Move>, m: Move)
    requires s.client.slots.Valid()
    ensures Play(max, s, moves + [m]) == Next(max, Play(max, s, moves), m)
    decreases |moves|
  {
    hide Next;
    if moves == [] {
      assert [] + [m] == [m];
      assert [m][1..] == [];
    } else {
      assert (moves + [m])[1..] == moves[1..] + [m];
      PlayAppend(max, Next(max, s, moves[0]), moves[1..], m);
    }
  }

  /** The `i`-th message travels under id `i + 1`. */
  function Numbered(lo: nat, hi: nat): (ups: seq<Up>)
    requires lo <= hi <= 65535
    ensures |ups| == hi - lo
    ensures forall i :: 0 <= i < |ups| ==> ups[i] == PublishUp(lo + i + 1, lo + i)
  {
    seq(hi - lo, i requires 0 <= i < hi - lo => PublishUp(lo + i + 1, lo + i))
  }

  /** `n` messages sent, none received. */
  predicate Sent(window: nat, n: nat, s: System) {
    && n <= window <= 65535 && window >= 1
    && s.client.sent == n && |s.client.slots.used| == window
    && s.client.slots.cursor == (if n == window then 0 else n)
    && (forall i :: n <= i < window ==> !s.client.slots.used[i])
    && s.up == Numbered(0, n) && s.broker == Initial && s.down == []
  }

  lemma NextPlace(i: nat, n: nat)
    requires i < n
    ensures i % n == i && (i + 1) % n == if i + 1 == n then 0 else i + 1
  {
    if i + 1 < n { SmallRemainder(i + 1, n); }
    SmallRemainder(i, n);
  }

  lemma SmallRemainder(i: nat, n: nat)
    requires i < n
    ensures i % n == i
  {
  }

  lemma FreeAtCursor(slots: Slots)
    requires slots.Valid() && !slots.used[slots.cursor]
    ensures FreeFrom(slots, 0) == 0 && slots.At(0) == slots.cursor
  {
  }

  lemma TakeAtCursor(slots: Slots)
    requires slots.Valid() && !slots.used[slots.cursor]
    ensures var n := slots.cursor;
      Take(slots) == (Slots(slots.used[n := true], if n + 1 == |slots.used| then 0 else n + 1), Some(n + 1))
  {
    NextPlace(slots.cursor, |slots.used|);
    hide FreeFrom;
    FreeAtCursor(slots);
  }

  lemma SendMore(window: nat, max: nat, n: nat, s: System)
    requires Sent(window, n, s) && n < window
    ensures Sent(window, n + 1, Next(max, s, ClientSend(0)))
  {
    hide Take; hide Step; hide OnPubrec; hide OnAck;
    TakeAtCursor(s.client.slots);
    assert Numbered(0, n) + [PublishUp(n + 1, n)] == Numbered(0, n + 1);
  }

  lemma NothingSent(window: nat)
    requires 1 <= window <= 65535
    ensures Sent(window, 0, Start(window))
  {
    assert Numbered(0, 0) == [];
  }

  lemma {:induction false} SendAll(window: nat, max: nat, n: nat) returns (moves: seq<Move>)
    requires 1 <= window <= 65535 && n <= window
    ensures Sent(window, n, Play(max, Start(window), moves))
  {
    hide Sent; hide Next;
    if n == 0 {
      moves := [];
      NothingSent(window);
    } else {
      var before := SendAll(window, max, n - 1);
      moves := before + [ClientSend(0)];
      PlayAppend(max, Start(window), before, ClientSend(0));
      SendMore(window, max, n - 1, Play(max, Start(window), before));
    }
  }

  function Ids(n: nat): (ids: set<Pid>)
    requires n <= 65535
    ensures |ids| == n && forall p: Pid :: p in ids <==> p <= n
  {
    if n == 0 then {} else Ids(n - 1) + {n}
  }

  /** Of `n` messages sent the broker has read `j`: the first fill its window, the rest wait. */
  predicate Read(max: nat, n: nat, j: nat, s: System) {
    && j <= n <= 65535 && j <= max + 4096
    && s.client.slots.Valid() && s.up == Numbered(j, n) && s.broker.Alive()
    && s.broker.cached == Ids(if j <= max then j else max)
    && |s.broker.pending| == (if j <= max then 0 else j - max)
    && forall i :: 0 <= i < |s.broker.pending| ==> s.broker.pending[i].0 == max + i + 1
  }

  lemma ReadMore(max: nat, n: nat, j: nat, s: System)
    requires Read(max, n, j, s) && j < n && j < max + 4096
    ensures Read(max, n, j + 1, Next(max, s, BrokerReceive))
  {
    hide Replies; hide SendOne; hide OnPubrec; hide OnAck; hide Ids; hide Drain;
    var pid: Pid := j + 1;
    assert s.up[0] == PublishUp(pid, j);
    assert s.up[1..] == Numbered(j + 1, n);
    var s0 := s.broker.(log := s.broker.log + [Received(Publish(ExactlyOnce, Some(pid), j))]);
    assert !Deferred(s0, pid) && pid !in s0.cached;
    assert Full(Reliable(max), s0) <==> j >= max;
    var b := Step(Reliable(max), s.broker, Publish(ExactlyOnce, Some(pid), j));
    assert b == OnExactlyOnce(Reliable(max), s0, pid, j);
    assert b.Alive();
    if j < max { assert b.cached == Ids(j + 1); }
  }

  lemma SentIsUnread(window: nat, max: nat, s: System)
    requires Sent(window, window, s)
    ensures Read(max, window, 0, s)
  {
  }

  lemma {:induction false} ReadAll(window: nat, max: nat, j: nat) returns (moves: seq<Move>)
    requires 1 <= window <= 65535 && j <= window && j <= max + 4096
    ensures Read(max, window, j, Play(max, Start(window), moves))
  {
    hide Read; hide Sent; hide Next; hide Play;
    if j == 0 {
      moves := SendAll(window, max, window);
      SentIsUnread(window, max, Play(max, Start(window), moves));
    } else {
      var before := ReadAll(window, max, j - 1);
      moves := before + [BrokerReceive];
      PlayAppend(max, Start(window), before, BrokerReceive);
      ReadMore(max, window, j - 1, Play(max, Start(window), before));
    }
  }

  /** The broker reads a new message and neither keeps, delivers nor answers it. */
  predicate Drops(max: nat, s: System)
    requires s.client.slots.Valid()
  {
    && s.up != [] && s.up[0].PublishUp? && s.broker.Alive()
    && s.up[0].pid !in s.broker.cached && !Deferred(s.broker, s.up[0].pid)
    && var s' := Next(max, s, BrokerReceive);
       && s'.up == s.up[1..] && s'.down == s.down
       && s'.broker.cached == s.broker.cached && s'.broker.pending == s.broker.pending
       && Deliveries(s'.broker.log) == Deliveries(s.broker.log)
  }

  lemma FullDrops(window: nat, max: nat, s: System)
    requires Read(max, window, max + 4096, s) && max + 4096 < window
    ensures Drops(max, s)
  {
    var p := s.up[0];
    var ev := Publish(ExactlyOnce, Some(p.pid), p.msg);
    assert !Deferred(s.broker, p.pid);
    LogStep(s.broker.log, Received(ev));
    hide Replies; hide Deliveries;
    var b := Step(Reliable(max), s.broker, ev);
    assert b == s.broker.(log := s.broker.log + [Received(ev)]);
    assert Replies(b.log) == Replies(s.broker.log) + [];
    StepReplies(s.broker.log, b.log, []);
    assert s.down + [] == s.down;
  }

  /** Some run drops a message exactly when the client's window exceeds the broker's two stores together. */
  lemma DropsIffTooWide(window: nat, max: nat)
    requires 1 <= window <= 65535
    ensures (exists moves :: Drops(max, Play(max, Start(window), moves))) <==> window > max + 4096
  {
    if window > max + 4096 {
      var moves := ReadAll(window, max, max + 4096);
      FullDrops(window, max, Play(max, Start(window), moves));
      assert Drops(max, Play(max, Start(window), moves));
    } else {
      forall moves ensures !Drops(max, Play(max, Start(window), moves)) { KeptWhenNarrow(window, max, moves); }
    }
  }

  /** Some run defers a message exactly when the client's window exceeds the broker's. */
  lemma DefersIffWider(window: nat, max: nat)
    requires 1 <= window <= 65535
    ensures (exists moves :: Play(max, Start(window), moves).broker.pending != []) <==> window > max
  {
    hide Play;
    if window > max {
      var moves := ReadAll(window, max, max + 1);
      assert Play(max, Start(window), moves).broker.pending != [];
    } else {
      forall moves ensures Play(max, Start(window), moves).broker.pending == [] { NothingDeferred(window, max, moves); }
    }
  }

  lemma KeptWhenNarrow(window: nat, max: nat, moves: seq<Move>)
    requires 1 <= window <= 65535 && window <= max + 4096
    ensures !Drops(max, Play(max, Start(window), moves))
  {
    hide Next; hide Play; hide SysInv;
    var s := Play(max, Start(window), moves);
    Reachable(window, max, moves);
    if s.up != [] && s.up[0].PublishUp? {
      NeverDropped(window, max, s);
      TakenIn(window, max, s);
    }
  }

  lemma TakenIn(window: nat, max: nat, s: System)
    requires SysInv(window, max, s) && window <= max + 4096 && s.up != [] && s.up[0].PublishUp?
    ensures var b, b' := s.broker, Next(max, s, BrokerReceive).broker; b'.cached != b.cached || b'.pending != b.pending
  {
    hide Next; hide InOrder; hide Tokens; hide Phases; hide BrokerReachable; hide FlowInv;
    NeverDropped(window, max, s);
    PublishShape(max, s);
    if Full(Reliable(max), s.broker) {
      assert |s.broker.pending + [(s.up[0].pid, s.up[0].msg)]| > |s.broker.pending|;
    } else {
      assert s.up[0].pid in s.broker.cached + {s.up[0].pid};
    }
  }
}
