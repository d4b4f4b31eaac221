/**
 The per-client delivery queue: a bounded FIFO whose overflow policy hands an item back, with one
 wake-up token per enqueued item in a bounded side channel read by the consumer.
 */
module DeliverQueue {
  import opened Wrappers
  import opened Sequences

  /** `returned` collects what callers got back: rejected, evicted, or popped items. */
  datatype State<T> = State(queue: seq<T>, tokens: nat, received: seq<T>, returned: seq<T>)

  datatype Policy = Current | Early

  /** Nominal capacity of the token channel: one and a half times the queue's, rounded down. */
  function TokenCap(cap: nat): nat { cap + cap / 2 }

  /** Below its nominal capacity the channel takes a token; beyond, `extra` says whether the sender has a slot. */
  function AddToken(cap: nat, tokens: nat, extra: bool): nat {
    if tokens < TokenCap(cap) || extra then tokens + 1 else tokens
  }

  /** Oldest item out, to the caller. */
  function Evict<T>(s: State<T>): State<T> {
    if s.queue == [] then s else s.(queue := s.queue[1..], returned := s.returned + [s.queue[0]])
  }

  function Send<T>(cap: nat, s: State<T>, v: T, policy: Policy, extra: bool): State<T> {
    if |s.queue| < cap then s.(queue := s.queue + [v], tokens := AddToken(cap, s.tokens, extra))
    else if policy == Current then s.(returned := s.returned + [v])
    else
      var s1 := Evict(s);
      if |s1.queue| < cap then s1.(queue := s1.queue + [v]) else s1.(returned := s1.returned + [v])
  }

  /** A token lets the consumer pop once; without a token it waits. */
  function Poll<T>(s: State<T>): State<T> {
    if s.tokens == 0 then s
    else if s.queue == [] then s.(tokens := s.tokens - 1)
    else s.(tokens := s.tokens - 1, queue := s.queue[1..], received := s.received + [s.queue[0]])
  }

  // ---------------------------------------------------------------------------------------------
  // Runs: the k-th item sent is the number k
  // ---------------------------------------------------------------------------------------------

  datatype Op = DoSend(policy: Policy, extra: bool) | DoPoll | DoPop

  /** A channel opened on a queue that already holds `n` messages: one token each. */
  function Opened(n: nat): State<nat> { State(Numbers(n), n, [], []) }

  function Apply(cap: nat, s: State<nat>, sent: nat, op: Op): (State<nat>, nat) {
    match op
    case DoSend(policy, extra) => (Send(cap, s, sent, policy, extra), sent + 1)
    case DoPoll => (Poll(s), sent)
    case DoPop => (Evict(s), sent)
  }

  function Run(cap: nat, s: State<nat>, sent: nat, ops: seq<Op>): (State<nat>, nat)
    decreases |ops|
  {
    if ops == [] then (s, sent)
    else
      var (s', sent') := Apply(cap, s, sent, ops[0]);
      Run(cap, s', sent', ops[1..])
  }

  /** Every item sent is in exactly one place. */
  predicate Conserved(s: State<nat>, sent: nat) {
    multiset(s.received) + multiset(s.queue) + multiset(s.returned) == multiset(Numbers(sent))
  }

  predicate Inv(cap: nat, s: State<nat>, sent: nat) {
    && |s.queue| <= cap
    && |s.queue| <= s.tokens
    && Increasing(s.received + s.queue) && Below(s.received + s.queue, sent)
    && Conserved(s, sent)
  }

  lemma HeadAndTail(s: seq<nat>)
    requires s != []
    ensures multiset(s) == multiset{s[0]} + multiset(s[1..])
  {
    assert s == [s[0]] + s[1..];
  }

  lemma EvictKeeps(cap: nat, s: State<nat>, sent: nat)
    requires Inv(cap, s, sent)
    ensures Inv(cap, Evict(s), sent)
  {
    if s.queue != [] {
      DropMiddle(s.received, s.queue, sent);
      HeadAndTail(s.queue);
    }
  }

  lemma PollKeeps(cap: nat, s: State<nat>, sent: nat)
    requires Inv(cap, s, sent)
    ensures Inv(cap, Poll(s), sent)
  {
    if s.tokens > 0 && s.queue != [] {
      DropMiddle(s.received, s.queue, sent);
      HeadAndTail(s.queue);
    }
  }

  lemma SendKeeps(cap: nat, s: State<nat>, sent: nat, policy: Policy, extra: bool)
    requires Inv(cap, s, sent)
    ensures Inv(cap, Send(cap, s, sent, policy, extra), sent + 1)
  {
    hide Evict;
    if |s.queue| < cap {
      EnqueueKeeps(cap, s, sent, AddToken(cap, s.tokens, extra));
    } else if policy == Current {
      HandBackKeeps(cap, s, sent);
    } else {
      EvictKeeps(cap, s, sent);
      var s1 := Evict(s);
      EvictRoom(s);
      if |s1.queue| < cap { EnqueueKeeps(cap, s1, sent, s1.tokens); } else { HandBackKeeps(cap, s1, sent); }
    }
  }

  lemma EvictRoom(s: State<nat>)
    ensures s.queue != [] ==> |Evict(s).queue| < |s.queue|
    ensures Evict(s).tokens == s.tokens
  {
  }

  lemma EnqueueKeeps(cap: nat, s: State<nat>, v: nat, tokens: nat)
    requires Inv(cap, s, v) && |s.queue| < cap && |s.queue| < tokens
    ensures Inv(cap, s.(queue := s.queue + [v], tokens := tokens), v + 1)
  {
    PushLast(s.received, s.queue, v);
    hide Increasing; hide Below;
  }

  lemma HandBackKeeps(cap: nat, s: State<nat>, v: nat)
    requires Inv(cap, s, v)
    ensures Inv(cap, s.(returned := s.returned + [v]), v + 1)
  {
  }

  lemma ApplyKeeps(cap: nat, s: State<nat>, sent: nat, op: Op)
    requires Inv(cap, s, sent)
    ensures var (s', sent') := Apply(cap, s, sent, op); Inv(cap, s', sent')
  {
    match op
    case DoSend(policy, extra) => SendKeeps(cap, s, sent, policy, extra);
    case DoPoll => PollKeeps(cap, s, sent);
    case DoPop => EvictKeeps(cap, s, sent);
  }

  lemma {:induction false} RunKeeps(cap: nat, s: State<nat>, sent: nat, ops: seq<Op>)
    requires Inv(cap, s, sent)
    ensures var (s', sent') := Run(cap, s, sent, ops); Inv(cap, s', sent')
    decreases |ops|
  {
    hide Inv; hide Apply;
    if ops != [] {
      ApplyKeeps(cap, s, sent, ops[0]);
      var (s', sent') := Apply(cap, s, sent, ops[0]);
      RunKeeps(cap, s', sent', ops[1..]);
    }
  }

  // ---------------------------------------------------------------------------------------------
  // The balance of tokens
  // ---------------------------------------------------------------------------------------------

  /** Direct pops that removed an item, polls that found the queue empty, tokens the channel refused. */
  datatype Tally = Tally(pops: nat, emptyPolls: nat, dropped: nat)

  function Noted(cap: nat, s: State<nat>, op: Op, t: Tally): Tally {
    match op
    case DoSend(_, extra) =>
      if |s.queue| < cap && AddToken(cap, s.tokens, extra) == s.tokens then t.(dropped := t.dropped + 1) else t
    case DoPoll => if s.tokens > 0 && s.queue == [] then t.(emptyPolls := t.emptyPolls + 1) else t
    case DoPop => if s.queue != [] then t.(pops := t.pops + 1) else t
  }

  function TallyOf(cap: nat, s: State<nat>, sent: nat, ops: seq<Op>, t: Tally): Tally
    decreases |ops|
  {
    if ops == [] then t
    else
      var (s', sent') := Apply(cap, s, sent, ops[0]);
      TallyOf(cap, s', sent', ops[1..], Noted(cap, s, ops[0], t))
  }

  predicate Balanced(s: State<nat>, t: Tally) { s.tokens - |s.queue| == t.pops - t.emptyPolls - t.dropped }

  lemma ApplyBalances(cap: nat, s: State<nat>, sent: nat, op: Op, t: Tally)
    requires Balanced(s, t) && |s.queue| <= cap
    ensures Balanced(Apply(cap, s, sent, op).0, Noted(cap, s, op, t))
  {
  }

  /** Over every run the surplus of tokens is what the tally says. */
  lemma {:induction false} RunBalances(cap: nat, s: State<nat>, sent: nat, ops: seq<Op>, t: Tally)
    requires Inv(cap, s, sent) && Balanced(s, t)
    ensures Balanced(Run(cap, s, sent, ops).0, TallyOf(cap, s, sent, ops, t))
    decreases |ops|
  {
    hide Apply; hide Noted; hide Conserved; hide Increasing; hide Below; hide Balanced;
    if ops != [] {
      ApplyBalances(cap, s, sent, ops[0], t);
      ApplyKeeps(cap, s, sent, ops[0]);
      var (s', sent') := Apply(cap, s, sent, ops[0]);
      RunBalances(cap, s', sent', ops[1..], Noted(cap, s, ops[0], t));
    }
  }

  lemma {:induction false} NoPopsTallied(cap: nat, s: State<nat>, sent: nat, ops: seq<Op>, t: Tally)
    requires DoPop !in ops
    ensures TallyOf(cap, s, sent, ops, t).pops == t.pops
    decreases |ops|
  {
    if ops != [] {
      var (s', sent') := Apply(cap, s, sent, ops[0]);
      NoPopsTallied(cap, s', sent', ops[1..], Noted(cap, s, ops[0], t));
    }
  }

  const Nothing := Tally(0, 0, 0)

  /**
   Over every run: each item sent is received, queued or handed back, exactly one of them; received
   then queued is in send order; no queued item lacks a token. Tokens equal the queued items exactly
   when empty polls and refused tokens make up for the direct pops; in particular without direct
   pops, and then no poll finds the queue empty and the channel refuses no token.
   */
  lemma QueueConserves(cap: nat, n: nat, ops: seq<Op>)
    requires n <= cap
    ensures var (s, sent) := Run(cap, Opened(n), n, ops);
      var t := TallyOf(cap, Opened(n), n, ops, Nothing);
      && Conserved(s, sent)
      && Increasing(s.received + s.queue)
      && |s.queue| <= s.tokens && |s.queue| <= cap
      && s.tokens - |s.queue| == t.pops - t.emptyPolls - t.dropped
      && (s.tokens == |s.queue| <==> t.pops == t.emptyPolls + t.dropped)
      && (DoPop !in ops ==> s.tokens == |s.queue| && t == Nothing)
  {
    hide Run; hide TallyOf; hide Conserved; hide Increasing;
    OpenedInv(cap, n);
    RunKeeps(cap, Opened(n), n, ops);
    RunBalances(cap, Opened(n), n, ops, Nothing);
    if DoPop !in ops { NoPopsTallied(cap, Opened(n), n, ops, Nothing); }
  }

  lemma OpenedInv(cap: nat, n: nat)
    requires n <= cap
    ensures Inv(cap, Opened(n), n) && Balanced(Opened(n), Nothing)
  {
    NumbersAt(n);
    assert [] + Numbers(n) == Numbers(n);
  }

  /** A direct pop leaves its item's token behind; the next poll then finds the queue empty. */
  lemma PopLeavesToken()
    ensures var s := Run(1, Opened(1), 1, [DoPop]).0; s.tokens == 1 && s.queue == []
    ensures var s := Run(1, Opened(1), 1, [DoPop, DoPoll]).0; s.tokens == 0 && s.queue == [] && s.received == []
  {
    assert Numbers(1) == Numbers(0) + [0] == [0];
    var s1: State<nat> := State([], 1, [], [0]);
    assert [0][1..] == [] && [] + [0] == [0];
    assert Apply(1, Opened(1), 1, DoPop) == (s1, 1);
    assert [DoPop][1..] == [] && [DoPop, DoPoll][1..] == [DoPoll] && [DoPoll][1..] == [];
    assert Run(1, s1, 1, []) == (s1, 1);
    assert Run(1, s1, 1, [DoPoll]) == Run(1, s1.(tokens := 0), 1, []);
  }

  // ---------------------------------------------------------------------------------------------
  // Polls hand out what is queued
  // ---------------------------------------------------------------------------------------------

  /** Polls made while a token was there. */
  function TokenPolls(cap: nat, s: State<nat>, sent: nat, ops: seq<Op>): nat
    decreases |ops|
  {
    if ops == [] then 0
    else
      var (s', sent') := Apply(cap, s, sent, ops[0]);
      (if ops[0] == DoPoll && s.tokens > 0 then 1 else 0) + TokenPolls(cap, s', sent', ops[1..])
  }

  lemma ApplyCounts(cap: nat, s: State<nat>, sent: nat, op: Op)
    requires s.tokens == |s.queue| <= cap && op != DoPop
    ensures var s' := Apply(cap, s, sent, op).0;
      && s'.tokens == |s'.queue| <= cap
      && |s'.received| == |s.received| + if op == DoPoll && s.tokens > 0 then 1 else 0
  {
  }

  lemma {:induction false} RunCounts(cap: nat, s: State<nat>, sent: nat, ops: seq<Op>)
    requires s.tokens == |s.queue| <= cap && DoPop !in ops
    ensures |Run(cap, s, sent, ops).0.received| == |s.received| + TokenPolls(cap, s, sent, ops)
    decreases |ops|
  {
    hide Apply;
    if ops != [] {
      ApplyCounts(cap, s, sent, ops[0]);
      var (s', sent') := Apply(cap, s, sent, ops[0]);
      RunCounts(cap, s', sent', ops[1..]);
    }
  }

  /** Without direct pops every poll that finds a token hands out one item, over every run. */
  lemma EveryTokenServes(cap: nat, n: nat, ops: seq<Op>)
    requires n <= cap && DoPop !in ops
    ensures |Run(cap, Opened(n), n, ops).0.received| == TokenPolls(cap, Opened(n), n, ops)
  {
    hide Run; hide TokenPolls;
    NumbersAt(n);
    RunCounts(cap, Opened(n), n, ops);
  }

  function Polls(n: nat): seq<Op> { if n == 0 then [] else [DoPoll] + Polls(n - 1) }

  lemma {:induction false} PollsDrain(cap: nat, s: State<nat>, sent: nat)
    requires |s.queue| <= s.tokens
    ensures Run(cap, s, sent, Polls(|s.queue|)) ==
      (State([], s.tokens - |s.queue|, s.received + s.queue, s.returned), sent)
    decreases |s.queue|
  {
    var ops := Polls(|s.queue|);
    if s.queue == [] {
      assert s.received + s.queue == s.received;
    } else {
      var s' := Poll(s);
      PollsDrain(cap, s', sent);
      assert ops[1..] == Polls(|s'.queue|);
      assert s'.received + s'.queue == s.received + s.queue;
    }
  }

  /** After any run, direct pops or not, as many polls as items are queued hand out all of them in order. */
  lemma QueueDrains(cap: nat, n: nat, ops: seq<Op>)
    requires n <= cap
    ensures var (s, sent) := Run(cap, Opened(n), n, ops);
      var (s', sent') := Run(cap, s, sent, Polls(|s.queue|));
      s'.queue == [] && s'.received == s.received + s.queue && s'.returned == s.returned && sent' == sent
  {
    hide Run; hide Conserved; hide Increasing;
    OpenedInv(cap, n);
    RunKeeps(cap, Opened(n), n, ops);
    var (s, sent) := Run(cap, Opened(n), n, ops);
    PollsDrain(cap, s, sent);
  }

  // ---------------------------------------------------------------------------------------------
  // The second half of an evicting send
  // ---------------------------------------------------------------------------------------------

  /** The second push of an evicting send, the eviction's lock having been released in between. */
  function FinishEarly<T>(cap: nat, s: State<T>, removed: Option<T>, v: T): State<T> {
    if |s.queue| < cap then
      s.(queue := s.queue + [v], returned := s.returned + if removed.Some? then [removed.value] else [])
    else s.(returned := s.returned + [v])
  }

  /** Uninterrupted, the two halves are the atomic send. */
  lemma EarlyUninterrupted<T>(cap: nat, s: State<T>, v: T, extra: bool)
    requires |s.queue| == cap > 0
    ensures FinishEarly(cap, s.(queue := s.queue[1..]), Some(s.queue[0]), v) == Send(cap, s, v, Early, extra)
  {
    assert |s.queue[1..]| < cap;
  }

  // ---------------------------------------------------------------------------------------------
  // The objects
  // ---------------------------------------------------------------------------------------------

  /** Queue, token channel, and the gauge the push and pop hooks keep. */
  class Channel<T> {
    const cap: nat
    var inner: seq<T>
    var tokens: nat
    var gauge: int
    ghost var received: seq<T>
    ghost var returned: seq<T>

    ghost predicate Valid() reads this { gauge == |inner| <= cap }

    ghost function View(): State<T> reads this { State(inner, tokens, received, returned) }

    /** Open the channel on stored messages, seeding one token for each. */
    constructor (cap: nat, stored: seq<T>)
      requires |stored| <= cap
      ensures Valid() && this.cap == cap && View() == State(stored, |stored|, [], [])
    {
      this.cap, inner, gauge := cap, stored, |stored|;
      received, returned := [], [];
      var seeded := 0;
      for i := 0 to |stored|
        invariant seeded == i
      {
        seeded := AddToken(cap, seeded, false);
      }
      tokens := seeded;
    }

    method Push(v: T) returns (rejected: Option<T>)
      requires Valid()
      modifies this`inner, this`gauge
      ensures Valid()
      ensures old(|inner|) < cap ==> rejected == None && inner == old(inner) + [v]
      ensures old(|inner|) >= cap ==> rejected == Some(v) && inner == old(inner)
    {
      if |inner| >= cap { return Some(v); }
      gauge := gauge + 1;
      inner := inner + [v];
      rejected := None;
    }

    method Pop() returns (r: Option<T>)
      requires Valid()
      modifies this`inner, this`gauge
      ensures Valid()
      ensures old(inner) == [] ==> r == None && inner == []
      ensures old(inner) != [] ==> r == Some(old(inner)[0]) && inner == old(inner)[1..]
    {
      if inner == [] { return None; }
      r := Some(inner[0]);
      gauge := gauge - 1;
      inner := inner[1..];
    }

    /** The handed-back item, if any, is the result; `extra` as in `AddToken`. */
    method SendItem(v: T, policy: Policy, extra: bool) returns (back: Option<T>)
      requires Valid()
      modifies this
      ensures Valid() && View() == Send(cap, old(View()), v, policy, extra)
      ensures received == old(received) && returned == old(returned) + if back.Some? then [back.value] else []
      ensures old(|inner|) < cap ==> back == None && inner == old(inner) + [v]
      ensures old(|inner|) < cap ==> tokens == old(tokens) + if old(tokens) < cap + cap / 2 || extra then 1 else 0
      ensures old(|inner|) == cap ==> tokens == old(tokens)
      ensures old(|inner|) == cap && (policy == Current || cap == 0) ==> back == Some(v) && inner == old(inner)
      ensures old(|inner|) == cap > 0 && policy == Early ==>
        back == Some(old(inner)[0]) && inner == old(inner)[1..] + [v]
    {
      var rejected := Push(v);
      if rejected.Some? {
        if policy == Current {
          back := rejected;
        } else {
          var removed := Pop();
          var again := Push(v);
          back := if again.Some? then again else removed;
        }
      } else {
        tokens := AddToken(cap, tokens, extra);
        back := None;
      }
      returned := returned + if back.Some? then [back.value] else [];
    }

    /**
     Woken by a token with the oldest item, or with nothing if the queue was emptied meanwhile.
     Without a token the consumer waits, or the stream ends once no sender is left.
     */
    method PollNext(open: bool) returns (p: Polled<T>)
      requires Valid()
      modifies this
      ensures Valid() && View() == Poll(old(View())) && returned == old(returned)
      ensures old(tokens) == 0 || old(inner) == [] ==> inner == old(inner) && received == old(received)
      ensures old(tokens) > 0 && old(inner) != [] ==>
        inner == old(inner)[1..] && received == old(received) + [old(inner)[0]]
      ensures tokens == if old(tokens) > 0 then old(tokens) - 1 else 0
      ensures old(tokens) == 0 ==> p == if open then Waiting else Ended
      ensures old(tokens) > 0 ==> p == Woken(if old(inner) == [] then None else Some(old(inner)[0]))
    {
      if tokens == 0 { return if open then Waiting else Ended; }
      tokens := tokens - 1;
      var item := Pop();
      received := received + if item.Some? then [item.value] else [];
      p := Woken(item);
    }
  }

  datatype Polled<T> = Waiting | Ended | Woken(item: Option<T>)
}
