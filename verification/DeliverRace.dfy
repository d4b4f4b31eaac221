/**
 The delivery queue with every lock and channel operation a step of its own, so that sends, polls
 and pops may interleave anywhere. A send pushes and later adds its token; an evicting send is
 refused, pops, and pushes again; a poll takes a token and later pops.
 */
module DeliverRace {
  import opened Wrappers
  import opened Sequences
  import opened DeliverQueue

  /** An evicting send under way: before its pop, or between its pop and its second push. */
  datatype Half = Refused(v: nat) | Evicted(removed: Option<nat>, v: nat)

  /**
   `owed` sends have pushed and not yet added their token, `polling` polls have taken a token and
   not yet popped. The last fields record what happened: items that vanished, direct pops that
   removed an item, polls that found nothing, tokens refused, second pushes after a pop of nothing.
   */
  datatype Race = Race(
    q: State<nat>, owed: nat, polling: nat, halves: seq<Half>,
    lost: seq<nat>, pops: nat, emptyPolls: nat, dropped: nat, unpaid: nat)

  datatype Step =
    | Push(policy: Policy) | Token(extra: bool) | PopFor(i: nat) | PushFor(i: nat)
    | TakeToken | PopPolled | PopDirect

  /** A channel opened on a queue of `n` messages. */
  function Calm(n: nat): Race { Race(Opened(n), 0, 0, [], [], 0, 0, 0, 0) }

  function Removed(halves: seq<Half>, i: nat): seq<Half>
    requires i < |halves|
  {
    halves[..i] + halves[i + 1..]
  }

  /** The pop that makes room for a refused item. */
  function PoppedFor(s: Race, i: nat): Race
    requires i < |s.halves| && s.halves[i].Refused?
  {
    if s.q.queue == [] then s.(halves := s.halves[i := Evicted(None, s.halves[i].v)])
    else s.(q := s.q.(queue := s.q.queue[1..]), halves := s.halves[i := Evicted(Some(s.q.queue[0]), s.halves[i].v)])
  }

  /** The second push: refused again, the evicted item is dropped on the floor. */
  function Finished(cap: nat, s: Race, i: nat): Race
    requires i < |s.halves| && s.halves[i].Evicted?
  {
    var Evicted(removed, v) := s.halves[i];
    var s1 := s.(q := FinishEarly(cap, s.q, removed, v), halves := Removed(s.halves, i));
    if |s.q.queue| >= cap then s1.(lost := s.lost + if removed.Some? then [removed.value] else [])
    else if removed.None? then s1.(unpaid := s.unpaid + 1)
    else s1
  }

  /** Steps that are not possible leave the state alone. */
  function Next(cap: nat, s: Race, sent: nat, st: Step): (Race, nat) {
    match st
    case Push(policy) =>
      (if |s.q.queue| < cap then s.(q := s.q.(queue := s.q.queue + [sent]), owed := s.owed + 1)
       else if policy == Current then s.(q := s.q.(returned := s.q.returned + [sent]))
       else s.(halves := s.halves + [Refused(sent)]), sent + 1)
    case Token(extra) =>
      (if s.owed == 0 then s
       else
         var tokens := AddToken(cap, s.q.tokens, extra);
         s.(owed := s.owed - 1, q := s.q.(tokens := tokens),
            dropped := if tokens == s.q.tokens then s.dropped + 1 else s.dropped), sent)
    case PopFor(i) =>
      (if i >= |s.halves| || !s.halves[i].Refused? then s
       else PoppedFor(s, i), sent)
    case PushFor(i) => (if i >= |s.halves| || !s.halves[i].Evicted? then s else Finished(cap, s, i), sent)
    case TakeToken =>
      (if s.q.tokens == 0 then s else s.(q := s.q.(tokens := s.q.tokens - 1), polling := s.polling + 1), sent)
    case PopPolled =>
      (if s.polling == 0 then s
       else if s.q.queue == [] then s.(polling := s.polling - 1, emptyPolls := s.emptyPolls + 1)
       else s.(polling := s.polling - 1,
               q := s.q.(queue := s.q.queue[1..], received := s.q.received + [s.q.queue[0]])), sent)
    case PopDirect => (if s.q.queue == [] then s else s.(q := Evict(s.q), pops := s.pops + 1), sent)
  }

  function Run(cap: nat, s: Race, sent: nat, steps: seq<Step>): (Race, nat)
    decreases |steps|
  {
    if steps == [] then (s, sent)
    else
      var (s', sent') := Next(cap, s, sent, steps[0]);
      Run(cap, s', sent', steps[1..])
  }

  // ---------------------------------------------------------------------------------------------
  // What every interleaving keeps
  // ---------------------------------------------------------------------------------------------

  /** Items held by a send under way. */
  function ItemsOf(h: Half): seq<nat> {
    [h.v] + if h.Evicted? && h.removed.Some? then [h.removed.value] else []
  }

  /** One for each item a send under way has popped. */
  function PoppedBy(h: Half): seq<()> { if h.Evicted? && h.removed.Some? then [()] else [] }

  function Held(halves: seq<Half>): multiset<nat> { multiset(FlatMap(ItemsOf, halves)) }

  function OutForEviction(halves: seq<Half>): nat { |FlatMap(PoppedBy, halves)| }

  /** Every item sent is in exactly one place, a vanished one included. */
  predicate Accounted(s: Race, sent: nat) {
    multiset(s.q.received) + multiset(s.q.queue) + multiset(s.q.returned) + Held(s.halves) + multiset(s.lost)
    == multiset(Numbers(sent))
  }

  predicate TokensAccounted(s: Race) {
    s.q.tokens + s.owed + s.polling - |s.q.queue|
    == s.pops + |s.lost| + OutForEviction(s.halves) - s.emptyPolls - s.dropped - s.unpaid
  }

  predicate Inv(cap: nat, s: Race, sent: nat) {
    |s.q.queue| <= cap && Accounted(s, sent) && TokensAccounted(s)
  }

  lemma HalvesAppended(halves: seq<Half>, h: Half)
    ensures multiset(FlatMap(ItemsOf, halves + [h])) == multiset(FlatMap(ItemsOf, halves)) + multiset(ItemsOf(h))
    ensures |FlatMap(PoppedBy, halves + [h])| == |FlatMap(PoppedBy, halves)| + |PoppedBy(h)|
  {
    FlatMapAppend(ItemsOf, halves, h);
    FlatMapAppend(PoppedBy, halves, h);
  }

  lemma HalvesRemoved(halves: seq<Half>, i: nat)
    requires i < |halves|
    ensures multiset(FlatMap(ItemsOf, halves)) ==
      multiset(FlatMap(ItemsOf, Removed(halves, i))) + multiset(ItemsOf(halves[i]))
    ensures |FlatMap(PoppedBy, halves)| == |FlatMap(PoppedBy, Removed(halves, i))| + |PoppedBy(halves[i])|
  {
    hide FlatMap;
    FlatMapRemoved(ItemsOf, halves, i);
    FlatMapRemoved(PoppedBy, halves, i);
    var whole, rest, one := FlatMap(PoppedBy, halves), FlatMap(PoppedBy, Removed(halves, i)), PoppedBy(halves[i]);
    assert |multiset(whole)| == |whole| && |multiset(rest)| == |rest| && |multiset(one)| == |one|;
  }

  /** A send under way that pops an item holds it from then on. */
  lemma HalvesReplaced(halves: seq<Half>, i: nat, h: Half)
    requires i < |halves| && halves[i].Refused? && h.Evicted? && h.v == halves[i].v
    ensures var after := halves[i := h];
      && multiset(FlatMap(ItemsOf, after)) ==
           multiset(FlatMap(ItemsOf, halves)) + (if h.removed.Some? then multiset{h.removed.value} else multiset{})
      && |FlatMap(PoppedBy, after)| == |FlatMap(PoppedBy, halves)| + if h.removed.Some? then 1 else 0
  {
    hide FlatMap;
    var after := halves[i := h];
    HalvesRemoved(halves, i);
    HalvesRemoved(after, i);
    assert Removed(after, i) == Removed(halves, i);
    assert multiset(ItemsOf(h)) ==
      multiset(ItemsOf(halves[i])) + if h.removed.Some? then multiset{h.removed.value} else multiset{};
  }

  lemma NumbersNext(n: nat)
    ensures multiset(Numbers(n + 1)) == multiset(Numbers(n)) + multiset{n}
  {
  }

  lemma PushKeeps(cap: nat, s: Race, sent: nat, policy: Policy)
    requires Inv(cap, s, sent)
    ensures var (s', sent') := Next(cap, s, sent, Push(policy)); Inv(cap, s', sent')
  {
    hide FlatMap; hide Numbers;
    NumbersNext(sent);
    HalvesAppended(s.halves, Refused(sent));
    var s' := Next(cap, s, sent, Push(policy)).0;
    if |s.q.queue| < cap {
      assert s'.q.queue == s.q.queue + [sent] && s'.halves == s.halves;
    } else if policy == Early {
      assert s'.halves == s.halves + [Refused(sent)];
    }
  }

  lemma PopForItems(s: Race, sent: nat, i: nat)
    requires Accounted(s, sent) && i < |s.halves| && s.halves[i].Refused?
    ensures Accounted(PoppedFor(s, i), sent)
  {
    hide FlatMap; hide Numbers; hide ItemsOf;
    if s.q.queue == [] {
      HalvesReplaced(s.halves, i, Evicted(None, s.halves[i].v));
    } else {
      HalvesReplaced(s.halves, i, Evicted(Some(s.q.queue[0]), s.halves[i].v));
      HeadAndTail(s.q.queue);
    }
  }

  lemma PopForTokens(s: Race, i: nat)
    requires TokensAccounted(s) && i < |s.halves| && s.halves[i].Refused?
    ensures TokensAccounted(PoppedFor(s, i))
  {
    hide FlatMap; hide PoppedBy; hide ItemsOf;
    var removed := if s.q.queue == [] then None else Some(s.q.queue[0]);
    HalvesReplaced(s.halves, i, Evicted(removed, s.halves[i].v));
  }

  lemma PopForKeeps(cap: nat, s: Race, sent: nat, i: nat)
    requires Inv(cap, s, sent)
    ensures var (s', sent') := Next(cap, s, sent, PopFor(i)); Inv(cap, s', sent')
  {
    hide Accounted; hide TokensAccounted;
    if i < |s.halves| && s.halves[i].Refused? {
      PopForItems(s, sent, i);
      PopForTokens(s, i);
    }
  }

  lemma PushForItems(cap: nat, s: Race, sent: nat, i: nat)
    requires Accounted(s, sent) && i < |s.halves| && s.halves[i].Evicted?
    ensures Accounted(Finished(cap, s, i), sent)
  {
    hide FlatMap; hide Numbers; hide Removed;
    HalvesRemoved(s.halves, i);
    var Evicted(removed, v) := s.halves[i];
    var s' := Finished(cap, s, i);
    var gone := if removed.Some? then [removed.value] else [];
    assert multiset(ItemsOf(s.halves[i])) == multiset([v]) + multiset(gone);
    if |s.q.queue| < cap {
      assert s'.q.queue == s.q.queue + [v] && s'.q.returned == s.q.returned + gone && s'.lost == s.lost;
    } else {
      assert s'.q.queue == s.q.queue && s'.q.returned == s.q.returned + [v] && s'.lost == s.lost + gone;
    }
  }

  lemma PushForKeeps(cap: nat, s: Race, sent: nat, i: nat)
    requires Inv(cap, s, sent)
    ensures var (s', sent') := Next(cap, s, sent, PushFor(i)); Inv(cap, s', sent')
  {
    hide FlatMap; hide Accounted; hide Removed;
    if i < |s.halves| && s.halves[i].Evicted? {
      HalvesRemoved(s.halves, i);
      PushForItems(cap, s, sent, i);
    }
  }

  lemma TokenKeeps(cap: nat, s: Race, sent: nat, st: Step)
    requires Inv(cap, s, sent) && (st.Token? || st.TakeToken?)
    ensures var (s', sent') := Next(cap, s, sent, st); Inv(cap, s', sent')
  {
    hide Held; hide OutForEviction; hide Numbers;
  }

  lemma PolledKeeps(cap: nat, s: Race, sent: nat)
    requires Inv(cap, s, sent)
    ensures var (s', sent') := Next(cap, s, sent, PopPolled); Inv(cap, s', sent')
  {
    hide Held; hide OutForEviction; hide Numbers;
    if s.q.queue != [] {
      HeadAndTail(s.q.queue);
      assert multiset(s.q.received + [s.q.queue[0]]) == multiset(s.q.received) + multiset{s.q.queue[0]};
    }
  }

  lemma DirectKeeps(cap: nat, s: Race, sent: nat)
    requires Inv(cap, s, sent)
    ensures var (s', sent') := Next(cap, s, sent, PopDirect); Inv(cap, s', sent')
  {
    hide Held; hide OutForEviction; hide Numbers;
    if s.q.queue != [] {
      HeadAndTail(s.q.queue);
      assert multiset(s.q.returned + [s.q.queue[0]]) == multiset(s.q.returned) + multiset{s.q.queue[0]};
    }
  }

  lemma {:induction false} RunKeeps(cap: nat, s: Race, sent: nat, steps: seq<Step>)
    requires Inv(cap, s, sent)
    ensures var (s', sent') := Run(cap, s, sent, steps); Inv(cap, s', sent')
    decreases |steps|
  {
    hide Inv; hide Next;
    if steps != [] {
      match steps[0] {
        case Push(policy) => PushKeeps(cap, s, sent, policy);
        case PopFor(i) => PopForKeeps(cap, s, sent, i);
        case PushFor(i) => PushForKeeps(cap, s, sent, i);
        case Token(_) => TokenKeeps(cap, s, sent, steps[0]);
        case TakeToken => TokenKeeps(cap, s, sent, steps[0]);
        case PopPolled => PolledKeeps(cap, s, sent);
        case PopDirect => DirectKeeps(cap, s, sent);
      }
      var (s', sent') := Next(cap, s, sent, steps[0]);
      RunKeeps(cap, s', sent', steps[1..]);
    }
  }

  /** No operation is half done. */
  predicate Quiet(s: Race) { s.owed == 0 && s.polling == 0 && s.halves == [] }

  /**
   In every interleaving each item sent is received, queued, handed back, held by a send under way,
   or lost, exactly one of them. Once nothing is half done, every item is accounted for exactly when
   no second push met a refilled queue, and every queued item has a token exactly when the direct
   pops and lost items outweigh the empty polls, refused tokens and second pushes after an empty pop.
   */
  lemma RaceConserves(cap: nat, n: nat, steps: seq<Step>)
    requires n <= cap
    ensures var (s, sent) := Run(cap, Calm(n), n, steps);
      && Accounted(s, sent) && |s.q.queue| <= cap
      && (Quiet(s) ==>
            && (DeliverQueue.Conserved(s.q, sent) <==> s.lost == [])
            && (|s.q.queue| <= s.q.tokens <==> s.emptyPolls + s.dropped + s.unpaid <= s.pops + |s.lost|))
  {
    hide Run;
    OpenedInv(cap, n);
    RunKeeps(cap, Calm(n), n, steps);
    var (s, sent) := Run(cap, Calm(n), n, steps);
    if Quiet(s) {
      assert Held(s.halves) == multiset{} && OutForEviction(s.halves) == 0;
      if s.lost != [] {
        assert s.lost[0] in multiset(s.lost);
        var rest := multiset(s.q.received) + multiset(s.q.queue) + multiset(s.q.returned);
        assert |rest + multiset(s.lost)| == |rest| + |s.lost|;
      }
    }
  }

  /** An item is lost exactly by a second push, after a pop that removed it, into a refilled queue. */
  lemma LostExactlyWhen(cap: nat, s: Race, sent: nat, st: Step)
    ensures var s' := Next(cap, s, sent, st).0;
      s'.lost != s.lost <==>
        && st.PushFor? && st.i < |s.halves| && s.halves[st.i].Evicted?
        && s.halves[st.i].removed.Some? && |s.q.queue| >= cap
  {
  }

  /** Capacity 1, item 0 queued: an evicting send is refused and pops it, holding items 0 and 1. */
  function HalfWay(): Race {
    Race(State([], 1, [], []), 0, 0, [Evicted(Some(0), 1)], [], 0, 0, 0, 0)
  }

  lemma ToHalfWay(rest: seq<Step>)
    ensures Run(1, Calm(1), 1, [Push(Early), PopFor(0)] + rest) == Run(1, HalfWay(), 2, rest)
  {
    hide Run;
    assert Numbers(1) == Numbers(0) + [0] == [0];
    var s1 := Calm(1).(halves := [] + [Refused(1)]);
    assert s1.halves == [Refused(1)] && s1.q.queue == [0] && [0][1..] == [];
    assert s1.halves[0 := Evicted(Some(0), 1)] == [Evicted(Some(0), 1)];
    assert Next(1, Calm(1), 1, Push(Early)) == (s1, 2);
    assert Next(1, s1, 2, PopFor(0)) == (HalfWay(), 2);
    assert [Push(Early), PopFor(0)] + rest == [Push(Early)] + ([PopFor(0)] + rest);
    RunHead(1, Calm(1), 1, Push(Early), [PopFor(0)] + rest);
    RunHead(1, s1, 2, PopFor(0), rest);
  }

  lemma RunHead(cap: nat, s: Race, sent: nat, st: Step, rest: seq<Step>)
    ensures var (s', sent') := Next(cap, s, sent, st); Run(cap, s, sent, [st] + rest) == Run(cap, s', sent', rest)
  {
    hide Next;
    assert ([st] + rest)[1..] == rest;
  }

  lemma RunNothing(cap: nat, s: Race, sent: nat)
    ensures Run(cap, s, sent, []) == (s, sent)
  {
  }

  /** Item 2 slips in before item 1's second push, and the popped item 0 is nowhere. */
  lemma LostExample()
    ensures var s := Run(1, Calm(1), 1, [Push(Early), PopFor(0)] + [Push(Early), PushFor(0), Token(false)]).0;
      Quiet(s) && s.lost == [0] && s.q.queue == [2] && s.q.returned == [1] && s.q.received == []
  {
    hide Run;
    ToHalfWay([Push(Early), PushFor(0), Token(false)]);
    var s3, s4 := Next(1, HalfWay(), 2, Push(Early)).0, Next(1, Next(1, HalfWay(), 2, Push(Early)).0, 3, PushFor(0)).0;
    assert s3.q.queue == [2] && s4.halves == [] && s4.owed == 1;
    RunHead(1, HalfWay(), 2, Push(Early), [PushFor(0), Token(false)]);
    RunHead(1, s3, 3, PushFor(0), [Token(false)]);
    RunHead(1, s4, 3, Token(false), []);
    RunNothing(1, Next(1, s4, 3, Token(false)).0, 3);
    assert [Push(Early)] + [PushFor(0), Token(false)] == [Push(Early), PushFor(0), Token(false)];
    assert [PushFor(0)] + [Token(false)] == [PushFor(0), Token(false)] && [Token(false)] + [] == [Token(false)];
  }

  lemma FinishStranded(s: Race)
    requires s == Race(State([], 0, [], []), 0, 0, [Evicted(Some(0), 1)], [], 0, 1, 0, 0)
    ensures Next(1, s, 2, PushFor(0)) == (Race(State([1], 0, [], [0]), 0, 0, [], [], 0, 1, 0, 0), 2)
  {
    assert Removed(s.halves, 0) == [] && [] + [1] == [1] && [] + [0] == [0];
  }

  /** A poll spends the token between the pop and the second push; item 1 then waits with no token. */
  lemma StrandedExample()
    ensures var s := Run(1, Calm(1), 1, [Push(Early), PopFor(0)] + [TakeToken, PopPolled, PushFor(0)]).0;
      Quiet(s) && s.q.queue == [1] && s.q.tokens == 0 && s.lost == []
  {
    hide Run; hide Finished;
    ToHalfWay([TakeToken, PopPolled, PushFor(0)]);
    var s3 := Race(State([], 0, [], []), 0, 1, [Evicted(Some(0), 1)], [], 0, 0, 0, 0);
    var s4 := Race(State([], 0, [], []), 0, 0, [Evicted(Some(0), 1)], [], 0, 1, 0, 0);
    assert Next(1, HalfWay(), 2, TakeToken) == (s3, 2) && Next(1, s3, 2, PopPolled) == (s4, 2);
    FinishStranded(s4);
    RunHead(1, HalfWay(), 2, TakeToken, [PopPolled, PushFor(0)]);
    RunHead(1, s3, 2, PopPolled, [PushFor(0)]);
    RunHead(1, s4, 2, PushFor(0), []);
    RunNothing(1, Next(1, s4, 2, PushFor(0)).0, 2);
    assert [TakeToken] + [PopPolled, PushFor(0)] == [TakeToken, PopPolled, PushFor(0)];
    assert [PopPolled] + [PushFor(0)] == [PopPolled, PushFor(0)] && [PushFor(0)] + [] == [PushFor(0)];
  }

  // ---------------------------------------------------------------------------------------------
  // Schedules that keep tokens, items and order
  // ---------------------------------------------------------------------------------------------

  /** Tokens added, owed or taken are exactly the queued items, and nothing has gone wrong. */
  predicate Even(cap: nat, s: Race) {
    && |s.q.queue| <= cap && s.halves == [] && s.q.tokens + s.owed + s.polling == |s.q.queue|
    && s.lost == [] && s.pops == s.emptyPolls == s.dropped == s.unpaid == 0
  }

  /** Received, then queued, in send order. */
  predicate Ordered(s: Race, sent: nat) {
    Increasing(s.q.received + s.q.queue) && Below(s.q.received + s.q.queue, sent)
  }

  /** A step that is not part of an evicting send. */
  predicate Plain(st: Step) { !(st.Push? && st.policy == Early) }

  lemma EvenStep(cap: nat, s: Race, sent: nat, st: Step)
    requires Even(cap, s) && Plain(st) && st != PopDirect
    ensures Even(cap, Next(cap, s, sent, st).0)
  {
  }

  lemma OrderedStep(cap: nat, s: Race, sent: nat, st: Step)
    requires Ordered(s, sent) && s.halves == [] && Plain(st)
    ensures var (s', sent') := Next(cap, s, sent, st); Ordered(s', sent') && s'.halves == []
  {
    hide Increasing; hide Below;
    if st.Push? {
      PushLast(s.q.received, s.q.queue, sent);
      OrderedLater(s, sent);
    } else if s.q.queue != [] {
      DropMiddle(s.q.received, s.q.queue, sent);
    }
  }

  lemma OrderedLater(s: Race, sent: nat)
    requires Ordered(s, sent)
    ensures Ordered(s, sent + 1)
  {
  }

  lemma {:induction false} RunPlain(cap: nat, s: Race, sent: nat, steps: seq<Step>)
    requires Ordered(s, sent) && s.halves == [] && forall i :: 0 <= i < |steps| ==> Plain(steps[i])
    ensures var (s', sent') := Run(cap, s, sent, steps);
      Ordered(s', sent') && s'.halves == [] && (Even(cap, s) && PopDirect !in steps ==> Even(cap, s'))
    decreases |steps|
  {
    hide Next; hide Ordered; hide Even; hide Plain;
    if steps != [] {
      assert Plain(steps[0]) && forall i :: 0 <= i < |steps[1..]| ==> steps[1..][i] == steps[i + 1];
      OrderedStep(cap, s, sent, steps[0]);
      if Even(cap, s) && PopDirect !in steps { EvenStep(cap, s, sent, steps[0]); }
      var (s', sent') := Next(cap, s, sent, steps[0]);
      RunPlain(cap, s', sent', steps[1..]);
    }
  }

  lemma CalmIsEven(cap: nat, n: nat)
    requires n <= cap
    ensures Even(cap, Calm(n)) && Ordered(Calm(n), n)
  {
    NumbersAt(n);
    assert [] + Numbers(n) == Numbers(n);
  }

  /**
   Without evicting sends, in every interleaving items are received in send order; and without
   direct pops tokens added, owed or taken are exactly the queued items, no poll finds the queue
   empty, no token is refused and no item is lost.
   */
  lemma WithoutEviction(cap: nat, n: nat, steps: seq<Step>)
    requires n <= cap && forall i :: 0 <= i < |steps| ==> Plain(steps[i])
    ensures var (s, sent) := Run(cap, Calm(n), n, steps);
      Increasing(s.q.received + s.q.queue) && (PopDirect !in steps ==> Even(cap, s))
  {
    hide Run; hide Even; hide Increasing;
    CalmIsEven(cap, n);
    RunPlain(cap, Calm(n), n, steps);
  }

  /** A step on its own, or an evicting send whose three steps are not interrupted. */
  datatype Block = Alone(step: Step) | Evicting

  function StepsOf(b: Block): seq<Step> {
    match b
    case Alone(st) => [st]
    case Evicting => [Push(Early), PopFor(0), PushFor(0)]
  }

  function Expanded(blocks: seq<Block>): seq<Step> {
    if blocks == [] then [] else StepsOf(blocks[0]) + Expanded(blocks[1..])
  }

  lemma {:induction false} RunConcat(cap: nat, s: Race, sent: nat, a: seq<Step>, b: seq<Step>)
    ensures var (s', sent') := Run(cap, s, sent, a); Run(cap, s, sent, a + b) == Run(cap, s', sent', b)
    decreases |a|
  {
    hide Next;
    if a == [] {
      assert a + b == b;
    } else {
      var (s', sent') := Next(cap, s, sent, a[0]);
      RunConcat(cap, s', sent', a[1..], b);
      assert (a + b)[1..] == a[1..] + b;
    }
  }

  /** What an uninterrupted evicting send comes to. */
  function AfterEvicting(cap: nat, s: Race, v: nat): Race {
    if |s.q.queue| < cap then s.(q := s.q.(queue := s.q.queue + [v]), owed := s.owed + 1)
    else if s.q.queue == [] then s.(q := s.q.(returned := s.q.returned + [v]))
    else s.(q := s.q.(queue := s.q.queue[1..] + [v], returned := s.q.returned + [s.q.queue[0]]))
  }

  lemma EvictingRun(cap: nat, s: Race, sent: nat)
    requires |s.q.queue| <= cap && s.halves == []
    ensures Run(cap, s, sent, StepsOf(Evicting)) == (AfterEvicting(cap, s, sent), sent + 1)
  {
    hide Run; hide Next;
    var s1 := Next(cap, s, sent, Push(Early)).0;
    var s2 := Next(cap, s1, sent + 1, PopFor(0)).0;
    EvictingSteps(cap, s, sent);
    assert StepsOf(Evicting) == [Push(Early)] + ([PopFor(0)] + ([PushFor(0)] + []));
    RunHead(cap, s, sent, Push(Early), [PopFor(0)] + ([PushFor(0)] + []));
    RunHead(cap, s1, sent + 1, PopFor(0), [PushFor(0)] + []);
    RunHead(cap, s2, sent + 1, PushFor(0), []);
    RunNothing(cap, AfterEvicting(cap, s, sent), sent + 1);
  }

  lemma EvictingSteps(cap: nat, s: Race, sent: nat)
    requires |s.q.queue| <= cap && s.halves == []
    ensures var (s1, n1) := Next(cap, s, sent, Push(Early));
      var (s2, n2) := Next(cap, s1, n1, PopFor(0));
      n1 == sent + 1 && n2 == sent + 1 && Next(cap, s2, n2, PushFor(0)) == (AfterEvicting(cap, s, sent), sent + 1)
  {
    var s1 := Next(cap, s, sent, Push(Early)).0;
    var s2 := Next(cap, s1, sent + 1, PopFor(0)).0;
    if |s.q.queue| == cap {
      assert s1.halves == [Refused(sent)];
      var removed := if s.q.queue == [] then None else Some(s.q.queue[0]);
      assert s1.halves[0 := Evicted(removed, sent)] == [Evicted(removed, sent)] == s2.halves;
      assert Removed(s2.halves, 0) == [];
      assert s.lost + [] == s.lost;
    }
  }

  lemma EvictingKeeps(cap: nat, s: Race, sent: nat)
    requires Ordered(s, sent) && s.halves == [] && |s.q.queue| <= cap
    ensures Ordered(AfterEvicting(cap, s, sent), sent + 1) && AfterEvicting(cap, s, sent).halves == []
    ensures |AfterEvicting(cap, s, sent).q.queue| <= cap
    ensures Even(cap, s) ==> Even(cap, AfterEvicting(cap, s, sent))
  {
    hide Increasing; hide Below;
    OrderedLater(s, sent);
    if |s.q.queue| < cap {
      PushLast(s.q.received, s.q.queue, sent);
    } else if s.q.queue != [] {
      DropMiddle(s.q.received, s.q.queue, sent);
      PushLast(s.q.received, s.q.queue[1..], sent);
    }
  }

  predicate PlainBlock(b: Block) { b.Alone? ==> Plain(b.step) && b.step != PopDirect }

  lemma {:induction false} RunBlocks(cap: nat, s: Race, sent: nat, blocks: seq<Block>)
    requires Even(cap, s) && Ordered(s, sent) && forall i :: 0 <= i < |blocks| ==> PlainBlock(blocks[i])
    ensures var (s', sent') := Run(cap, s, sent, Expanded(blocks)); Even(cap, s') && Ordered(s', sent')
    decreases |blocks|
  {
    hide Next; hide Ordered; hide Plain;
    if blocks != [] {
      assert PlainBlock(blocks[0]) && forall i :: 0 <= i < |blocks[1..]| ==> blocks[1..][i] == blocks[i + 1];
      RunConcat(cap, s, sent, StepsOf(blocks[0]), Expanded(blocks[1..]));
      if blocks[0].Alone? {
        var st := blocks[0].step;
        assert [st] == [st] + [];
        RunHead(cap, s, sent, st, []);
        OrderedStep(cap, s, sent, st);
        EvenStep(cap, s, sent, st);
      } else {
        EvictingRun(cap, s, sent);
        EvictingKeeps(cap, s, sent);
      }
      var (s', sent') := Run(cap, s, sent, StepsOf(blocks[0]));
      RunBlocks(cap, s', sent', blocks[1..]);
    }
  }

  /**
   Evicting sends do no harm as long as nothing comes between their three steps, whatever else
   interleaves: tokens stay exact, nothing is lost, and items are received in send order.
   */
  lemma UninterruptedEviction(cap: nat, n: nat, blocks: seq<Block>)
    requires n <= cap && forall i :: 0 <= i < |blocks| ==> PlainBlock(blocks[i])
    ensures var (s, sent) := Run(cap, Calm(n), n, Expanded(blocks));
      Even(cap, s) && Increasing(s.q.received + s.q.queue)
  {
    hide Run; hide Even; hide Increasing;
    CalmIsEven(cap, n);
    RunBlocks(cap, Calm(n), n, blocks);
  }

  // ---------------------------------------------------------------------------------------------
  // Uninterrupted operations are the atomic queue
  // ---------------------------------------------------------------------------------------------

  /** All the steps of one operation; those that do not apply do nothing. */
  function StepsFor(op: Op): seq<Step> {
    match op
    case DoSend(policy, extra) => [Push(policy), PopFor(0), PushFor(0), Token(extra)]
    case DoPoll => [TakeToken, PopPolled]
    case DoPop => [PopDirect]
  }

  function AllSteps(ops: seq<Op>): seq<Step> { if ops == [] then [] else StepsFor(ops[0]) + AllSteps(ops[1..]) }

  /** Nothing is half done and nothing was lost; `q` is the queue. */
  predicate Rests(cap: nat, s: Race, q: State<nat>) { Quiet(s) && s.lost == [] && s.q == q && |q.queue| <= cap }

  lemma RunTwo(cap: nat, s: Race, sent: nat, a: Step, b: Step)
    ensures var (s1, n1) := Next(cap, s, sent, a); Run(cap, s, sent, [a, b]) == Next(cap, s1, n1, b)
  {
    hide Next; hide Run;
    var (s1, n1) := Next(cap, s, sent, a);
    assert [a, b] == [a] + [b] && [b] == [b] + [];
    RunHead(cap, s, sent, a, [b]);
    RunHead(cap, s1, n1, b, []);
    var (s2, n2) := Next(cap, s1, n1, b);
    RunNothing(cap, s2, n2);
  }

  lemma SendSteps(cap: nat, s: Race, sent: nat, policy: Policy, extra: bool)
    requires Rests(cap, s, s.q)
    ensures var (s', n') := Run(cap, s, sent, StepsFor(DoSend(policy, extra)));
      Rests(cap, s', Send(cap, s.q, sent, policy, extra)) && n' == sent + 1
  {
    hide Run; hide Next;
    var (s1, n1) := Next(cap, s, sent, Push(policy));
    var (s2, n2) := Next(cap, s1, n1, PopFor(0));
    RunConcat(cap, s, sent, [Push(policy), PopFor(0)], [PushFor(0), Token(extra)]);
    RunTwo(cap, s, sent, Push(policy), PopFor(0));
    RunTwo(cap, s2, n2, PushFor(0), Token(extra));
    assert StepsFor(DoSend(policy, extra)) == [Push(policy), PopFor(0)] + [PushFor(0), Token(extra)];
    if policy == Early { EvictingSteps(cap, s, sent); } else { CurrentSteps(cap, s, sent); }
    var (s3, n3) := Next(cap, s2, n2, PushFor(0));
    LastToken(cap, s, sent, policy, extra, s3);
  }

  lemma CurrentSteps(cap: nat, s: Race, sent: nat)
    requires Rests(cap, s, s.q)
    ensures var (s1, n1) := Next(cap, s, sent, Push(Current));
      var (s2, n2) := Next(cap, s1, n1, PopFor(0));
      && n1 == sent + 1 && n2 == sent + 1
      && Next(cap, s2, n2, PushFor(0)) == (
           if |s.q.queue| < cap then s.(q := s.q.(queue := s.q.queue + [sent]), owed := 1)
           else s.(q := s.q.(returned := s.q.returned + [sent])), sent + 1)
  {
  }

  lemma LastToken(cap: nat, s: Race, sent: nat, policy: Policy, extra: bool, s3: Race)
    requires Rests(cap, s, s.q)
    requires s3 == if policy == Early then AfterEvicting(cap, s, sent)
                   else if |s.q.queue| < cap then s.(q := s.q.(queue := s.q.queue + [sent]), owed := 1)
                   else s.(q := s.q.(returned := s.q.returned + [sent]))
    ensures Rests(cap, Next(cap, s3, sent + 1, Token(extra)).0, Send(cap, s.q, sent, policy, extra))
    ensures Next(cap, s3, sent + 1, Token(extra)).1 == sent + 1
  {
  }

  lemma OpSteps(cap: nat, s: Race, sent: nat, op: Op)
    requires Rests(cap, s, s.q)
    ensures var (s', n') := Run(cap, s, sent, StepsFor(op));
      var (q', m') := Apply(cap, s.q, sent, op);
      Rests(cap, s', q') && n' == m'
  {
    match op
    case DoSend(policy, extra) => SendSteps(cap, s, sent, policy, extra);
    case DoPoll =>
      hide Run;
      RunTwo(cap, s, sent, TakeToken, PopPolled);
    case DoPop =>
      hide Run;
      assert [PopDirect] == [PopDirect] + [];
      RunHead(cap, s, sent, PopDirect, []);
      var (s', n') := Next(cap, s, sent, PopDirect);
      RunNothing(cap, s', n');
  }

  lemma {:induction false} RunAtomic(cap: nat, s: Race, sent: nat, ops: seq<Op>)
    requires Rests(cap, s, s.q)
    ensures var (s', n') := Run(cap, s, sent, AllSteps(ops));
      var (q', m') := DeliverQueue.Run(cap, s.q, sent, ops);
      Rests(cap, s', q') && n' == m'
    decreases |ops|
  {
    hide Next; hide Apply; hide StepsFor;
    if ops != [] {
      OpSteps(cap, s, sent, ops[0]);
      RunConcat(cap, s, sent, StepsFor(ops[0]), AllSteps(ops[1..]));
      var (s', n') := Run(cap, s, sent, StepsFor(ops[0]));
      RunAtomic(cap, s', n', ops[1..]);
    }
  }

  /** When no operation is interrupted, the steps come to exactly what the atomic queue does, over every run. */
  lemma AtomicWhenUninterrupted(cap: nat, n: nat, ops: seq<Op>)
    requires n <= cap
    ensures var (s, sent) := Run(cap, Calm(n), n, AllSteps(ops));
      Quiet(s) && s.lost == [] && (s.q, sent) == DeliverQueue.Run(cap, Opened(n), n, ops)
  {
    hide Run; hide DeliverQueue.Run; hide AllSteps;
    NumbersAt(n);
    RunAtomic(cap, Calm(n), n, ops);
  }

  /** Capacity 2: item 3 is pushed between the pop and the second push for item 2, which then comes after it. */
  lemma OutOfOrderExample()
    ensures var steps := [Push(Early), PopFor(0), TakeToken, PopPolled, Push(Current), PushFor(0)];
      var s := Run(2, Calm(2), 2, steps).0;
      s.q.received + s.q.queue == [1, 3, 2] && !Increasing(s.q.received + s.q.queue)
  {
    assert Numbers(2) == Numbers(1) + [1] && Numbers(1) == Numbers(0) + [0];
    assert Numbers(2) == [0, 1];
    var s0 := Race(State([0, 1], 2, [], []), 0, 0, [], [], 0, 0, 0, 0);
    var s1 := Race(State([0, 1], 2, [], []), 0, 0, [Refused(2)], [], 0, 0, 0, 0);
    var s2 := Race(State([1], 2, [], []), 0, 0, [Evicted(Some(0), 2)], [], 0, 0, 0, 0);
    var s3 := Race(State([1], 1, [], []), 0, 1, [Evicted(Some(0), 2)], [], 0, 0, 0, 0);
    var s4 := Race(State([], 1, [1], []), 0, 0, [Evicted(Some(0), 2)], [], 0, 0, 0, 0);
    var s5 := Race(State([3], 1, [1], []), 1, 0, [Evicted(Some(0), 2)], [], 0, 0, 0, 0);
    assert Calm(2) == s0;
    OutOfOrderSteps(s0, s1, s2, s3, s4, s5);
    hide Next; hide Run;
    var t5 := [PushFor(0)];
    var t4 := [Push(Current)] + t5;
    var t3 := [PopPolled] + t4;
    var t2 := [TakeToken] + t3;
    var t1 := [PopFor(0)] + t2;
    RunHead(2, s0, 2, Push(Early), t1);
    RunHead(2, s1, 3, PopFor(0), t2);
    RunHead(2, s2, 3, TakeToken, t3);
    RunHead(2, s3, 3, PopPolled, t4);
    RunHead(2, s4, 3, Push(Current), t5);
    RunHead(2, s5, 4, PushFor(0), []);
    assert t5 + [] == t5;
    RunNothing(2, Next(2, s5, 4, PushFor(0)).0, 4);
    assert [Push(Early)] + t1 == [Push(Early), PopFor(0), TakeToken, PopPolled, Push(Current), PushFor(0)];
    assert [1, 3, 2][1] > [1, 3, 2][2];
  }

  lemma OutOfOrderSteps(s0: Race, s1: Race, s2: Race, s3: Race, s4: Race, s5: Race)
    requires s0 == Race(State([0, 1], 2, [], []), 0, 0, [], [], 0, 0, 0, 0)
    requires s1 == s0.(halves := [Refused(2)])
    requires s2 == Race(State([1], 2, [], []), 0, 0, [Evicted(Some(0), 2)], [], 0, 0, 0, 0)
    requires s3 == Race(State([1], 1, [], []), 0, 1, [Evicted(Some(0), 2)], [], 0, 0, 0, 0)
    requires s4 == Race(State([], 1, [1], []), 0, 0, [Evicted(Some(0), 2)], [], 0, 0, 0, 0)
    requires s5 == Race(State([3], 1, [1], []), 1, 0, [Evicted(Some(0), 2)], [], 0, 0, 0, 0)
    ensures Next(2, s0, 2, Push(Early)) == (s1, 3) && Next(2, s1, 3, PopFor(0)) == (s2, 3)
    ensures Next(2, s2, 3, TakeToken) == (s3, 3) && Next(2, s3, 3, PopPolled) == (s4, 3)
    ensures Next(2, s4, 3, Push(Current)) == (s5, 4)
    ensures Next(2, s5, 4, PushFor(0)) == (Race(State([3, 2], 1, [1], [0]), 1, 0, [], [], 0, 0, 0, 0), 4)
  {
    assert [] + [Refused(2)] == [Refused(2)] && [0, 1][1..] == [1] && [1][1..] == [];
    assert [] + [1] == [1] && [] + [3] == [3];
    assert [Refused(2)][0 := Evicted(Some(0), 2)] == [Evicted(Some(0), 2)];
    assert Removed([Evicted(Some(0), 2)], 0) == [] && [3] + [2] == [3, 2] && [] + [0] == [0];
  }
}
