/**
 The publishing half of QoS 1/2 in the load generator: the fixed packet id window (`Slots`) and
 the table of unacknowledged messages (`Outbound`). A message is identified by its position in the
 order of sending.
 */
module QosSender {
  import opened Wrappers
  import QosReceiver

  type Pid = QosReceiver.Pid
  type Message = QosReceiver.Message

  /** Packet id window: slot `i` stands for packet id `i + 1`. */
  datatype Slots = Slots(used: seq<bool>, cursor: nat) {
    predicate Valid() { 1 <= |used| <= 65535 && cursor < |used| }

    /** Index of the slot `k` places after the cursor, in circular order. */
    function At(k: nat): (i: nat)
      requires Valid() && k < |used|
      ensures i < |used| && (i == cursor + k || i == cursor + k - |used|)
    {
      (cursor + k) % |used|
    }
  }

  datatype Inflight = Inflight(msg: Message, ts: nat, pubrelSent: bool)

  datatype Sender = Sender(slots: Slots, inflight: map<Pid, Inflight>, sent: nat)

  /** What the client writes to the broker. */
  datatype Up = PublishUp(pid: Pid, msg: Message) | ReleaseUp(pid: Pid)

  /** Offset from the cursor, at least `i`, of the first free slot in circular order. */
  function FreeFrom(s: Slots, i: nat): (d: nat)
    requires s.Valid() && i <= |s.used|
    ensures i <= d <= |s.used|
    ensures d < |s.used| ==> !s.used[s.At(d)]
    ensures forall k :: i <= k < d ==> s.used[s.At(k)]
    decreases |s.used| - i
  {
    if i == |s.used| || !s.used[s.At(i)] then i else FreeFrom(s, i + 1)
  }

  function Take(s: Slots): (Slots, Option<Pid>)
    requires s.Valid()
  {
    var d := FreeFrom(s, 0);
    if d == |s.used| then (s, None)
    else
      var idx := s.At(d);
      (Slots(s.used[idx := true], (idx + 1) % |s.used|), Some(idx + 1))
  }

  function ReleaseSlot(s: Slots, pid: int): Slots {
    if 1 <= pid <= |s.used| then s.(used := s.used[pid - 1 := false]) else s
  }

  /** A claimed id was free, nothing else changes, and only a fully claimed window refuses. */
  lemma TakeIsFresh(s: Slots)
    requires s.Valid()
    ensures var (s', r) := Take(s);
      && s'.Valid()
      && (r.None? <==> forall i :: 0 <= i < |s.used| ==> s.used[i])
      && (r.Some? ==>
            var i := r.value - 1;
            0 <= i < |s.used| && !s.used[i] && s'.used == s.used[i := true])
      && (r.None? ==> s' == s)
  {
    var n, d := |s.used|, FreeFrom(s, 0);
    if d == n {
      forall i | 0 <= i < n
        ensures s.used[i]
      {
        var k := if i >= s.cursor then i - s.cursor else i - s.cursor + n;
        assert s.At(k) == i;
      }
    }
  }

  /** The claimed slot is the first free one at or after the cursor, which moves just past it. */
  lemma TakeIsNext(s: Slots) returns (d: nat)
    requires s.Valid()
    ensures d <= |s.used| && forall k :: 0 <= k < d ==> s.used[s.At(k)]
    ensures Take(s).1.Some? ==>
      d < |s.used| && Take(s).1.value == s.At(d) + 1 && Take(s).0.cursor == Take(s).1.value % |s.used|
  {
    d := FreeFrom(s, 0);
  }

  /** The window and the table agree: exactly the ids in flight are claimed. */
  predicate SlotsMatch(s: Sender) {
    && s.slots.Valid()
    && forall pid: Pid :: pid in s.inflight <==> pid <= |s.slots.used| && s.slots.used[pid - 1]
  }

  /** Claim an id for the next message, if the window has one. */
  function SendOne(s: Sender, ts: nat): (Sender, Option<Up>)
    requires s.slots.Valid()
  {
    var (slots, r) := Take(s.slots);
    match r
    case None => (s, None)
    case Some(pid) =>
      (Sender(slots, s.inflight[pid := Inflight(s.sent, ts, false)], s.sent + 1), Some(PublishUp(pid, s.sent)))
  }

  /** PUBACK or PUBCOMP: the message is finished. An unknown id changes nothing. */
  function OnAck(s: Sender, pid: Pid): Sender {
    if pid in s.inflight then s.(inflight := s.inflight - {pid}, slots := ReleaseSlot(s.slots, pid)) else s
  }

  /** PUBREC: answer PUBREL; the message stays in flight. */
  function OnPubrec(s: Sender, pid: Pid): (Sender, seq<Up>) {
    if pid in s.inflight then
      (s.(inflight := s.inflight[pid := s.inflight[pid].(pubrelSent := true)]), [ReleaseUp(pid)])
    else (s, [])
  }

  /** `batch` rounds of `SendOne`, cut short by the message limit (0: none) or a full window. */
  function Fill(s: Sender, batch: nat, limit: nat, clock: nat -> nat): (Sender, seq<Up>)
    requires s.slots.Valid()
    decreases batch
  {
    if batch == 0 || (limit > 0 && s.sent >= limit) then (s, [])
    else
      var (s1, up) := SendOne(s, clock(s.sent));
      TakeIsFresh(s.slots);
      if up.None? then (s, [])
      else
        var (s2, ups) := Fill(s1, batch - 1, limit, clock);
        (s2, [up.value] + ups)
  }

  lemma SendOneMatches(s: Sender, ts: nat)
    requires SlotsMatch(s)
    ensures SlotsMatch(SendOne(s, ts).0) && |SendOne(s, ts).0.slots.used| == |s.slots.used|
    ensures SendOne(s, ts).1.Some? ==> SendOne(s, ts).1.value.pid !in s.inflight
  {
    TakeIsFresh(s.slots);
  }

  predicate AllClaimed(s: Slots) { forall i :: 0 <= i < |s.used| ==> s.used[i] }

  /** The message of `up` is `m`, in flight since `ts` under an id that was free. */
  predicate Queued(before: Sender, after: Sender, up: Up, m: Message, ts: nat) {
    && up.PublishUp? && up.msg == m && up.pid !in before.inflight
    && up.pid in after.inflight && after.inflight[up.pid] == Inflight(m, ts, false)
  }

  /** What was in flight still is, unchanged; what is new was sent in between. */
  predicate Grown(before: Sender, after: Sender) {
    && before.sent <= after.sent
    && (forall p :: p in before.inflight ==> p in after.inflight && after.inflight[p] == before.inflight[p])
    && (forall p :: p in after.inflight && p !in before.inflight ==>
          before.sent <= after.inflight[p].msg < after.sent)
  }

  /** What one send does, said of the state before and after. */
  lemma SendOneQueues(s: Sender, ts: nat)
    requires SlotsMatch(s)
    ensures var (s', up) := SendOne(s, ts);
      && (up.None? <==> AllClaimed(s.slots)) && (up.None? ==> s' == s)
      && (up.Some? ==>
            && Queued(s, s', up.value, s.sent, ts) && s'.sent == s.sent + 1 && Grown(s, s')
            && s'.inflight == s.inflight[up.value.pid := Inflight(s.sent, ts, false)])
  {
    TakeIsFresh(s.slots);
  }

  lemma GrownOn(s: Sender, s1: Sender, s2: Sender)
    requires Grown(s, s1) && Grown(s1, s2)
    ensures Grown(s, s2)
    ensures forall up, m, ts :: Queued(s, s1, up, m, ts) ==> Queued(s, s2, up, m, ts)
    ensures forall up, m, ts :: Queued(s1, s2, up, m, ts) ==> Queued(s, s2, up, m, ts)
  {
  }

  /**
   A fill sends the next messages in order, each under a free id, and records each as in flight; the
   rest of the table is untouched. It never passes the message limit, and it stops short of its
   batch only at the limit or at a full window.
   */
  lemma {:induction false} FillExact(s: Sender, batch: nat, limit: nat, clock: nat -> nat)
    requires SlotsMatch(s)
    ensures var (s', ups) := Fill(s, batch, limit, clock);
      && SlotsMatch(s') && |s'.slots.used| == |s.slots.used|
      && |ups| <= batch && s'.sent == s.sent + |ups| && Grown(s, s')
      && (forall i :: 0 <= i < |ups| ==> Queued(s, s', ups[i], s.sent + i, clock(s.sent + i)))
      && (limit > 0 && ups != [] ==> s'.sent <= limit)
      && (|ups| < batch ==> (limit > 0 && s'.sent >= limit) || AllClaimed(s'.slots))
    decreases batch
  {
    hide SendOne; hide AllClaimed; hide Queued; hide Grown;
    if batch == 0 || (limit > 0 && s.sent >= limit) {
      GrownNothing(s);
    } else {
      var (s1, up) := SendOne(s, clock(s.sent));
      SendOneMatches(s, clock(s.sent));
      SendOneQueues(s, clock(s.sent));
      if up.None? {
        GrownNothing(s);
      } else {
        FillExact(s1, batch - 1, limit, clock);
        var (s', ups) := Fill(s, batch, limit, clock);
        var more := Fill(s1, batch - 1, limit, clock).1;
        GrownOn(s, s1, s');
        forall i | 0 <= i < |ups| ensures Queued(s, s', ups[i], s.sent + i, clock(s.sent + i)) {
          if i > 0 {
            var m := s1.sent + (i - 1);
            assert ups[i] == more[i - 1] && m == s.sent + i && Queued(s1, s', more[i - 1], m, clock(m));
          }
        }
      }
    }
  }

  lemma GrownNothing(s: Sender)
    ensures Grown(s, s)
  {
  }

  lemma OnAckMatches(s: Sender, pid: Pid)
    requires SlotsMatch(s)
    ensures SlotsMatch(OnAck(s, pid))
  {
  }
}
