/**
 Per-client locks: `lockers` maps a client to a mutex, created on demand. Dropping a lock entry
 first removes the client's mutex from the map and only afterwards unlocks it, so the two are
 separate steps here and any other step may come between them.
 */
module ClientLocks {
  import opened Wrappers

  type ClientId = string
  type Mutex = nat
  type EntryId = nat

  /** A lock entry that was granted; `dropping` once its drop has removed the mutex from the map. */
  datatype Entry = Entry(client: ClientId, mutex: Mutex, dropping: bool)

  datatype State = State(
    lockers: map<ClientId, Mutex>, holder: map<Mutex, EntryId>, entries: map<EntryId, Entry>,
    mutexes: nat, granted: nat)

  const Initial := State(map[], map[], map[], 0, 0)

  datatype Step = TryLock(client: ClientId) | BeginDrop(entry: EntryId) | Unlock(entry: EntryId)

  /** Look up or create the client's mutex and lock it if it is free, under the map's shard lock. */
  function TryLocked(s: State, c: ClientId): State {
    var isNew := c !in s.lockers;
    var m := if isNew then s.mutexes else s.lockers[c];
    var s1 := if isNew then s.(lockers := s.lockers[c := m], mutexes := m + 1) else s;
    if m in s.holder then s1
    else s1.(holder := s.holder[m := s.granted], entries := s.entries[s.granted := Entry(c, m, false)],
               granted := s.granted + 1)
  }

  /** Steps that are not possible leave the state alone. */
  function Next(s: State, step: Step): State {
    match step
    case TryLock(c) => TryLocked(s, c)
    case BeginDrop(e) =>
      if e in s.entries && !s.entries[e].dropping then
        s.(lockers := s.lockers - {s.entries[e].client}, entries := s.entries[e := s.entries[e].(dropping := true)])
      else s
    case Unlock(e) =>
      if e in s.entries && s.entries[e].dropping then
        s.(holder := s.holder - {s.entries[e].mutex}, entries := s.entries - {e})
      else s
  }

  function Run(s: State, steps: seq<Step>): State
    decreases |steps|
  {
    if steps == [] then s else Run(Next(s, steps[0]), steps[1..])
  }

  /** Undropped. */
  predicate Active(s: State, e: EntryId) { e in s.entries && !s.entries[e].dropping }

  ghost predicate Inv(s: State) {
    // every mutex in the map is held by the client's undropped entry
    && (forall c :: c in s.lockers ==>
          s.lockers[c] in s.holder && Active(s, s.holder[s.lockers[c]])
          && s.entries[s.holder[s.lockers[c]]].client == c)
    // every entry holds its mutex, and an undropped one holds the mutex in the map
    && (forall e :: e in s.entries ==> s.entries[e].mutex in s.holder && s.holder[s.entries[e].mutex] == e)
    && (forall e :: Active(s, e) ==>
          s.entries[e].client in s.lockers && s.lockers[s.entries[e].client] == s.entries[e].mutex)
    // only entries hold mutexes; numbers not yet handed out are unused
    && (forall m :: m in s.holder ==> m < s.mutexes && s.holder[m] in s.entries && s.entries[s.holder[m]].mutex == m)
    && (forall e :: e in s.entries ==> e < s.granted)
  }

  lemma TryLockKeeps(s: State, c: ClientId)
    requires Inv(s)
    ensures Inv(TryLocked(s, c))
  {
  }

  /** A mutex in the map is held; the next one to be made is not. */
  lemma MapHeld(s: State, c: ClientId)
    requires Inv(s)
    ensures c in s.lockers ==> s.lockers[c] in s.holder
    ensures s.mutexes !in s.holder && s.granted !in s.entries
  {
  }

  lemma BeginDropKeeps(s: State, e: EntryId)
    requires Inv(s)
    ensures Inv(Next(s, BeginDrop(e)))
  {
  }

  lemma UnlockKeeps(s: State, e: EntryId)
    requires Inv(s)
    ensures Inv(Next(s, Unlock(e)))
  {
  }

  lemma {:induction false} RunKeeps(s: State, steps: seq<Step>)
    requires Inv(s)
    ensures Inv(Run(s, steps))
    decreases |steps|
  {
    hide Inv; hide Next; hide TryLocked;
    if steps != [] {
      NextKeeps(s, steps[0]);
      RunKeeps(Next(s, steps[0]), steps[1..]);
    }
  }

  lemma NextKeeps(s: State, step: Step)
    requires Inv(s)
    ensures Inv(Next(s, step))
  {
    match step
    case TryLock(c) => TryLockKeeps(s, c);
    case BeginDrop(e) => BeginDropKeeps(s, e);
    case Unlock(e) => UnlockKeeps(s, e);
  }

  /**
   In every interleaving a client has at most one undropped lock entry, it holds the mutex found in
   the map, and a mutex in the map is never free.
   */
  lemma MutualExclusion(steps: seq<Step>, e1: EntryId, e2: EntryId, c: ClientId)
    ensures var s := Run(Initial, steps);
      && (Active(s, e1) && Active(s, e2) && s.entries[e1].client == s.entries[e2].client ==> e1 == e2)
      && (c in s.lockers ==> s.lockers[c] in s.holder && Active(s, s.holder[s.lockers[c]]))
      && (Active(s, e1) ==> TryLocked(s, s.entries[e1].client) == s)
  {
    RunKeeps(Initial, steps);
  }

  /** After the drop and before the unlock, another session may already hold a new lock. */
  lemma NewLockBeforeUnlock(s: State, e: EntryId)
    requires Inv(s) && Active(s, e)
    ensures var c := s.entries[e].client;
      var s1 := TryLocked(Next(s, BeginDrop(e)), c);
      && e in s1.entries && s1.entries[e].dropping
      && c in s1.lockers && s1.lockers[c] != s.entries[e].mutex && Active(s1, s1.holder[s1.lockers[c]])
  {
  }

  /** The entries of a client that are not dropped. */
  ghost function ActiveOf(s: State, c: ClientId): set<EntryId> {
    set e | e in s.entries && !s.entries[e].dropping && s.entries[e].client == c
  }

  /**
   In every interleaving a try succeeds exactly when the client has no undropped entry; it then adds
   one, and nothing else of any client changes. In particular a drop makes the next try succeed.
   */
  lemma GrantedIff(steps: seq<Step>, c: ClientId)
    ensures var s := Run(Initial, steps);
      var s' := Next(s, TryLock(c));
      && (ActiveOf(s, c) == {} ==> ActiveOf(s', c) == {s.granted} && s.granted !in s.entries)
      && (ActiveOf(s, c) != {} ==> s' == s)
      && forall e :: e in s.entries ==> e in s'.entries && s'.entries[e] == s.entries[e]
  {
    hide Run;
    RunKeeps(Initial, steps);
    var s := Run(Initial, steps);
    if c in s.lockers {
      var e := s.holder[s.lockers[c]];
      assert e in ActiveOf(s, c);
    } else {
      assert forall e :: e in s.entries && !s.entries[e].dropping ==> Active(s, e);
      assert ActiveOf(s, c) == {};
    }
  }

  /** In every interleaving dropping an undropped entry leaves its client with none, and unlocking frees its mutex. */
  lemma DropFrees(steps: seq<Step>, e: EntryId)
    requires Active(Run(Initial, steps), e)
    ensures var s := Run(Initial, steps);
      var s1 := Next(s, BeginDrop(e));
      var s2 := Next(s1, Unlock(e));
      && ActiveOf(s1, s.entries[e].client) == {} && s.entries[e].mutex in s1.holder
      && e !in s2.entries && s.entries[e].mutex !in s2.holder
      && forall d :: d in s.entries && d != e ==> d in s2.entries && s2.entries[d] == s.entries[d]
  {
    hide Run;
    RunKeeps(Initial, steps);
    var s := Run(Initial, steps);
    assert forall d :: d in s.entries && !s.entries[d].dropping ==> Active(s, d);
  }

  /** The shared table; each method is one step. */
  class LockTable {
    var lockers: map<ClientId, Mutex>
    var holder: map<Mutex, EntryId>
    var entries: map<EntryId, Entry>
    var mutexes: nat
    var granted: nat

    ghost function View(): State reads this { State(lockers, holder, entries, mutexes, granted) }

    ghost predicate Valid() reads this { Inv(View()) }

    constructor ()
      ensures Valid() && View() == Initial
    {
      lockers, holder, entries, mutexes, granted := map[], map[], map[], 0, 0;
    }

    /** Granted exactly when the client has no mutex in the map. */
    method TryLockFor(c: ClientId) returns (e: Option<EntryId>)
      requires Valid()
      modifies this
      ensures Valid() && View() == TryLocked(old(View()), c)
      ensures e.Some? <==> c !in old(lockers)
      ensures e.Some? ==> Active(View(), e.value) && entries[e.value].client == c && e.value !in old(entries)
      ensures e.Some? ==> entries == old(entries)[e.value := entries[e.value]]
      ensures e.Some? ==> lockers == old(lockers)[c := entries[e.value].mutex]
      ensures e.Some? ==> entries[e.value].mutex !in old(holder)
      ensures e.None? ==> View() == old(View())
    {
      hide Inv;
      TryLockKeeps(View(), c);
      MapHeld(View(), c);
      if c !in lockers {
        lockers := lockers[c := mutexes];
        mutexes := mutexes + 1;
      }
      var m := lockers[c];
      if m in holder { return None; }
      holder := holder[m := granted];
      entries := entries[granted := Entry(c, m, false)];
      e := Some(granted);
      granted := granted + 1;
    }

    /** The first half of dropping an entry: the client's mutex leaves the map. */
    method RemoveLocker(e: EntryId)
      requires Valid() && Active(View(), e)
      modifies this
      ensures Valid() && View() == Next(old(View()), BeginDrop(e))
      ensures lockers == old(lockers) - {old(entries)[e].client} && holder == old(holder)
      ensures entries == old(entries)[e := old(entries)[e].(dropping := true)]
    {
      BeginDropKeeps(View(), e);
      lockers := lockers - {entries[e].client};
      entries := entries[e := entries[e].(dropping := true)];
    }

    /** The second half: the guard is released. */
    method ReleaseGuard(e: EntryId)
      requires Valid() && e in entries && entries[e].dropping
      modifies this
      ensures Valid() && View() == Next(old(View()), Unlock(e))
      ensures lockers == old(lockers) && entries == old(entries) - {e}
      ensures holder == old(holder) - {old(entries)[e].mutex}
    {
      UnlockKeeps(View(), e);
      holder := holder - {entries[e].mutex};
      entries := entries - {e};
    }
  }
}
