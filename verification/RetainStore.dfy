/** The in-memory store of retained messages: a trie of names with a message counter. */
module RetainStore {
  import opened Wrappers
  import opened Topics
  import opened RetainTrie
  import opened RetainSweep
  import TopicTrie

  /** Every stored name is the parsed form of its text. */
  ghost predicate FromText<V>(n: Node<V>) {
    forall p :: p in Paths(n) ==> Parse(Print(p)) == Ok(p)
  }

  /** The parts of the store's invariant that concern the tree. */
  ghost predicate Sound<V>(n: Node<V>) {
    Tidy(n) && n.value.None? && FromText(n)
  }

  lemma AfterRemove<V>(n: Node<V>, t: Topic)
    requires Sound(n)
    ensures Sound(RemoveAt(n, t)) && Paths(RemoveAt(n, t)) == Paths(n) - {t}
    ensures forall q :: Lookup(RemoveAt(n, t), q) == if q == t then None else Lookup(n, q)
  {
    hide Paths; hide RemoveAt; hide Parse; hide Print;
    var m := RemoveAt(n, t);
    forall q ensures Lookup(m, q) == if q == t then None else Lookup(n, q) { LookupRemove(n, t, q); }
    RemoveTidy(n, t);
    SamePaths(n, m, {}, {t});
    assert Lookup(m, []) == m.value;
  }

  lemma AfterInsert<V>(n: Node<V>, t: Topic, v: V)
    requires Sound(n) && HashLast(t) && t != [] && Parse(Print(t)) == Ok(t)
    ensures Sound(InsertAt(n, t, v)) && Paths(InsertAt(n, t, v)) == Paths(n) + {t}
    ensures forall q :: Lookup(InsertAt(n, t, v), q) == if q == t then Some(v) else Lookup(n, q)
  {
    hide Paths; hide InsertAt; hide Parse; hide Print;
    var m := InsertAt(n, t, v);
    forall q ensures Lookup(m, q) == if q == t then Some(v) else Lookup(n, q) { LookupInsert(n, t, v, q); }
    InsertTidy(n, t, v);
    SamePaths(n, m, {t}, {});
    assert Lookup(m, []) == m.value;
  }

  /** Replacing or clearing one name: only that name changes, and the number of names follows. */
  lemma AfterSet<V>(n: Node<V>, t: Topic, v: Option<V>)
    requires Sound(n) && HashLast(t) && t != [] && Parse(Print(t)) == Ok(t)
    ensures var cleared := RemoveAt(n, t);
      var m := if v.None? then cleared else InsertAt(cleared, t, v.value);
      && Sound(m)
      && |Paths(m)| == |Paths(n)| - (if Lookup(n, t).Some? then 1 else 0) + (if v.Some? then 1 else 0)
      && forall q :: Lookup(m, q) == if q == t then v else Lookup(n, q)
  {
    hide Paths; hide RemoveAt; hide InsertAt; hide Parse; hide Print; hide Lookup; hide Sound; hide HashLast;
    PathsAreStored(n, t);
    AfterRemove(n, t);
    assert |Paths(n) - {t}| == |Paths(n)| - if t in Paths(n) then 1 else 0;
    if v.Some? {
      AfterInsert(RemoveAt(n, t), t, v.value);
    }
  }

  lemma AfterSweep<V>(n: Node<V>, m: Node<V>, keep: V -> bool)
    requires Sound(n) && Tidy(m) && forall q :: Lookup(m, q) == Kept(keep, q, Lookup(n, q))
    ensures Sound(m)
  {
    hide Paths; hide Parse; hide Print;
    assert Lookup(m, []) == m.value == Lookup(n, []);
    forall p | p in Paths(m) ensures Parse(Print(p)) == Ok(p) {
      PathsAreStored(m, p);
      PathsAreStored(n, p);
    }
  }

  /** Names back to text, leaving out expired messages. */
  method ToText<V(!new)>(found: seq<(Topic, V)>, expired: V -> bool) returns (texts: seq<(string, V)>)
    requires DistinctNames(found) && forall x :: x in found ==> Parse(Print(x.0)) == Ok(x.0)
    ensures forall name, v :: (name, v) in texts <==> InText(found, name, v) && !expired(v)
    ensures forall j, k :: 0 <= j < k < |texts| ==> texts[j].0 != texts[k].0
  {
    hide Parse; hide Print;
    texts := [];
    for i := 0 to |found|
      invariant forall name, v :: (name, v) in texts <==> InText(found[..i], name, v) && !expired(v)
      invariant forall j, k :: 0 <= j < k < |texts| ==> texts[j].0 != texts[k].0
    {
      var (t, v) := found[i];
      assert found[i] in found;
      assert forall x :: x in found[..i + 1] <==> x in found[..i] || x == found[i];
      if !expired(v) {
        forall j | 0 <= j < |texts| ensures texts[j].0 != Print(t) {
          assert (texts[j].0, texts[j].1) in texts;
          var x :| x in found[..i] && Print(x.0) == texts[j].0 && x.1 == texts[j].1;
          assert x in found;
        }
        assert forall name, w :: (name, w) in texts + [(Print(t), v)] <==>
          (name, w) in texts || (name == Print(t) && w == v);
        texts := texts + [(Print(t), v)];
      }
    }
    assert found[..|found|] == found;
  }

  ghost predicate InText<V(!new)>(found: seq<(Topic, V)>, name: string, v: V) {
    exists x :: x in found && Print(x.0) == name && x.1 == v
  }

  class RetainStorage<V(==, !new)> {
    var messages: Node<V>
    var retaineds: int

    ghost predicate Valid() reads this {
      && Sound(messages)
      && retaineds == |Paths(messages)|
    }

    /** The message retained under a name. */
    ghost function Stored(name: string): Option<V> reads this {
      match Parse(name)
      case Ok(t) => Lookup(messages, t)
      case Err(_) => None
    }

    constructor ()
      ensures Valid() && forall name :: Stored(name) == None
    {
      messages, retaineds := Empty(), 0;
    }

    /** Set, replace, or with an empty payload clear, the message of a name. */
    method SetWithTimeout(name: string, message: V, emptyPayload: bool) returns (r: Result<(), TopicError>)
      requires Valid()
      modifies this
      ensures Valid()
      ensures r.Err? <==> Parse(name).Err?
      ensures r.Err? ==> messages == old(messages)
      ensures r.Ok? ==> Stored(name) == if emptyPayload then None else Some(message)
      ensures forall other :: other != name ==> Stored(other) == old(Stored(other))
    {
      hide Paths; hide Parse; hide Print; hide Sound; hide RemoveAt; hide InsertAt; hide Lookup; hide HashLast;
      var parsed := Parse(name);
      if parsed.Err? { return Err(parsed.error); }
      var t := parsed.value;
      PrintParse(name);
      ValidIsHashLast(t);
      forall other | other != name && Parse(other).Ok? ensures Parse(other).value != t { PrintParse(other); }
      var previous := Lookup(messages, t);
      AfterSet(messages, t, if emptyPayload then None else Some(message));
      messages := RemoveAt(messages, t);
      if !emptyPayload {
        messages := InsertAt(messages, t, message);
        if previous.None? { retaineds := retaineds + 1; }
      } else if previous.Some? {
        retaineds := retaineds - 1;
      }
      r := Ok(());
    }

    /** Drop exactly the expired messages and report how many there were. */
    method RemoveExpiredMessages(expired: V -> bool) returns (removed: nat)
      requires Valid()
      modifies this
      ensures Valid()
      ensures removed == old(|Paths(messages)|) - |Paths(messages)|
      ensures forall name, v :: Stored(name) == Some(v) <==> old(Stored(name)) == Some(v) && !expired(v)
    {
      hide Paths; hide Parse; hide Print;
      ghost var was := messages;
      ghost var plan;
      messages, removed, plan := Retain(messages, v => !expired(v), 0, None);
      retaineds := retaineds - removed;
      AfterSweep(was, messages, v => !expired(v));
      forall name | Parse(name).Ok? ensures Parse(name).value != [] { PrintParse(name); }
    }

    /** The stored name is passed over for the filter: another stored name captured a wildcard on its way. */
    ghost predicate Overlooked(filter: string, name: string) reads this {
      Parse(filter).Ok? && Parse(name).Ok? && Hidden(messages, Parse(filter).value, Parse(name).value)
    }

    /** No message is retained under a name with a wildcard. */
    ghost predicate PlainNames() reads this {
      forall p :: Lookup(messages, p).Some? ==> WildcardFree(p)
    }

    /**
     The unexpired messages whose name matches the filter under section 4.7, each once; all of them,
     unless messages were retained under names with wildcards.
     */
    method GetMessage(filter: string, expired: V -> bool) returns (r: Result<seq<(string, V)>, TopicError>)
      requires Valid()
      ensures r.Err? <==> Parse(filter).Err?
      ensures r.Ok? ==> forall name, v :: (name, v) in r.value <==>
        Stored(name) == Some(v) && !expired(v) && SpecMatches(Split(filter), Split(name)) && !Overlooked(filter, name)
      ensures PlainNames() ==> forall name :: !Overlooked(filter, name)
      ensures r.Ok? ==> forall i, j :: 0 <= i < j < |r.value| ==> r.value[i].0 != r.value[j].0
    {
      hide Paths; hide Parse; hide Print; hide Split; hide Hidden; hide Matches; hide SpecMatches; hide WildcardFree;
      var parsed := Parse(filter);
      if PlainNames() && parsed.Ok? {
        PrintParse(filter);
        ValidIsHashLast(parsed.value);
        forall g ensures !Hidden(messages, parsed.value, g) { PlainHidesNothing(messages, parsed.value, g); }
      }
      if parsed.Err? { return Err(parsed.error); }
      PrintParse(filter);
      var found := MatchNames(messages, parsed.value);
      forall x | x in found ensures Parse(Print(x.0)) == Ok(x.0) { PathsAreStored(messages, x.0); }
      var texts := ToText(found, expired);
      forall name, v ensures InText(found, name, v) <==>
        Stored(name) == Some(v) && SpecMatches(Split(filter), Split(name)) && !Overlooked(filter, name)
      {
        if Parse(name).Ok? {
          PrintParse(name);
          SpecOnText(filter, name);
          if Stored(name) == Some(v) && SpecMatches(Split(filter), Split(name)) && !Overlooked(filter, name) {
            assert (Parse(name).value, v) in found;
          }
        }
      }
      r := Ok(texts);
    }
  }

  /**
   The two tries agree, both queries run: subscribing `f` returns the message retained under `t`
   exactly when a live publish to `t` reaches the subscribers of `f`, unless the name is hidden;
   and names without wildcards hide nothing.
   */
  method LiveIffRetained<V(==), W(!new)>(subs: TopicTrie.Node<V>, retained: Node<W>, f: Topic, t: Topic)
    returns (live: seq<TopicTrie.Item<V>>, found: seq<(Topic, W)>)
    requires Tidy(retained) && retained.value.None? && Valid(f)
    ensures live == TopicTrie.Found(subs, t, []) && MatchResult(retained, f, found)
    ensures forall w :: TopicTrie.Lookup(subs, f) != {} && Lookup(retained, t) == Some(w) ==>
      ((t, w) in found <==> (exists item :: item in live && item.levels == f) && !Hidden(retained, f, t))
    ensures (forall p :: Lookup(retained, p).Some? ==> WildcardFree(p)) ==> !Hidden(retained, f, t)
  {
    hide TopicTrie.Found; hide Matches; hide Hidden; hide Valid; hide WildcardFree;
    live := TopicTrie.MatchAll(subs, t);
    found := MatchNames(retained, f);
    var item := TopicTrie.Item(f, TopicTrie.Lookup(subs, f));
    assert item in live <==> TopicTrie.MatchingEntry(subs, t, item);
    forall w | TopicTrie.Lookup(subs, f) != {} && Lookup(retained, t) == Some(w)
      ensures (t, w) in found <==> (exists item :: item in live && item.levels == f) && !Hidden(retained, f, t)
    {
      var x := (t, w);
      assert x in found <==> Matches(f, t) && !Hidden(retained, f, t);
      if y :| y in live && y.levels == f {
        assert TopicTrie.MatchingEntry(subs, t, y);
      }
      if Matches(f, t) { assert item in live && item.levels == f; }
    }
    ValidIsHashLast(f);
    if forall p :: Lookup(retained, p).Some? ==> WildcardFree(p) { PlainHidesNothing(retained, f, t); }
  }
}
