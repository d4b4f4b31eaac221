/** The broker's outbound packet id allocator: a wrapping 16-bit counter probed past ids in flight. */
module PacketIds {
  import opened Wrappers
  import opened Sets

  type u16 = n: int | 0 <= n < 65536

  /** The value of the `k`-th probe. */
  function Probe(start: u16, k: nat): u16 { (start + k) % 65536 }

  /** The one value 65535 probes do not reach: the one just before the counter. */
  function Unprobed(start: u16): u16 { (start + 65535) % 65536 }

  predicate Usable(id: u16, inflight: set<u16>) { id != 0 && id !in inflight }

  predicate FirstUsable(start: u16, k: nat, inflight: set<u16>) {
    Usable(Probe(start, k), inflight) && forall j :: 0 <= j < k ==> !Usable(Probe(start, j), inflight)
  }

  lemma ProbedWithin(start: u16, id: u16) returns (k: nat)
    requires id != Unprobed(start)
    ensures k < 65535 && Probe(start, k) == id
  {
    k := (id - start + 65536) % 65536;
  }

  /** If every probed id is taken, at least 65534 ids are in flight. */
  lemma ManyInFlight(start: u16, inflight: set<u16>)
    requires forall id: u16 :: Usable(id, inflight) ==> id == Unprobed(start)
    ensures |inflight| >= 65534
  {
    hide Range;
    var wanted := Range(1, 65536) - {Unprobed(start)};
    forall x | x in wanted ensures x in inflight {
      var id: u16 := x;
      assert !Usable(id, inflight);
    }
    SubsetSize(wanted, inflight);
    assert |wanted| >= 65534 by {
      assert Range(1, 65536) <= wanted + {Unprobed(start)};
      SubsetSize(Range(1, 65536), wanted + {Unprobed(start)});
    }
  }

  class OutInflight {
    var next: u16

    constructor ()
      ensures next == 1
    {
      next := 1;
    }

    /**
     A usable id, the first in probing order, found exactly when some id other than the unprobed one
     is usable; in particular whenever at most 65533 ids are in flight.
     */
    method NextId(inflight: set<u16>) returns (r: Option<u16>)
      modifies this
      ensures r.Some? ==> Usable(r.value, inflight) && next == (r.value + 1) % 65536
      ensures r.Some? <==> exists id: u16 :: Usable(id, inflight) && id != Unprobed(old(next))
      ensures |inflight| <= 65533 ==> r.Some?
      ensures r.Some? ==>
        exists k :: 0 <= k < 65535 && FirstUsable(old(next), k, inflight) && Probe(old(next), k) == r.value
      ensures r.None? ==> next == Unprobed(old(next))
    {
      ghost var start := next;
      for probe := 0 to 65535
        invariant next == Probe(start, probe)
        invariant forall k :: 0 <= k < probe ==> !Usable(Probe(start, k), inflight)
      {
        var id := next;
        next := (next + 1) % 65536;
        if id == 0 { continue; }
        if id !in inflight {
          assert Usable(id, inflight) && id != Unprobed(start);
          assert FirstUsable(start, probe, inflight) && Probe(start, probe) == id;
          return Some(id);
        }
      }
      forall id: u16 | Usable(id, inflight) ensures id == Unprobed(start) {
        if id != Unprobed(start) { var k := ProbedWithin(start, id); }
      }
      ManyInFlight(start, inflight);
      return None;
    }
  }

  /** 65534 ids in flight are too many when the free one sits just before the counter. */
  lemma TooMany(free: u16, inflight: set<u16>, start: u16)
    requires free != 0 && start == (free + 1) % 65536
    requires forall id: u16 :: id in inflight <==> id != 0 && id != free
    ensures |inflight| == 65534
    ensures Usable(free, inflight) && !exists id: u16 :: Usable(id, inflight) && id != Unprobed(start)
  {
    hide Range;
    var wanted := Range(1, 65536) - {free};
    forall x ensures x in inflight <==> x in wanted {
      if x in wanted { var id: u16 := x; }
    }
    assert inflight == wanted;
    assert Range(1, 65536) == wanted + {free};
  }
}
