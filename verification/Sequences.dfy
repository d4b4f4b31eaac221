/** Flattening map over sequences: every history and channel view in the project is one of these. */
module Sequences {
  function FlatMap<T, U>(f: T -> seq<U>, s: seq<T>): seq<U> {
    if s == [] then [] else FlatMap(f, s[..|s| - 1]) + f(s[|s| - 1])
  }

  lemma FlatMapAppend<T, U>(f: T -> seq<U>, s: seq<T>, x: T)
    ensures FlatMap(f, s + [x]) == FlatMap(f, s) + f(x)
    ensures f(x) == [] ==> FlatMap(f, s + [x]) == FlatMap(f, s)
  {
    assert (s + [x])[..|s|] == s;
  }

  lemma {:induction false} FlatMapConcat<T, U>(f: T -> seq<U>, a: seq<T>, b: seq<T>)
    ensures FlatMap(f, a + b) == FlatMap(f, a) + FlatMap(f, b)
    decreases |b|
  {
    if b == [] {
      assert a + b == a;
    } else {
      var k := |b| - 1;
      FlatMapConcat(f, a, b[..k]);
      assert a + b == (a + b[..k]) + [b[k]];
      FlatMapAppend(f, a + b[..k], b[k]);
    }
  }

  lemma FlatMapHead<T, U>(f: T -> seq<U>, s: seq<T>)
    requires s != []
    ensures FlatMap(f, s) == f(s[0]) + FlatMap(f, s[1..])
  {
    assert s == [s[0]] + s[1..];
    FlatMapConcat(f, [s[0]], s[1..]);
    FlatMapAppend(f, [], s[0]);
    assert [] + [s[0]] == [s[0]];
  }

  lemma {:induction false} FlatMapMember<T, U>(f: T -> seq<U>, s: seq<T>, y: U)
    ensures y in FlatMap(f, s) <==> exists i :: 0 <= i < |s| && y in f(s[i])
    decreases |s|
  {
    if s != [] {
      var k := |s| - 1;
      FlatMapMember(f, s[..k], y);
      if y in FlatMap(f, s[..k]) {
        var i :| 0 <= i < k && y in f(s[..k][i]);
        assert s[i] == s[..k][i];
      }
      if i :| 0 <= i < |s| && y in f(s[i]) {
        assert i < k ==> s[..k][i] == s[i];
      }
    }
  }

  lemma FlatMapRemoved<T, U>(f: T -> seq<U>, s: seq<T>, i: nat)
    requires i < |s|
    ensures multiset(FlatMap(f, s)) == multiset(FlatMap(f, s[..i] + s[i + 1..])) + multiset(f(s[i]))
  {
    hide FlatMap;
    assert s == s[..i] + [s[i]] + s[i + 1..];
    FlatMapAppend(f, s[..i], s[i]);
    FlatMapConcat(f, s[..i] + [s[i]], s[i + 1..]);
    FlatMapConcat(f, s[..i], s[i + 1..]);
  }

  lemma {:induction false} FlatMapPermuted<T, U>(f: T -> seq<U>, a: seq<T>, b: seq<T>)
    requires multiset(a) == multiset(b)
    ensures multiset(FlatMap(f, a)) == multiset(FlatMap(f, b))
    decreases |a|
  {
    assert |a| == |multiset(a)| == |multiset(b)| == |b|;
    if a != [] {
      var k := |a| - 1;
      assert a == a[..k] + [a[k]];
      assert a[k] in multiset(b);
      var i :| 0 <= i < |b| && b[i] == a[k];
      var rest := b[..i] + b[i + 1..];
      assert b == b[..i] + [b[i]] + b[i + 1..];
      assert multiset(a[..k]) == multiset(a) - multiset{a[k]};
      assert multiset(rest) == multiset(b) - multiset{b[i]};
      FlatMapPermuted(f, a[..k], rest);
      FlatMapRemoved(f, b, i);
    }
  }

  /** 0, 1, ..., n - 1. */
  function Numbers(n: nat): seq<nat> {
    if n == 0 then [] else Numbers(n - 1) + [n - 1]
  }

  lemma {:induction false} NumbersAt(n: nat)
    ensures |Numbers(n)| == n && forall i :: 0 <= i < n ==> Numbers(n)[i] == i
  {
    if n > 0 { NumbersAt(n - 1); }
  }

  predicate NoRepeats<T(==)>(s: seq<T>) {
    forall i, j :: 0 <= i < j < |s| ==> s[i] != s[j]
  }

  lemma {:induction false} NoRepeatsCount<T>(s: seq<T>, x: T)
    requires NoRepeats(s)
    ensures multiset(s)[x] == if x in s then 1 else 0
    decreases |s|
  {
    if s != [] {
      var k := |s| - 1;
      NoRepeatsCount(s[..k], x);
      assert s == s[..k] + [s[k]];
      assert s[k] !in s[..k];
    }
  }

  predicate Below(s: seq<nat>, n: nat) {
    forall i :: 0 <= i < |s| ==> s[i] < n
  }

  predicate Increasing(s: seq<nat>) { forall i, j :: 0 <= i < j < |s| ==> s[i] < s[j] }

  lemma DropMiddle(a: seq<nat>, b: seq<nat>, n: nat)
    requires Increasing(a + b) && Below(a + b, n) && b != []
    ensures Increasing(a + b[1..]) && Below(a + b[1..], n)
    ensures a + [b[0]] + b[1..] == a + b
  {
    var c, d := a + b, a + b[1..];
    forall i | 0 <= i < |d| ensures d[i] == c[if i < |a| then i else i + 1] { }
  }

  lemma PushLast(a: seq<nat>, b: seq<nat>, n: nat)
    requires Increasing(a + b) && Below(a + b, n)
    ensures Increasing(a + (b + [n])) && Below(a + (b + [n]), n + 1)
  {
    assert a + (b + [n]) == (a + b) + [n];
  }

  function Elems<T>(s: seq<T>): set<T> { set x | x in s }

  lemma {:induction false} DistinctSize<T>(s: seq<T>)
    requires NoRepeats(s)
    ensures |Elems(s)| == |s|
    decreases |s|
  {
    if s != [] {
      var k := |s| - 1;
      DistinctSize(s[..k]);
      assert s == s[..k] + [s[k]];
      assert Elems(s) == Elems(s[..k]) + {s[k]};
      assert s[k] !in s[..k];
    }
  }

  lemma Associative<T>(a: seq<T>, b: seq<T>, c: seq<T>)
    ensures a + b + c == a + (b + c)
  {
  }

  lemma Regroup<T>(a: seq<T>, b: seq<T>, c: seq<T>, d: seq<T>)
    ensures a + b + (c + d) == a + (b + c) + d
  {
  }

  lemma TailSlices<T>(s: seq<T>, k: nat)
    requires k < |s|
    ensures s[..k + 1] == [s[0]] + s[1..][..k]
    ensures s[k + 1..] == s[1..][k..]
  {
  }
}
