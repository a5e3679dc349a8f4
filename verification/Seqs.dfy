/** Sequence operations behind the bounded queues: removal at an index, the
    first position that satisfies a test, and projections of a queue or of a
    history that keep the order of the entries. */
module Seqs {

  function RemoveAt<T>(s: seq<T>, i: nat): (r: seq<T>)
    requires i < |s|
    ensures |r| == |s| - 1
  {
    s[..i] + s[i + 1..]
  }

  lemma RemoveSplits<T>(q: seq<T>, i: nat)
    requires i < |q|
    ensures multiset(q) == multiset(RemoveAt(q, i)) + multiset{q[i]}
  {
    assert q == q[..i] + [q[i]] + q[i + 1..];
  }

  /** The index of the first element that passes `test`, or `|s|`. */
  function Position<T>(s: seq<T>, test: T -> bool): (i: nat)
    ensures i <= |s|
    ensures i < |s| ==> test(s[i])
    ensures forall j :: 0 <= j < i ==> !test(s[j])
  {
    if s == [] then 0 else if test(s[0]) then 0 else 1 + Position(s[1..], test)
  }

  /** The rest of `s` from the last element that passes the test on, or nothing. */
  function Since<T>(test: T -> bool, s: seq<T>): seq<T> {
    if s == [] then [] else
    var last := s[|s| - 1];
    if test(last) then [last] else
    var before := Since(test, s[..|s| - 1]);
    if before == [] then [] else before + [last]
  }

  lemma SinceSnoc<T>(test: T -> bool, s: seq<T>, x: T)
    ensures Since(test, s + [x]) == if test(x) then [x] else if Since(test, s) == [] then [] else Since(test, s) + [x]
  {
    assert (s + [x])[..|s|] == s;
  }

  /** Where that rest begins. */
  lemma {:induction false} SinceAt<T>(test: T -> bool, s: seq<T>) returns (i: nat)
    requires Since(test, s) != []
    ensures i < |s| && Since(test, s) == s[i..] && test(s[i])
    ensures forall j :: i < j < |s| ==> !test(s[j])
    decreases |s|
  {
    if test(s[|s| - 1]) {
      i := |s| - 1;
    } else {
      var before := s[..|s| - 1];
      assert s == before + [s[|s| - 1]];
      i := SinceAt(test, before);
      assert s[i..] == before[i..] + [s[|s| - 1]];
    }
  }

  /** Replaces every element of `s` by the elements `f` makes of it, in order. */
  function FlatMap<T, U>(f: T -> seq<U>, s: seq<T>): seq<U> {
    if s == [] then [] else f(s[0]) + FlatMap(f, s[1..])
  }

  lemma {:induction false} FlatMapConcat<T, U>(f: T -> seq<U>, a: seq<T>, b: seq<T>)
    ensures FlatMap(f, a + b) == FlatMap(f, a) + FlatMap(f, b)
  {
    if a == [] {
      assert a + b == b;
    } else {
      assert (a + b)[1..] == a[1..] + b;
      FlatMapConcat(f, a[1..], b);
    }
  }

  lemma FlatMapOne<T, U>(f: T -> seq<U>, x: T)
    ensures FlatMap(f, [x]) == f(x)
  {
    assert [x][1..] == [];
  }

  lemma FlatMapSnoc<T, U>(f: T -> seq<U>, s: seq<T>, x: T)
    ensures FlatMap(f, s + [x]) == FlatMap(f, s) + f(x)
  {
    FlatMapConcat(f, s, [x]);
    FlatMapOne(f, x);
  }

  lemma Associative<T>(a: seq<T>, b: seq<T>, c: seq<T>)
    ensures a + (b + c) == a + b + c
  {
  }

  /** Splits a projection at index `i`. */
  lemma FlatMapAt<T, U>(f: T -> seq<U>, s: seq<T>, i: nat)
    requires i < |s|
    ensures FlatMap(f, s) == FlatMap(f, s[..i]) + f(s[i]) + FlatMap(f, s[i + 1..])
    ensures FlatMap(f, RemoveAt(s, i)) == FlatMap(f, s[..i]) + FlatMap(f, s[i + 1..])
  {
    assert s == s[..i] + s[i..];
    FlatMapConcat(f, s[..i], s[i..]);
    assert s[i..][1..] == s[i + 1..];
    Associative(FlatMap(f, s[..i]), f(s[i]), FlatMap(f, s[i + 1..]));
    FlatMapConcat(f, s[..i], s[i + 1..]);
  }

  /** Removing an entry takes exactly its own contribution out of the bag. */
  lemma FlatMapRemove<T, U>(f: T -> seq<U>, s: seq<T>, i: nat)
    requires i < |s|
    ensures multiset(FlatMap(f, s)) == multiset(FlatMap(f, RemoveAt(s, i))) + multiset(f(s[i]))
  {
    FlatMapAt(f, s, i);
  }

  lemma {:induction false} FlatMapIn<T, U>(f: T -> seq<U>, s: seq<T>, y: U)
    ensures y in FlatMap(f, s) <==> exists i :: 0 <= i < |s| && y in f(s[i])
  {
    if s != [] {
      FlatMapIn(f, s[1..], y);
      if y in f(s[0]) {
        assert y in f(s[0]);
      } else if y in FlatMap(f, s[1..]) {
        var i :| 0 <= i < |s[1..]| && y in f(s[1..][i]);
        assert y in f(s[i + 1]);
      }
      if i :| 0 <= i < |s| && y in f(s[i]) && i > 0 {
        assert y in f(s[1..][i - 1]);
      }
    }
  }

  /** A projection of one element each keeps the length. */
  lemma {:induction false} FlatMapLength<T, U>(f: T -> seq<U>, s: seq<T>)
    requires forall i :: 0 <= i < |s| ==> |f(s[i])| == 1
    ensures |FlatMap(f, s)| == |s|
  {
    if s != [] {
      FlatMapLength(f, s[1..]);
    }
  }

  /** A projection does not see a change that leaves every contribution alone. */
  lemma {:induction false} FlatMapSame<T, U>(f: T -> seq<U>, s: seq<T>, t: seq<T>)
    requires |s| == |t|
    requires forall i :: 0 <= i < |s| ==> f(s[i]) == f(t[i])
    ensures FlatMap(f, s) == FlatMap(f, t)
  {
    if s != [] {
      FlatMapSame(f, s[1..], t[1..]);
    }
  }

  /** Elements that contribute nothing do not show. */
  lemma {:induction false} FlatMapNothing<T, U>(f: T -> seq<U>, s: seq<T>, more: seq<T>)
    requires forall i :: 0 <= i < |more| ==> f(more[i]) == []
    ensures FlatMap(f, s + more) == FlatMap(f, s)
    decreases |more|
  {
    if more == [] {
      assert s + more == s;
    } else {
      FlatMapSnoc(f, s, more[0]);
      assert s + more == s + [more[0]] + more[1..];
      FlatMapNothing(f, s + [more[0]], more[1..]);
    }
  }

  /** A projection as a bag: what the entries contribute, whatever their order. */
  function Bag<T, U>(f: T -> seq<U>, s: seq<T>): multiset<U> {
    multiset(FlatMap(f, s))
  }

  lemma BagSnoc<T, U>(f: T -> seq<U>, s: seq<T>, x: T)
    ensures Bag(f, s + [x]) == Bag(f, s) + multiset(f(x))
  {
    FlatMapSnoc(f, s, x);
  }

  lemma BagSnoc2<T, U>(f: T -> seq<U>, s: seq<T>, x: T, y: T)
    ensures Bag(f, s + [x, y]) == Bag(f, s) + multiset(f(x)) + multiset(f(y))
  {
    assert s + [x, y] == s + [x] + [y];
    BagSnoc(f, s, x);
    BagSnoc(f, s + [x], y);
  }

  lemma BagRemove<T, U>(f: T -> seq<U>, s: seq<T>, i: nat)
    requires i < |s|
    ensures Bag(f, s) == Bag(f, RemoveAt(s, i)) + multiset(f(s[i]))
  {
    FlatMapRemove(f, s, i);
  }

  lemma BagSame<T, U>(f: T -> seq<U>, s: seq<T>, t: seq<T>)
    requires |s| == |t|
    requires forall i :: 0 <= i < |s| ==> f(s[i]) == f(t[i])
    ensures Bag(f, s) == Bag(f, t)
  {
    FlatMapSame(f, s, t);
  }

  /** Where an element of the bag comes from. */
  lemma BagIn<T, U>(f: T -> seq<U>, s: seq<T>, y: U) returns (i: nat)
    requires y in Bag(f, s)
    ensures i < |s| && y in f(s[i])
  {
    FlatMapIn(f, s, y);
    i :| 0 <= i < |s| && y in f(s[i]);
  }
}
