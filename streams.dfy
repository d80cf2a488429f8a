/**
 * The part of java.util.stream the validator uses: `map` over a sequence, and the
 * fact that mapping a permutation gives a permutation.
 */
module Streams {

  /** Stream.map: f applied to each element, in order. */
  function MapSeq<T, U>(f: T -> U, xs: seq<T>): (r: seq<U>)
    ensures |r| == |xs|
    ensures forall i :: 0 <= i < |xs| ==> r[i] == f(xs[i])
  {
    seq(|xs|, i requires 0 <= i < |xs| => f(xs[i]))
  }

  lemma MapAppend<T, U>(f: T -> U, a: seq<T>, b: seq<T>)
    ensures MapSeq(f, a + b) == MapSeq(f, a) + MapSeq(f, b)
  {
    assert forall i :: 0 <= i < |a + b| ==> MapSeq(f, a + b)[i] == (MapSeq(f, a) + MapSeq(f, b))[i];
  }

  /** Taking out the element at k: the multiset loses that element once. */
  lemma RemoveAt<T>(b: seq<T>, k: nat)
    requires k < |b|
    ensures multiset(b) == multiset(b[..k] + b[k + 1..]) + multiset{b[k]}
  {
    assert b == b[..k] + [b[k]] + b[k + 1..];
  }

  /** Mapping, then taking out the image of position k. */
  lemma MapAround<T, U>(f: T -> U, b: seq<T>, k: nat)
    requires k < |b|
    ensures multiset(MapSeq(f, b)) == multiset(MapSeq(f, b[..k] + b[k + 1..])) + multiset{f(b[k])}
  {
    var rest := b[..k] + b[k + 1..];
    var m, mr := MapSeq(f, b), MapSeq(f, rest);
    var t := mr[..k] + [f(b[k])] + mr[k..];
    forall i | 0 <= i < |m| ensures m[i] == t[i] {
      if i < k {
        assert t[i] == mr[i];
        assert rest[i] == b[i];
      } else if i > k {
        assert t[i] == mr[i - 1];
        assert rest[i - 1] == b[i];
      }
    }
    assert m == t;
    assert mr == mr[..k] + mr[k..];
  }

  lemma Cancel<T>(p: multiset<T>, q: multiset<T>, x: T)
    requires p + multiset{x} == q + multiset{x}
    ensures p == q
  {
    forall y ensures p[y] == q[y] {
      assert (p + multiset{x})[y] == (q + multiset{x})[y];
    }
  }

  /** After matching the first element of a with b[k], the rests are permutations too. */
  lemma PermuteStep<T>(a: seq<T>, b: seq<T>, k: nat)
    requires multiset(a) == multiset(b) && a != [] && k < |b| && b[k] == a[0]
    ensures multiset(a[1..]) == multiset(b[..k] + b[k + 1..])
  {
    RemoveAt(a, 0);
    RemoveAt(b, k);
    assert a[..0] + a[1..] == a[1..];
    Cancel(multiset(a[1..]), multiset(b[..k] + b[k + 1..]), a[0]);
  }

  /** Putting the matched element back on both sides. */
  lemma MapPermuteStep<T, U>(f: T -> U, a: seq<T>, b: seq<T>, k: nat)
    requires a != [] && k < |b| && b[k] == a[0]
    requires multiset(MapSeq(f, a[1..])) == multiset(MapSeq(f, b[..k] + b[k + 1..]))
    ensures multiset(MapSeq(f, a)) == multiset(MapSeq(f, b))
  {
    MapAround(f, a, 0);
    MapAround(f, b, k);
    assert a[..0] + a[1..] == a[1..];
  }

  /** Permuting the input of a map permutes its output. */
  lemma {:induction false} MapPermute<T, U>(f: T -> U, a: seq<T>, b: seq<T>)
    requires multiset(a) == multiset(b)
    ensures multiset(MapSeq(f, a)) == multiset(MapSeq(f, b))
    decreases |a|
  {
    if a == [] {
      assert |b| == |multiset(b)| == 0;
    } else {
      assert a[0] in multiset(b);
      var k :| 0 <= k < |b| && b[k] == a[0];
      PermuteStep(a, b, k);
      MapPermute(f, a[1..], b[..k] + b[k + 1..]);
      MapPermuteStep(f, a, b, k);
    }
  }
}
