/** Sequence helpers: concatenation of per-element images and truncation. */
module Seqs {

  /** The concatenation f(s[0]) + f(s[1]) + ... + f(s[|s|-1]), built from the back so that
      extending `s` by one element extends the result by that element's image. */
  function FlatMap<T, U>(f: T -> seq<U>, s: seq<T>): seq<U>
    decreases |s|
  {
    if s == [] then [] else FlatMap(f, s[..|s| - 1]) + f(s[|s| - 1])
  }

  lemma FlatMapSnoc<T, U>(f: T -> seq<U>, s: seq<T>, x: T)
    ensures FlatMap(f, s + [x]) == FlatMap(f, s) + f(x)
  {
    assert (s + [x])[..|s|] == s;
  }

  lemma {:induction false} FlatMapAppend<T, U>(f: T -> seq<U>, s: seq<T>, t: seq<T>)
    ensures FlatMap(f, s + t) == FlatMap(f, s) + FlatMap(f, t)
    decreases |t|
  {
    if t == [] {
      assert s + t == s;
    } else {
      var init, last := t[..|t| - 1], t[|t| - 1];
      assert t == init + [last];
      assert s + t == (s + init) + [last];
      FlatMapAppend(f, s, init);
      FlatMapSnoc(f, s + init, last);
      FlatMapSnoc(f, init, last);
      assert FlatMap(f, s) + FlatMap(f, init) + f(last) == FlatMap(f, s) + (FlatMap(f, init) + f(last));
    }
  }

  /** The image of a prefix is a prefix of the image. */
  lemma FlatMapPrefix<T, U>(f: T -> seq<U>, s: seq<T>, t: seq<T>)
    requires s <= t
    ensures FlatMap(f, s) <= FlatMap(f, t)
  {
    assert t == s + t[|s|..];
    FlatMapAppend(f, s, t[|s|..]);
  }

  /** A property of every element of every image holds of every element of the concatenation. */
  lemma {:induction false} FlatMapForall<T, U>(f: T -> seq<U>, s: seq<T>, p: U -> bool)
    requires forall i :: 0 <= i < |s| ==> forall y :: y in f(s[i]) ==> p(y)
    ensures forall y :: y in FlatMap(f, s) ==> p(y)
    decreases |s|
  {
    if s != [] {
      FlatMapForall(f, s[..|s| - 1], p);
    }
  }

  lemma AppendEmpty<T>(s: seq<T>)
    ensures s + [] == s
  {
  }

  lemma AppendAssoc<T>(s: seq<T>, t: seq<T>, u: seq<T>)
    ensures (s + t) + u == s + (t + u)
  {
  }

  /** Taking the front off `s + t` and adding `u` at the back. */
  lemma PopAppend<T>(s: seq<T>, t: seq<T>, u: seq<T>)
    requires s != []
    ensures s + t != [] && (s + t)[0] == s[0]
    ensures (s + t)[1..] + u == s[1..] + (t + u)
  {
    assert (s + t)[1..] == s[1..] + t;
  }

  /** The first `n` elements of `s`, or all of `s` when it is shorter. */
  function Take<T>(s: seq<T>, n: nat): (r: seq<T>)
    ensures |r| == if |s| <= n then |s| else n
  {
    if |s| <= n then s else s[..n]
  }

  /** Truncating a concatenation: the second part gets whatever room the first left. */
  lemma TakeAppend<T>(s: seq<T>, t: seq<T>, n: nat)
    ensures Take(s + t, n) == Take(s, n) + Take(t, n - |Take(s, n)|)
  {
    if |s| < n {
      var k := n - |s|;
      if |t| > k {
        assert (s + t)[..n] == s + t[..k];
      }
    } else {
      assert (s + t)[..n] == s[..n];
    }
  }

  /** Once a prefix already fills the bound, truncating the whole gives the same. */
  lemma TakeOfPrefix<T>(s: seq<T>, t: seq<T>, n: nat)
    requires s <= t
    requires |Take(s, n)| == n
    ensures Take(s, n) == Take(t, n)
  {
    assert t[..n] == s[..n];
  }
}
