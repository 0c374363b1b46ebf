/**
 * `Array.prototype.filter` and `slice`, as the client pages use them to
 * narrow a fetched list: the result keeps exactly the elements the test
 * accepts, in their original order.
 */
module Lists {

  /** `r` is `xs` with some elements left out and the rest in order. */
  ghost predicate SubList<T>(r: seq<T>, xs: seq<T>)
    decreases |xs|
  {
    |r| == 0 || (|xs| > 0 && ((r[0] == xs[0] && SubList(r[1..], xs[1..])) || SubList(r, xs[1..])))
  }

  /** The number of elements of `xs` the test accepts. */
  function Count<T>(xs: seq<T>, keep: T -> bool): (n: nat)
    ensures n <= |xs|
  {
    if |xs| == 0 then 0 else (if keep(xs[0]) then 1 else 0) + Count(xs[1..], keep)
  }

  /** `xs.filter(keep)` */
  function Filter<T>(xs: seq<T>, keep: T -> bool): (r: seq<T>)
    ensures forall i :: 0 <= i < |r| ==> r[i] in xs && keep(r[i])
    ensures forall i :: 0 <= i < |xs| && keep(xs[i]) ==> xs[i] in r
    ensures SubList(r, xs)
    ensures |r| == Count(xs, keep)
  {
    if |xs| == 0 then []
    else
      var rest := Filter(xs[1..], keep);
      if keep(xs[0]) then
        var r := [xs[0]] + rest;
        assert r[1..] == rest;
        assert forall i :: 1 <= i < |xs| ==> xs[i] == xs[1..][i - 1];
        r
      else
        assert forall i :: 1 <= i < |xs| ==> xs[i] == xs[1..][i - 1];
        rest
  }

  /** Tests that agree on every element filter alike. */
  lemma {:induction false} FilterAgree<T>(xs: seq<T>, f: T -> bool, g: T -> bool)
    requires forall i :: 0 <= i < |xs| ==> f(xs[i]) == g(xs[i])
    ensures Filter(xs, f) == Filter(xs, g)
    decreases |xs|
  {
    if |xs| > 0 {
      FilterAgree(xs[1..], f, g);
    }
  }

  /** A test every element passes keeps the whole list. */
  lemma {:induction false} FilterAll<T>(xs: seq<T>, keep: T -> bool)
    requires forall i :: 0 <= i < |xs| ==> keep(xs[i])
    ensures Filter(xs, keep) == xs
    decreases |xs|
  {
    if |xs| > 0 {
      FilterAll(xs[1..], keep);
    }
  }

  /** When every element passing `h` passes exactly one of `f` and `g`, and
      only those pass either, the two filtered lists together are as long as
      the one filtered by `h`. */
  lemma {:induction false} CountSplit<T>(xs: seq<T>, h: T -> bool, f: T -> bool, g: T -> bool)
    requires forall i :: 0 <= i < |xs| ==> (h(xs[i]) <==> f(xs[i]) || g(xs[i]))
    requires forall i :: 0 <= i < |xs| ==> !(f(xs[i]) && g(xs[i]))
    ensures Count(xs, f) + Count(xs, g) == Count(xs, h)
    decreases |xs|
  {
    if |xs| > 0 {
      CountSplit(xs[1..], h, f, g);
    }
  }

  /** Only elements that pass `f` are counted by a test they imply. */
  lemma {:induction false} CountMonotone<T>(xs: seq<T>, f: T -> bool, g: T -> bool)
    requires forall i :: 0 <= i < |xs| ==> f(xs[i]) ==> g(xs[i])
    ensures Count(xs, f) <= Count(xs, g)
    decreases |xs|
  {
    if |xs| > 0 {
      CountMonotone(xs[1..], f, g);
    }
  }

  /** `xs.slice(0, n)` */
  function Take<T>(xs: seq<T>, n: nat): (r: seq<T>)
    ensures |r| == if n < |xs| then n else |xs|
    ensures forall i :: 0 <= i < |r| ==> r[i] == xs[i]
  {
    if n < |xs| then xs[..n] else xs
  }
}
