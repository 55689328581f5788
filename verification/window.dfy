/** What a `collections.deque` built with a maximum length holds, as values:
    appending past the maximum length discards elements from the old end, so
    the deque keeps the newest elements, oldest first. */
module Window {

  function Min(a: nat, b: nat): nat {
    if a <= b then a else b
  }

  /** The last `n` elements of `s` (all of `s` when it is shorter). */
  function LastN<T>(s: seq<T>, n: nat): seq<T> {
    if |s| <= n then s else s[|s| - n..]
  }

  /** The contents of a deque with maximum length `n` holding `s`, after `append(x)`. */
  function BoundedAppend<T>(s: seq<T>, x: T, n: nat): seq<T> {
    LastN(s + [x], n)
  }

  /** The contents of a deque with maximum length `n` holding `s`, after
      appending the elements of `xs` one at a time, first element first. */
  function AppendAll<T>(s: seq<T>, xs: seq<T>, n: nat): seq<T>
    decreases |xs|
  {
    if xs == [] then s else AppendAll(BoundedAppend(s, xs[0], n), xs[1..], n)
  }

  /** `LastN` is the suffix of length min(|s|, n). */
  lemma LastNSuffix<T>(s: seq<T>, n: nat)
    ensures |LastN(s, n)| == Min(|s|, n)
    ensures LastN(s, n) == s[|s| - Min(|s|, n)..]
    ensures forall i :: 0 <= i < |LastN(s, n)| ==> LastN(s, n)[i] == s[|s| - Min(|s|, n) + i]
  {
  }

  /** Appending to a deque that is not full adds the element at the new end;
      appending to a full one drops the oldest element and adds the new one at
      the new end; a deque of maximum length 0 stays empty. */
  lemma BoundedAppendCases<T>(s: seq<T>, x: T, n: nat)
    requires |s| <= n
    ensures |s| < n ==> BoundedAppend(s, x, n) == s + [x]
    ensures 0 < |s| == n ==> BoundedAppend(s, x, n) == s[1..] + [x]
    ensures n == 0 ==> BoundedAppend(s, x, n) == []
    ensures |BoundedAppend(s, x, n)| == Min(|s| + 1, n)
  {
    if 0 < |s| == n {
      assert (s + [x])[1..] == s[1..] + [x];
    }
  }

  /** Trimming before an append does not change what the deque keeps. */
  lemma LastNAppend<T>(s: seq<T>, x: T, n: nat)
    ensures BoundedAppend(LastN(s, n), x, n) == LastN(s + [x], n)
  {
    var t := LastN(s, n);
    if |s| > n {
      assert t == s[|s| - n..];
      if n == 0 {
        assert LastN(t + [x], n) == [] == LastN(s + [x], n);
      } else {
        assert |t + [x]| == n + 1;
        calc {
          LastN(t + [x], n);
          (t + [x])[1..];
          { assert (t + [x])[1..] == t[1..] + [x]; }
          t[1..] + [x];
          { assert t[1..] == s[|s| - n + 1..]; }
          s[|s| - n + 1..] + [x];
          { assert (s + [x])[|s| + 1 - n..] == s[|s| - n + 1..] + [x]; }
          LastN(s + [x], n);
        }
      }
    }
  }

  /** After appending `xs` to a deque of maximum length `n` holding `s`, the
      deque holds the last min(|s| + |xs|, n) elements of `s + xs`, in order. */
  lemma {:induction false} AppendAllKeepsNewest<T>(s: seq<T>, xs: seq<T>, n: nat)
    ensures AppendAll(LastN(s, n), xs, n) == LastN(s + xs, n)
    decreases |xs|
  {
    if xs == [] {
      assert s + xs == s;
    } else {
      LastNAppend(s, xs[0], n);
      AppendAllKeepsNewest(s + [xs[0]], xs[1..], n);
      assert (s + [xs[0]]) + xs[1..] == s + xs;
    }
  }

  /** A deque created empty with maximum length `n` holds, after the appends
      `xs`, exactly the last min(|xs|, n) of them in append order. */
  lemma AppendAllFromEmpty<T>(xs: seq<T>, n: nat)
    ensures AppendAll([], xs, n) == LastN(xs, n)
    ensures |AppendAll([], xs, n)| == Min(|xs|, n)
  {
    AppendAllKeepsNewest([], xs, n);
    assert [] + xs == xs;
  }
}
