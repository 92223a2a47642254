/** Order-preserving selection of the elements of a sequence that pass a test:
    what a Python loop `for x in xs: if p(x): out.append(x)` builds, and what
    a loop that `continue`s past the elements failing `p` visits. */
module SeqFilter {

  /** The elements of `s` that satisfy `p`, in their order in `s`. Defined from
      the back, one element at a time, the way an appending loop grows it. */
  function Filter<T>(s: seq<T>, p: T -> bool): (r: seq<T>)
    ensures |r| <= |s|
    ensures forall x :: x in r ==> x in s && p(x)
    decreases |s|
  {
    if s == [] then []
    else Filter(s[..|s| - 1], p) + (if p(s[|s| - 1]) then [s[|s| - 1]] else [])
  }

  /** Filter distributes over concatenation: the order of `s` is kept and
      nothing from one part moves into the other. */
  lemma {:induction false} FilterAppend<T>(a: seq<T>, b: seq<T>, p: T -> bool)
    ensures Filter(a + b, p) == Filter(a, p) + Filter(b, p)
    decreases |b|
  {
    if b == [] {
      assert a + b == a;
    } else {
      var b' := b[..|b| - 1];
      assert (a + b)[..|a + b| - 1] == a + b';
      FilterAppend(a, b', p);
    }
  }

  /** Every element of `s` that passes `p` is kept. */
  lemma {:induction false} FilterKeeps<T>(s: seq<T>, p: T -> bool, x: T)
    requires x in s && p(x)
    ensures x in Filter(s, p)
    decreases |s|
  {
    if s[|s| - 1] != x {
      var s' := s[..|s| - 1];
      assert s == s' + [s[|s| - 1]];
      FilterKeeps(s', p, x);
    }
  }
}
