/** Order-preserving subsequences, the shape of every list comprehension with an `if` filter. */
module Seqs {

  /** `a` is obtained from `b` by deleting elements, keeping the order of the rest. */
  predicate Subseq<T(==)>(a: seq<T>, b: seq<T>)
    decreases |b|
  {
    if a == [] then true
    else if b == [] then false
    else if a[|a| - 1] == b[|b| - 1] then Subseq(a[..|a| - 1], b[..|b| - 1])
    else Subseq(a, b[..|b| - 1])
  }

  lemma {:induction false} SubseqRefl<T>(a: seq<T>)
    ensures Subseq(a, a)
    decreases |a|
  {
    if a != [] { SubseqRefl(a[..|a| - 1]); }
  }

  /** Appending to the longer sequence keeps a subsequence a subsequence. */
  lemma {:induction false} SubseqExtend<T>(a: seq<T>, b: seq<T>, x: T)
    requires Subseq(a, b)
    ensures Subseq(a, b + [x])
    decreases |b|, 1
  {
    var b' := b + [x];
    assert b'[..|b'| - 1] == b;
    if a != [] && a[|a| - 1] == x {
      SubseqDropLast(a, b);
    }
  }

  lemma {:induction false} SubseqDropLast<T>(a: seq<T>, b: seq<T>)
    requires a != [] && Subseq(a, b)
    ensures Subseq(a[..|a| - 1], b)
    decreases |b|, 0
  {
    var a', b' := a[..|a| - 1], b[..|b| - 1];
    assert b == b' + [b[|b| - 1]];
    if a[|a| - 1] == b[|b| - 1] {
      SubseqExtend(a', b', b[|b| - 1]);
    } else {
      SubseqDropLast(a, b');
      SubseqExtend(a', b', b[|b| - 1]);
    }
  }

  /** Appending the same element to both sides. */
  lemma SubseqAppendBoth<T>(a: seq<T>, b: seq<T>, x: T)
    requires Subseq(a, b)
    ensures Subseq(a + [x], b + [x])
  {
    assert (a + [x])[..|a|] == a;
    assert (b + [x])[..|b|] == b;
  }

  lemma {:induction false} SubseqTrans<T>(a: seq<T>, b: seq<T>, c: seq<T>)
    requires Subseq(a, b) && Subseq(b, c)
    ensures Subseq(a, c)
    decreases |c|
  {
    if a != [] && b != [] {
      var a', b', c' := a[..|a| - 1], b[..|b| - 1], c[..|c| - 1];
      assert c == c' + [c[|c| - 1]];
      if b[|b| - 1] == c[|c| - 1] {
        if a[|a| - 1] == b[|b| - 1] {
          SubseqTrans(a', b', c');
        } else {
          SubseqTrans(a, b', c');
        }
      } else {
        SubseqTrans(a, b, c');
        SubseqExtend(a, c', c[|c| - 1]);
      }
    }
  }

  /** Every element of a subsequence occurs in the sequence it came from. */
  lemma {:induction false} SubseqMembers<T>(a: seq<T>, b: seq<T>, x: T)
    requires Subseq(a, b) && x in a
    ensures x in b
    decreases |b|
  {
    var b' := b[..|b| - 1];
    assert b == b' + [b[|b| - 1]];
    if a[|a| - 1] == b[|b| - 1] {
      var a' := a[..|a| - 1];
      assert a == a' + [a[|a| - 1]];
      if x != a[|a| - 1] { SubseqMembers(a', b', x); }
    } else {
      SubseqMembers(a, b', x);
    }
  }

  /** A subsequence keeps every property that holds pointwise and pairwise (in order) of its source. */
  lemma {:induction false} SubseqPairwise<T>(a: seq<T>, b: seq<T>, ok: (T, T) -> bool)
    requires Subseq(a, b)
    requires forall i, j :: 0 <= i < j < |b| ==> ok(b[i], b[j])
    ensures forall i, j :: 0 <= i < j < |a| ==> ok(a[i], a[j])
    decreases |b|
  {
    if a != [] {
      var a', b' := a[..|a| - 1], b[..|b| - 1];
      if a[|a| - 1] == b[|b| - 1] {
        SubseqPairwise(a', b', ok);
        forall i, j | 0 <= i < j < |a| ensures ok(a[i], a[j]) {
          if j < |a| - 1 {
            assert a[i] == a'[i] && a[j] == a'[j];
          } else {
            SubseqMembers(a', b', a[i]);
            var k :| 0 <= k < |b'| && b'[k] == a[i];
            assert b[k] == a[i] && b[|b| - 1] == a[j];
          }
        }
      } else {
        SubseqPairwise(a, b', ok);
      }
    }
  }

  /** A comprehension `[x for x in xs if keep(x)]`. */
  function Filter<T>(keep: T -> bool, xs: seq<T>): seq<T>
    decreases |xs|
  {
    if xs == [] then []
    else Filter(keep, xs[..|xs| - 1]) + (if keep(xs[|xs| - 1]) then [xs[|xs| - 1]] else [])
  }

  lemma {:induction false} FilterSubseq<T>(keep: T -> bool, xs: seq<T>)
    ensures Subseq(Filter(keep, xs), xs)
    decreases |xs|
  {
    if xs == [] {
      SubseqRefl(xs);
    } else {
      var init, x := xs[..|xs| - 1], xs[|xs| - 1];
      FilterSubseq(keep, init);
      assert xs == init + [x];
      if keep(x) {
        assert Filter(keep, xs) == Filter(keep, init) + [x];
        SubseqAppendBoth(Filter(keep, init), init, x);
      } else {
        assert Filter(keep, xs) == Filter(keep, init);
        SubseqExtend(Filter(keep, init), init, x);
      }
    }
  }

  /** A comprehension keeps exactly the elements that pass its test. */
  lemma {:induction false} FilterMembers<T>(keep: T -> bool, xs: seq<T>)
    ensures forall x :: x in Filter(keep, xs) <==> x in xs && keep(x)
    decreases |xs|
  {
    if xs != [] {
      var init := xs[..|xs| - 1];
      FilterMembers(keep, init);
      assert xs == init + [xs[|xs| - 1]];
    }
  }
}
