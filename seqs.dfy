/** Order-preserving selection over table rows and arrays, the shape of both `Array.prototype.filter` and a `WHERE` clause. */
module Seqs {
  /** The elements of `s` that satisfy `p`, in their original order. */
  function Filter<T(!new)>(s: seq<T>, p: T -> bool): (r: seq<T>)
    ensures |r| <= |s|
    ensures forall x :: x in r <==> x in s && p(x)
  {
    if s == [] then [] else Filter(s[..|s| - 1], p) + (if p(s[|s| - 1]) then [s[|s| - 1]] else [])
  }

  /** Filtering distributes over concatenation: kept elements keep their relative order. */
  lemma {:induction false} FilterAppend<T(!new)>(a: seq<T>, b: seq<T>, p: T -> bool)
    ensures Filter(a + b, p) == Filter(a, p) + Filter(b, p)
  {
    if b != [] {
      var last := b[|b| - 1];
      assert (a + b)[..|a + b| - 1] == a + b[..|b| - 1];
      FilterAppend(a, b[..|b| - 1], p);
    } else {
      assert a + b == a;
    }
  }

  lemma FilterSingleton<T(!new)>(x: T, p: T -> bool)
    ensures Filter([x], p) == if p(x) then [x] else []
  {
    assert [x][..0] == [];
  }

  /** Filtering a four-element array literal keeps each element on its own merit, in place. */
  lemma FilterFour<T(!new)>(a: T, b: T, c: T, d: T, p: T -> bool)
    ensures Filter([a, b, c, d], p)
            == (if p(a) then [a] else []) + (if p(b) then [b] else []) + (if p(c) then [c] else []) + (if p(d) then [d] else [])
  {
    assert [a, b, c, d] == [a] + [b] + [c] + [d];
    FilterAppend([a] + [b] + [c], [d], p);
    FilterAppend([a] + [b], [c], p);
    FilterAppend([a], [b], p);
    FilterSingleton(a, p);
    FilterSingleton(b, p);
    FilterSingleton(c, p);
    FilterSingleton(d, p);
  }

  /** When every element satisfies `p`, nothing is dropped. */
  lemma {:induction false} FilterAll<T(!new)>(s: seq<T>, p: T -> bool)
    requires forall i :: 0 <= i < |s| ==> p(s[i])
    ensures Filter(s, p) == s
  {
    if s != [] {
      var init := s[..|s| - 1];
      forall i | 0 <= i < |init| ensures p(init[i]) {
        assert init[i] == s[i];
      }
      FilterAll(init, p);
    }
  }

  /** When no element satisfies `p`, nothing is kept. */
  lemma {:induction false} FilterNone<T(!new)>(s: seq<T>, p: T -> bool)
    requires forall i :: 0 <= i < |s| ==> !p(s[i])
    ensures Filter(s, p) == []
  {
    if s != [] {
      var init := s[..|s| - 1];
      forall i | 0 <= i < |init| ensures !p(init[i]) {
        assert init[i] == s[i];
      }
      FilterNone(init, p);
    }
  }

  /** `s` in reverse order. */
  function Reverse<T(!new)>(s: seq<T>): (r: seq<T>)
    ensures |r| == |s|
    ensures forall i :: 0 <= i < |s| ==> r[i] == s[|s| - 1 - i]
    ensures multiset(r) == multiset(s)
    ensures forall x :: x in r <==> x in s
  {
    if s == [] then []
    else
      assert s == s[..|s| - 1] + [s[|s| - 1]];
      [s[|s| - 1]] + Reverse(s[..|s| - 1])
  }
}
