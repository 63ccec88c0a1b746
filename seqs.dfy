/** Sequence operations that stand for JavaScript's Array.prototype.filter and friends. */
module Seqs {
  import opened Wrappers

  /** `s.filter(p)`: the elements of `s` satisfying `p`, in their original order. */
  function Filter<T>(p: T -> bool, s: seq<T>): (r: seq<T>)
    ensures |r| <= |s|
    ensures forall x :: x in r ==> x in s && p(x)
    ensures forall x :: x in s && p(x) ==> x in r
  {
    if s == [] then []
    else (if p(s[0]) then [s[0]] else []) + Filter(p, s[1..])
  }

  /** `s.filter(p)` keeps every copy of an element that satisfies `p` and no copy of any other. */
  lemma {:induction false} FilterCounts<T>(p: T -> bool, s: seq<T>, x: T)
    ensures multiset(Filter(p, s))[x] == if p(x) then multiset(s)[x] else 0
    decreases |s|
  {
    if s != [] {
      FilterCounts(p, s[1..], x);
      assert s == [s[0]] + s[1..];
    }
  }

  lemma AppendAssoc<T>(a: seq<T>, b: seq<T>, c: seq<T>)
    ensures (a + b) + c == a + (b + c)
  {
  }

  /** `a` is `b` with some elements dropped, the rest in the same order. */
  predicate IsSubseq<T(==)>(a: seq<T>, b: seq<T>)
    decreases |b|
  {
    if a == [] then true
    else if b == [] then false
    else (a[0] == b[0] && IsSubseq(a[1..], b[1..])) || IsSubseq(a, b[1..])
  }

  /** Putting the same element in front of both sides, or only in front of the larger one,
      keeps the subsequence relation. */
  lemma SubseqPrepend<T>(x: T, a: seq<T>, b: seq<T>, keep: bool)
    requires IsSubseq(a, b)
    ensures IsSubseq((if keep then [x] else []) + a, [x] + b)
  {
    if keep {
      assert ([x] + a)[1..] == a && ([x] + b)[1..] == b;
    } else {
      assert ([] + a) == a && ([x] + b)[1..] == b;
    }
  }

  lemma {:induction false} SubseqRefl<T>(s: seq<T>)
    ensures IsSubseq(s, s)
    decreases |s|
  {
    if s != [] {
      SubseqRefl(s[1..]);
    }
  }

  /** Elements put in front of the larger side keep the subsequence relation. */
  lemma {:induction false} SubseqPrefixed<T>(a: seq<T>, z: seq<T>, b: seq<T>)
    requires IsSubseq(a, b)
    ensures IsSubseq(a, z + b)
    decreases |z|
  {
    if z != [] {
      SubseqPrefixed(a, z[1..], b);
      assert (z + b)[1..] == z[1..] + b;
      assert IsSubseq(a, (z + b)[1..]);
    } else {
      assert z + b == b;
    }
  }

  /** Subsequences of two parts concatenate to a subsequence of the whole. */
  lemma {:induction false} SubseqConcat<T>(a: seq<T>, c: seq<T>, b: seq<T>, d: seq<T>)
    requires IsSubseq(a, c) && IsSubseq(b, d)
    ensures IsSubseq(a + b, c + d)
    decreases |c|
  {
    if a == [] {
      assert a + b == b;
      SubseqPrefixed(b, c, d);
    } else {
      assert (c + d)[1..] == c[1..] + d;
      if a[0] == c[0] && IsSubseq(a[1..], c[1..]) {
        SubseqConcat(a[1..], c[1..], b, d);
        assert (a + b)[1..] == a[1..] + b;
      } else {
        SubseqConcat(a, c[1..], b, d);
      }
    }
  }

  lemma {:induction false} FilterIsSubseq<T>(p: T -> bool, s: seq<T>)
    ensures IsSubseq(Filter(p, s), s)
  {
    if s != [] {
      FilterIsSubseq(p, s[1..]);
      assert Filter(p, s) == (if p(s[0]) then [s[0]] else []) + Filter(p, s[1..]);
      var f := Filter(p, s);
      if p(s[0]) {
        assert f[0] == s[0] && f[1..] == Filter(p, s[1..]);
      } else if f != [] {
        assert f == Filter(p, s[1..]);
        assert IsSubseq(f, s[1..]);
      }
    }
  }

  lemma {:induction false} FilterAppend<T>(p: T -> bool, a: seq<T>, b: seq<T>)
    ensures Filter(p, a + b) == Filter(p, a) + Filter(p, b)
  {
    if a == [] {
      assert a + b == b;
    } else {
      assert (a + b)[0] == a[0];
      assert (a + b)[1..] == a[1..] + b;
      FilterAppend(p, a[1..], b);
    }
  }

  /** Filtering by `p` and by its negation splits `s` into two parts that together hold
      every element exactly as often as `s` does. */
  lemma {:induction false} FilterPartition<T>(p: T -> bool, q: T -> bool, s: seq<T>)
    requires forall x :: q(x) == !p(x)
    ensures multiset(Filter(p, s)) + multiset(Filter(q, s)) == multiset(s)
    ensures |Filter(p, s)| + |Filter(q, s)| == |s|
  {
    if s != [] {
      FilterPartition(p, q, s[1..]);
      assert s == [s[0]] + s[1..];
      assert multiset(s) == multiset{s[0]} + multiset(s[1..]);
    }
  }

  /** A filter that keeps every element changes nothing. */
  lemma {:induction false} FilterKeepsAll<T>(p: T -> bool, s: seq<T>)
    requires forall i :: 0 <= i < |s| ==> p(s[i])
    ensures Filter(p, s) == s
  {
    if s != [] {
      FilterKeepsAll(p, s[1..]);
    }
  }

  /** `s.filter((_, j) => j !== i)`: drops the element at position `i`, if there is one. */
  function RemoveAt<T>(s: seq<T>, i: int): (r: seq<T>)
    ensures 0 <= i < |s| ==> r == s[..i] + s[i + 1..]
    ensures !(0 <= i < |s|) ==> r == s
  {
    if s == [] then []
    else (if i == 0 then [] else [s[0]]) + RemoveAt(s[1..], i - 1)
  }

  /** Filtering by `p` after a weaker filter `q` is filtering by `p` alone. */
  lemma {:induction false} FilterOfFilter<T>(p: T -> bool, q: T -> bool, s: seq<T>)
    requires forall x :: p(x) ==> q(x)
    ensures Filter(p, Filter(q, s)) == Filter(p, s)
  {
    if s != [] {
      FilterOfFilter(p, q, s[1..]);
      var head := if q(s[0]) then [s[0]] else [];
      FilterAppend(p, head, Filter(q, s[1..]));
    }
  }

  /** `s.indexOf(x)`: the first position holding `x`, or -1. */
  function IndexOf<T(==)>(s: seq<T>, x: T): (i: int)
    ensures -1 <= i
    ensures i == -1 <==> x !in s
    ensures 0 <= i ==> i < |s| && s[i] == x && x !in s[..i]
  {
    if s == [] then -1
    else if s[0] == x then 0
    else
      assert s == [s[0]] + s[1..];
      var j := IndexOf(s[1..], x);
      assert j >= 0 ==> s[..j + 1] == [s[0]] + s[1..][..j];
      if j == -1 then -1 else j + 1
  }

  /** The `indexOf` + `splice(index, 1)` idiom: removes the first occurrence of `x`, if any. */
  function RemoveFirst<T(==)>(s: seq<T>, x: T): (r: seq<T>)
  {
    RemoveAt(s, IndexOf(s, x))
  }

  /** Removing a value that was just appended, and occurs nowhere else, restores the sequence. */
  lemma RemoveFirstAfterAppend<T>(s: seq<T>, x: T)
    requires x !in s
    ensures RemoveFirst(s + [x], x) == s
  {
    var t := s + [x];
    assert t[|s|] == x;
    var i := IndexOf(t, x);
    assert i == |s|;
    assert t[..|s|] == s;
  }

  /** Removing the first occurrence of `x` keeps every other element in order. */
  lemma RemoveFirstIsSubseq<T>(s: seq<T>, x: T)
    ensures IsSubseq(RemoveFirst(s, x), s)
    ensures |RemoveFirst(s, x)| == if x in s then |s| - 1 else |s|
  {
    RemoveAtIsSubseq(s, IndexOf(s, x));
  }

  lemma {:induction false} RemoveAtIsSubseq<T>(s: seq<T>, i: int)
    ensures IsSubseq(RemoveAt(s, i), s)
  {
    if s != [] {
      RemoveAtIsSubseq(s[1..], i - 1);
      var r := RemoveAt(s, i);
      if i != 0 {
        assert r[0] == s[0] && r[1..] == RemoveAt(s[1..], i - 1);
      } else if r != [] {
        assert r == RemoveAt(s[1..], -1);
      }
    }
  }

  /** `s.map(x => p(x) ? f(x) : x)`: the elements satisfying `p` replaced, the others kept. */
  function MapWhere<T>(s: seq<T>, p: T -> bool, f: T -> T): (r: seq<T>)
    ensures |r| == |s|
    ensures forall i :: 0 <= i < |s| ==> r[i] == if p(s[i]) then f(s[i]) else s[i]
  {
    if s == [] then [] else [if p(s[0]) then f(s[0]) else s[0]] + MapWhere(s[1..], p, f)
  }

  /** Replacing nothing leaves the sequence as it was. */
  lemma MapWhereNoMatch<T>(s: seq<T>, p: T -> bool, f: T -> T)
    requires forall i :: 0 <= i < |s| ==> !p(s[i])
    ensures MapWhere(s, p, f) == s
  {
  }

  /** `s.find(p)`: the first element satisfying `p`, or `undefined` when none does. */
  function Find<T>(p: T -> bool, s: seq<T>): (r: Option<T>)
    ensures r.None? <==> forall i :: 0 <= i < |s| ==> !p(s[i])
    ensures r.Some? ==> exists i :: 0 <= i < |s| && s[i] == r.value && p(s[i]) && forall k :: 0 <= k < i ==> !p(s[k])
  {
    if s == [] then None
    else if p(s[0]) then Some(s[0])
    else
      var r := Find(p, s[1..]);
      assert forall i :: 1 <= i < |s| ==> s[i] == s[1..][i - 1];
      r
  }

  /** The element `find` returns satisfies `p` and is one of the elements of `s`. */
  lemma FindFound<T>(p: T -> bool, s: seq<T>)
    requires Find(p, s).Some?
    ensures Find(p, s).value in s && p(Find(p, s).value)
  {
  }

  /** When every replaced element becomes `v`, `v` satisfies `p`, and the element `find`
      returned is itself replaced, then after the replacement `find` returns `v`. */
  lemma {:induction false} FindAfterMapWhere<T>(p: T -> bool, q: T -> bool, f: T -> T, s: seq<T>, v: T)
    requires forall x :: q(x) ==> f(x) == v
    requires p(v)
    requires Find(p, s).Some? && q(Find(p, s).value)
    ensures Find(p, MapWhere(s, q, f)) == Some(v)
  {
    var m := MapWhere(s, q, f);
    if !p(s[0]) && !q(s[0]) {
      assert m[1..] == MapWhere(s[1..], q, f);
      FindAfterMapWhere(p, q, f, s[1..], v);
    }
  }

  /** Removing the element just appended restores the sequence. */
  lemma RemoveLastAppended<T>(s: seq<T>, x: T)
    ensures RemoveAt(s + [x], |s|) == s
  {
    assert (s + [x])[..|s|] == s;
  }
}
