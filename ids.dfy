/** generateId (ai-notebook/lib/utils.ts, not part of this model) draws a random string; the
    model only relies on it never repeating an id it has already handed out. */
module Ids {
  /** The length of the longest string in `ss`. */
  function MaxLength(ss: seq<string>): (n: nat)
    ensures forall i :: 0 <= i < |ss| ==> |ss[i]| <= n
  {
    if ss == [] then 0
    else
      var m := MaxLength(ss[1..]);
      assert forall i :: 1 <= i < |ss| ==> ss[i] == ss[1..][i - 1];
      if |ss[0]| > m then |ss[0]| else m
  }

  /** No string occurs twice: each one differs from all strings before it. */
  predicate Distinct(ss: seq<string>) {
    ss == [] || (ss[|ss| - 1] !in ss[..|ss| - 1] && Distinct(ss[..|ss| - 1]))
  }

  /** Distinct is the pairwise condition. */
  lemma {:induction false} DistinctIffPairwise(ss: seq<string>)
    ensures Distinct(ss) <==> forall i, j :: 0 <= i < j < |ss| ==> ss[i] != ss[j]
  {
    if ss != [] {
      var init := ss[..|ss| - 1];
      DistinctIffPairwise(init);
      if Distinct(ss) {
        forall i, j | 0 <= i < j < |ss| ensures ss[i] != ss[j] {
          if j == |ss| - 1 {
            assert ss[i] == init[i];
          } else {
            assert ss[i] == init[i] && ss[j] == init[j];
          }
        }
      }
      if forall i, j :: 0 <= i < j < |ss| ==> ss[i] != ss[j] {
        forall i, j | 0 <= i < j < |init| ensures init[i] != init[j] {
          assert init[i] == ss[i] && init[j] == ss[j];
        }
        forall i | 0 <= i < |init| ensures init[i] != ss[|ss| - 1] {
          assert init[i] == ss[i];
        }
      }
    }
  }

  /** A concatenation has no repeats exactly when neither part has and they share no string. */
  lemma DistinctAppend(a: seq<string>, b: seq<string>)
    ensures Distinct(a + b) <==> Distinct(a) && Distinct(b) && forall x :: x in a ==> x !in b
  {
    var ab := a + b;
    DistinctIffPairwise(a);
    DistinctIffPairwise(b);
    DistinctIffPairwise(ab);
    if Distinct(ab) {
      forall i, j | 0 <= i < j < |a| ensures a[i] != a[j] {
        assert ab[i] == a[i] && ab[j] == a[j];
      }
      forall i, j | 0 <= i < j < |b| ensures b[i] != b[j] {
        assert ab[|a| + i] == b[i] && ab[|a| + j] == b[j];
      }
      forall x | x in a ensures x !in b {
        var i :| 0 <= i < |a| && a[i] == x;
        forall j | 0 <= j < |b| ensures b[j] != x {
          assert ab[i] == a[i] && ab[|a| + j] == b[j];
        }
      }
    }
    if Distinct(a) && Distinct(b) && forall x :: x in a ==> x !in b {
      forall i, j | 0 <= i < j < |ab| ensures ab[i] != ab[j] {
        if j < |a| {
          assert ab[i] == a[i] && ab[j] == a[j];
        } else if i >= |a| {
          assert ab[i] == b[i - |a|] && ab[j] == b[j - |a|];
        } else {
          assert ab[i] == a[i] && ab[j] == b[j - |a|];
          assert a[i] in a && b[j - |a|] in b;
        }
      }
    }
  }

  /** Distinct is a property of the multiset of strings: each one occurs at most once. */
  lemma {:induction false} DistinctIffAtMostOnce(ss: seq<string>)
    ensures Distinct(ss) <==> forall x :: multiset(ss)[x] <= 1
  {
    if ss != [] {
      var init := ss[..|ss| - 1];
      var last := ss[|ss| - 1];
      DistinctIffAtMostOnce(init);
      assert ss == init + [last];
      assert multiset(ss) == multiset(init) + multiset{last};
      if !Distinct(ss) {
        if last in init {
          assert multiset(ss)[last] >= 2;
        } else {
          var x :| multiset(init)[x] > 1;
          assert multiset(ss)[x] > 1;
        }
      }
    }
  }

  /** The id source, with every id it has handed out so far. */
  class IdGenerator {
    var issued: seq<string>

    constructor()
      ensures issued == []
    {
      issued := [];
    }

    /** Some string that was never handed out before. */
    method Generate() returns (id: string)
      modifies this
      ensures id !in old(issued)
      ensures issued == old(issued) + [id]
      ensures Distinct(old(issued)) ==> Distinct(issued)
    {
      var longer := seq(MaxLength(issued) + 1, i => 'x');
      assert longer !in issued by {
        forall i | 0 <= i < |issued| ensures issued[i] != longer {
          assert |issued[i]| < |longer|;
        }
      }
      id :| id !in issued;
      assert (issued + [id])[..|issued|] == issued;
      issued := issued + [id];
    }
  }
}
