/**
 * Editing the stored username list: Python's `list.remove` drops the first
 * occurrence of a name, and removing the ticked users applies it once per
 * ticked name, in screen order.
 */
module Roster {

  import opened Names

  predicate NoDup(s: seq<string>)
  {
    forall i, j :: 0 <= i < j < |s| ==> s[i] != s[j]
  }

  lemma NoDupTail(s: seq<string>)
    requires NoDup(s) && s != []
    ensures NoDup(s[1..]) && s[0] !in s[1..]
  {
    forall i, j | 0 <= i < j < |s[1..]|
      ensures s[1..][i] != s[1..][j]
    {
      assert s[1..][i] == s[i + 1] && s[1..][j] == s[j + 1];
    }
    forall j | 0 <= j < |s[1..]|
      ensures s[1..][j] != s[0]
    {
      assert s[1..][j] == s[j + 1];
    }
  }

  /** `s.remove(x)`; Python raises `ValueError` when `x` is absent, so callers show it is present. */
  function RemoveFirst(s: seq<string>, x: string): (r: seq<string>)
    requires x in s
    ensures multiset(r) == multiset(s) - multiset{x}
  {
    if s[0] == x then
      assert s == [s[0]] + s[1..];
      s[1..]
    else
      assert s == [s[0]] + s[1..];
      [s[0]] + RemoveFirst(s[1..], x)
  }

  /** `s.remove(x)` for each `x` of `xs` in turn. */
  function RemoveEach(s: seq<string>, xs: seq<string>): (r: seq<string>)
    requires multiset(xs) <= multiset(s)
    ensures multiset(r) == multiset(s) - multiset(xs)
    ensures |r| == |s| - |xs|
  {
    if xs == [] then s
    else
      var n := |xs| - 1;
      SplitLast(xs);
      var t := RemoveEach(s, xs[..n]);
      assert xs[n] in multiset(t);
      RemoveFirst(t, xs[n])
  }

  lemma SplitLast(xs: seq<string>)
    requires xs != []
    ensures multiset(xs) == multiset(xs[..|xs| - 1]) + multiset{xs[|xs| - 1]}
  {
    assert xs == xs[..|xs| - 1] + [xs[|xs| - 1]];
  }

  /** The elements of `s` not in `drop`, in their order. */
  function Without(s: seq<string>, drop: set<string>): (r: seq<string>)
    ensures Elems(r) == Elems(s) - drop
  {
    if s == [] then []
    else
      assert Elems(s) == {s[0]} + Elems(s[1..]) by {
        assert s == [s[0]] + s[1..];
      }
      if s[0] in drop then Without(s[1..], drop)
      else
        var t := Without(s[1..], drop);
        assert Elems([s[0]] + t) == {s[0]} + Elems(t);
        [s[0]] + t
  }

  lemma {:induction false} WithoutNoDup(s: seq<string>, drop: set<string>)
    requires NoDup(s)
    ensures NoDup(Without(s, drop))
  {
    if s != [] {
      NoDupTail(s);
      WithoutNoDup(s[1..], drop);
      if s[0] !in drop {
        var t := Without(s[1..], drop);
        assert s[0] !in Elems(t);
        forall i, j | 0 <= i < j < |[s[0]] + t|
          ensures ([s[0]] + t)[i] != ([s[0]] + t)[j]
        {
          if i == 0 {
            assert ([s[0]] + t)[j] == t[j - 1] && t[j - 1] in Elems(t);
          } else {
            assert ([s[0]] + t)[i] == t[i - 1] && ([s[0]] + t)[j] == t[j - 1];
          }
        }
      }
    }
  }

  lemma {:induction false} WithoutKeeps(s: seq<string>, drop: set<string>)
    requires forall k :: 0 <= k < |s| ==> s[k] !in drop
    ensures Without(s, drop) == s
  {
    if s != [] {
      WithoutKeeps(s[1..], drop);
      assert s == [s[0]] + s[1..];
    }
  }

  lemma {:induction false} WithoutTwice(s: seq<string>, a: set<string>, b: set<string>)
    ensures Without(Without(s, a), b) == Without(s, a + b)
  {
    if s != [] {
      WithoutTwice(s[1..], a, b);
      if s[0] !in a {
        var t := Without(s[1..], a);
        assert ([s[0]] + t)[0] == s[0] && ([s[0]] + t)[1..] == t;
      }
    }
  }

  /** Without repetitions, `remove` is the same as filtering the one name out. */
  lemma {:induction false} RemoveFirstIsFilter(s: seq<string>, x: string)
    requires NoDup(s) && x in s
    ensures RemoveFirst(s, x) == Without(s, {x})
  {
    NoDupTail(s);
    if s[0] == x {
      forall k | 0 <= k < |s[1..]|
        ensures s[1..][k] !in {x}
      {
        assert s[1..][k] == s[k + 1];
      }
      WithoutKeeps(s[1..], {x});
    } else {
      RemoveFirstIsFilter(s[1..], x);
    }
  }

  lemma {:induction false} NoDupCount(s: seq<string>, y: string)
    requires NoDup(s)
    ensures multiset(s)[y] <= 1
  {
    if s != [] {
      assert s == [s[0]] + s[1..];
      NoDupTail(s);
      NoDupCount(s[1..], y);
    }
  }

  lemma SortedNoDup(s: seq<string>)
    requires StrictlySorted(s)
    ensures NoDup(s)
  {
    forall i, j | 0 <= i < j < |s|
      ensures s[i] != s[j]
    {
      BelowIrreflexive(s[i]);
    }
  }

  /** Distinct names that all occur in `s` can each be removed from it once. */
  lemma DistinctFits(xs: seq<string>, s: seq<string>)
    requires NoDup(xs) && Elems(xs) <= Elems(s)
    ensures multiset(xs) <= multiset(s)
  {
    forall y
      ensures multiset(xs)[y] <= multiset(s)[y]
    {
      NoDupCount(xs, y);
      if y in xs {
        assert y in Elems(xs);
      }
    }
  }

  /**
   * On a list without repetitions, removing each ticked name once leaves the
   * other names in their original order.
   */
  lemma {:induction false} RemoveEachIsFilter(s: seq<string>, xs: seq<string>)
    requires NoDup(s) && multiset(xs) <= multiset(s)
    ensures RemoveEach(s, xs) == Without(s, Elems(xs))
  {
    if xs == [] {
      assert Elems(xs) == {};
      WithoutKeeps(s, {});
    } else {
      var n := |xs| - 1;
      var ys, x := xs[..n], xs[n];
      assert xs == ys + [x];
      assert multiset(ys) <= multiset(s);
      RemoveEachIsFilter(s, ys);
      RemoveLast(s, ys, x);
    }
  }

  lemma RemoveLast(s: seq<string>, ys: seq<string>, x: string)
    requires NoDup(s) && multiset(ys + [x]) <= multiset(s)
    requires RemoveEach(s, ys) == Without(s, Elems(ys))
    ensures RemoveEach(s, ys + [x]) == Without(s, Elems(ys + [x]))
  {
    var r := RemoveEach(s, ys);
    RemoveEachSnoc(s, ys, x);
    WithoutNoDup(s, Elems(ys));
    RemoveFirstIsFilter(r, x);
    WithoutTwice(s, Elems(ys), {x});
    ElemsSnoc(ys, x);
  }

  lemma ElemsSnoc(ys: seq<string>, x: string)
    ensures Elems(ys + [x]) == Elems(ys) + {x}
  {
  }

  lemma RemoveEachSnoc(s: seq<string>, ys: seq<string>, x: string)
    requires multiset(ys + [x]) <= multiset(s)
    ensures multiset(ys) <= multiset(s)
    ensures x in RemoveEach(s, ys)
    ensures RemoveEach(s, ys + [x]) == RemoveFirst(RemoveEach(s, ys), x)
  {
    var xs := ys + [x];
    assert xs[..|xs| - 1] == ys && xs[|xs| - 1] == x;
    assert multiset(xs) == multiset(ys) + multiset{x};
    var r := RemoveEach(s, ys);
    assert multiset(r)[x] >= 1;
  }

  /** `Only` grows at the end as its input does. */
  lemma {:induction false} OnlySnoc(s: seq<string>, x: string, keep: set<string>)
    ensures Only(s + [x], keep) == Only(s, keep) + (if x in keep then [x] else [])
  {
    if s == [] {
      assert [x][1..] == [];
    } else {
      assert (s + [x])[0] == s[0] && (s + [x])[1..] == s[1..] + [x];
      OnlySnoc(s[1..], x, keep);
    }
  }

  lemma {:induction false} OnlyNoDup(s: seq<string>, keep: set<string>)
    requires NoDup(s)
    ensures NoDup(Only(s, keep))
  {
    if s != [] {
      NoDupTail(s);
      OnlyNoDup(s[1..], keep);
      var t := Only(s[1..], keep);
      if s[0] in keep {
        assert s[0] !in Elems(t);
        forall i, j | 0 <= i < j < |[s[0]] + t|
          ensures ([s[0]] + t)[i] != ([s[0]] + t)[j]
        {
          if i == 0 {
            assert ([s[0]] + t)[j] == t[j - 1] && t[j - 1] in Elems(t);
          } else {
            assert ([s[0]] + t)[i] == t[i - 1] && ([s[0]] + t)[j] == t[j - 1];
          }
        }
      }
    }
  }
}
