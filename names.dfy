/**
 * The user list is shown through `sorted(...)` and kept in a dictionary keyed
 * by name, so the listing is the distinct usernames in Python's string order:
 * code point by code point, a proper prefix coming first.
 */
module Names {

  /** Python's `a < b` on `str`. */
  predicate Below(a: string, b: string)
  {
    if a == [] then b != []
    else if b == [] then false
    else if a[0] != b[0] then a[0] < b[0]
    else Below(a[1..], b[1..])
  }

  lemma {:induction false} BelowIrreflexive(a: string)
    ensures !Below(a, a)
  {
    if a != [] {
      BelowIrreflexive(a[1..]);
    }
  }

  lemma {:induction false} BelowTransitive(a: string, b: string, c: string)
    requires Below(a, b) && Below(b, c)
    ensures Below(a, c)
  {
    if a != [] && a[0] == b[0] && b[0] == c[0] {
      BelowTransitive(a[1..], b[1..], c[1..]);
    }
  }

  lemma {:induction false} BelowTotal(a: string, b: string)
    ensures a == b || Below(a, b) || Below(b, a)
  {
    if a != [] && b != [] && a[0] == b[0] {
      BelowTotal(a[1..], b[1..]);
      if a[1..] == b[1..] {
        assert a == [a[0]] + a[1..] && b == [b[0]] + b[1..];
      }
    }
  }

  function Elems(s: seq<string>): set<string>
  {
    set x | x in s
  }

  /** Ascending and without repetitions. */
  predicate StrictlySorted(s: seq<string>)
  {
    forall i, j :: 0 <= i < j < |s| ==> Below(s[i], s[j])
  }

  /** Puts `x` in its place in a strictly sorted listing, unless it is already there. */
  function Insert(x: string, s: seq<string>): (r: seq<string>)
    requires StrictlySorted(s)
    ensures StrictlySorted(r)
    ensures Elems(r) == Elems(s) + {x}
  {
    if s == [] then [x]
    else if x == s[0] then
      assert Elems(s) == Elems(s) + {x};
      s
    else if Below(x, s[0]) then
      InsertFront(x, s);
      [x] + s
    else
      BelowTotal(x, s[0]);
      var t := Insert(x, s[1..]);
      InsertAfter(x, s, t);
      [s[0]] + t
  }

  lemma InsertFront(x: string, s: seq<string>)
    requires StrictlySorted(s) && s != [] && Below(x, s[0])
    ensures StrictlySorted([x] + s) && Elems([x] + s) == Elems(s) + {x}
  {
    forall j | 0 < j < |s|
      ensures Below(x, s[j])
    {
      BelowTransitive(x, s[0], s[j]);
    }
    assert Elems([x] + s) == Elems(s) + {x};
  }

  lemma InsertAfter(x: string, s: seq<string>, t: seq<string>)
    requires StrictlySorted(s) && s != [] && Below(s[0], x)
    requires StrictlySorted(t) && Elems(t) == Elems(s[1..]) + {x}
    ensures StrictlySorted([s[0]] + t) && Elems([s[0]] + t) == Elems(s) + {x}
  {
    assert Elems(s) == {s[0]} + Elems(s[1..]);
    forall y | y in t
      ensures Below(s[0], y)
    {
      assert y in Elems(t);
      if y != x {
        var j :| 0 <= j < |s[1..]| && s[1..][j] == y;
        assert s[j + 1] == y;
      }
    }
    assert Elems([s[0]] + t) == {s[0]} + Elems(t);
  }


  /**
   * The keys `update_user_listbox` gives `user_vars`, in order: the distinct
   * elements of `names`, ascending.
   */
  function Listing(names: seq<string>): (r: seq<string>)
    ensures StrictlySorted(r)
    ensures Elems(r) == Elems(names)
  {
    if names == [] then []
    else
      var r := Insert(names[|names| - 1], Listing(names[..|names| - 1]));
      assert Elems(names) == Elems(names[..|names| - 1]) + {names[|names| - 1]} by {
        assert names == names[..|names| - 1] + [names[|names| - 1]];
      }
      r
  }

  /**
   * A strictly sorted sequence is determined by its elements, so any sorting
   * and de-duplication of the usernames yields the same listing as `Listing`.
   */
  lemma {:induction false} SortedUnique(a: seq<string>, b: seq<string>)
    requires StrictlySorted(a) && StrictlySorted(b)
    requires Elems(a) == Elems(b)
    ensures a == b
  {
    if a != [] && b != [] {
      assert a[0] in Elems(b) && b[0] in Elems(a);
      if a[0] != b[0] {
        var i :| 0 <= i < |b| && b[i] == a[0];
        var j :| 0 <= j < |a| && a[j] == b[0];
        assert i > 0 && j > 0;
        BelowTransitive(a[0], b[0], a[0]);
        BelowIrreflexive(a[0]);
      }
      forall y | y in Elems(a[1..]) ensures y in Elems(b[1..]) {
        var j :| 0 <= j < |a[1..]| && a[1..][j] == y;
        assert a[j + 1] == y && y in Elems(b);
        var i :| 0 <= i < |b| && b[i] == y;
        BelowIrreflexive(a[0]);
        assert i != 0;
        assert b[1..][i - 1] == y;
      }
      forall y | y in Elems(b[1..]) ensures y in Elems(a[1..]) {
        var i :| 0 <= i < |b[1..]| && b[1..][i] == y;
        assert b[i + 1] == y && y in Elems(a);
        var j :| 0 <= j < |a| && a[j] == y;
        BelowIrreflexive(b[0]);
        assert j != 0;
        assert a[1..][j - 1] == y;
      }
      SortedUnique(a[1..], b[1..]);
      assert a == [a[0]] + a[1..] && b == [b[0]] + b[1..];
    } else {
      ElemsEmpty(a);
      ElemsEmpty(b);
    }
  }

  lemma ElemsEmpty(s: seq<string>)
    ensures Elems(s) == {} <==> s == []
  {
    if s != [] {
      assert s[0] in Elems(s);
    }
  }

  /** Keeps the elements of `s` that are in `keep`, in their order. */
  function Only(s: seq<string>, keep: set<string>): (r: seq<string>)
    ensures Elems(r) == Elems(s) * keep
    ensures StrictlySorted(s) ==> StrictlySorted(r)
  {
    if s == [] then []
    else
      var t := Only(s[1..], keep);
      assert Elems(s) == {s[0]} + Elems(s[1..]);
      if s[0] in keep then
        assert Elems([s[0]] + t) == {s[0]} + Elems(t);
        assert StrictlySorted(s) ==> StrictlySorted([s[0]] + t) by {
          if StrictlySorted(s) {
            forall y | y in t ensures Below(s[0], y) {
              assert y in Elems(t);
              var j :| 0 <= j < |s[1..]| && s[1..][j] == y;
              assert s[j + 1] == y;
            }
          }
        }
        [s[0]] + t
      else t
  }
}
