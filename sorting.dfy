/** Python's ordering of strings (code point by code point, a proper prefix
    first) and `sorted(list(s))` of a set of strings. */
module Sorting {
  import opened Common

  /** `a < b` on Python strings. */
  predicate StrLess(a: string, b: string)
    decreases |a|
  {
    if a == [] then b != []
    else if b == [] then false
    else if a[0] != b[0] then a[0] < b[0]
    else StrLess(a[1..], b[1..])
  }

  lemma {:induction false} StrLessIrreflexive(a: string)
    ensures !StrLess(a, a)
    decreases |a|
  {
    if a != [] { StrLessIrreflexive(a[1..]); }
  }

  lemma {:induction false} StrLessTransitive(a: string, b: string, c: string)
    requires StrLess(a, b) && StrLess(b, c)
    ensures StrLess(a, c)
    decreases |a|
  {
    if a != [] && a[0] == b[0] && b[0] == c[0] {
      StrLessTransitive(a[1..], b[1..], c[1..]);
    }
  }

  lemma {:induction false} StrLessTotal(a: string, b: string)
    ensures a == b || StrLess(a, b) || StrLess(b, a)
    decreases |a|
  {
    if a != [] && b != [] && a[0] == b[0] {
      StrLessTotal(a[1..], b[1..]);
      if a[1..] == b[1..] {
        assert a == [a[0]] + a[1..] && b == [b[0]] + b[1..];
      }
    }
  }

  /** Ascending without repeats. */
  predicate StrictlySorted(s: seq<string>) {
    forall i, j :: 0 <= i < j < |s| ==> StrLess(s[i], s[j])
  }

  /** Adds `x` to a strictly sorted list unless it is already there. */
  function Insert(s: seq<string>, x: string): seq<string>
    decreases |s|
  {
    if s == [] then [x]
    else if x == s[0] then s
    else if StrLess(x, s[0]) then [x] + s
    else [s[0]] + Insert(s[1..], x)
  }

  /** Putting a smaller element in front keeps the list strictly sorted. */
  lemma PrependSorted(x: string, s: seq<string>)
    requires StrictlySorted(s) && s != [] && StrLess(x, s[0])
    ensures StrictlySorted([x] + s)
  {
    var r := [x] + s;
    forall i, j | 0 <= i < j < |r| ensures StrLess(r[i], r[j]) {
      if i == 0 && j > 1 { StrLessTransitive(x, s[0], s[j - 1]); }
    }
  }

  /** Putting an element in front of a sorted list of larger ones keeps it sorted. */
  lemma ConsSorted(h: string, t: seq<string>)
    requires StrictlySorted(t)
    requires forall j :: 0 <= j < |t| ==> StrLess(h, t[j])
    ensures StrictlySorted([h] + t)
  {
    var r := [h] + t;
    forall i, j | 0 <= i < j < |r| ensures StrLess(r[i], r[j]) {
      if i > 0 { assert r[i] == t[i - 1] && r[j] == t[j - 1]; }
    }
  }

  lemma {:induction false} InsertSound(s: seq<string>, x: string)
    requires StrictlySorted(s)
    ensures StrictlySorted(Insert(s, x))
    ensures Elems(Insert(s, x)) == Elems(s) + {x}
    decreases |s|
  {
    if s == [] {
    } else if x == s[0] {
    } else if StrLess(x, s[0]) {
      PrependSorted(x, s);
    } else {
      InsertSound(s[1..], x);
      StrLessTotal(x, s[0]);
      InsertAfterHead(s, x, Insert(s[1..], x));
    }
  }

  /** Putting a smaller head in front of the insertion into the tail. */
  lemma InsertAfterHead(s: seq<string>, x: string, t: seq<string>)
    requires StrictlySorted(s) && s != [] && StrLess(s[0], x)
    requires StrictlySorted(t) && Elems(t) == Elems(s[1..]) + {x}
    ensures StrictlySorted([s[0]] + t) && Elems([s[0]] + t) == Elems(s) + {x}
  {
    assert Elems(s) == {s[0]} + Elems(s[1..]) by { assert s == [s[0]] + s[1..]; }
    assert Elems([s[0]] + t) == {s[0]} + Elems(t);
    forall j | 0 <= j < |t| ensures StrLess(s[0], t[j]) {
      assert t[j] in Elems(s[1..]) + {x};
    }
    ConsSorted(s[0], t);
  }

  /** `sorted(set(xs))`: the distinct elements of `xs` in ascending order. */
  function SortedUnique(xs: seq<string>): seq<string> {
    if xs == [] then [] else Insert(SortedUnique(xs[..|xs| - 1]), xs[|xs| - 1])
  }

  lemma {:induction false} SortedUniqueSound(xs: seq<string>)
    ensures StrictlySorted(SortedUnique(xs))
    ensures Elems(SortedUnique(xs)) == Elems(xs)
    decreases |xs|
  {
    if xs != [] {
      var init := xs[..|xs| - 1];
      SortedUniqueSound(init);
      InsertSound(SortedUnique(init), xs[|xs| - 1]);
      assert xs == init + [xs[|xs| - 1]];
      assert Elems(xs) == Elems(init) + {xs[|xs| - 1]};
    }
  }

  /** A strictly sorted list is determined by its elements. */
  lemma {:induction false} StrictlySortedUnique(a: seq<string>, b: seq<string>)
    requires StrictlySorted(a) && StrictlySorted(b)
    requires Elems(a) == Elems(b)
    ensures a == b
    decreases |a|
  {
    if b != [] { assert b[0] in Elems(b); }
    if a == [] {
    } else {
      assert a[0] in Elems(b);
      assert b != [];
      assert b[0] in Elems(a);
      if a[0] != b[0] {
        var i :| 0 <= i < |a| && a[i] == b[0];
        var k :| 0 <= k < |b| && b[k] == a[0];
        assert StrLess(a[0], b[0]);
        assert StrLess(b[0], a[0]);
        StrLessTransitive(a[0], b[0], a[0]);
        StrLessIrreflexive(a[0]);
      }
      forall x ensures x in Elems(a[1..]) <==> x in Elems(b[1..]) {
        if x in Elems(a[1..]) {
          var i :| 1 <= i < |a| && a[i] == x;
          StrLessIrreflexive(x);
          assert x in Elems(b);
          var k :| 0 <= k < |b| && b[k] == x;
          assert k != 0;
        }
        if x in Elems(b[1..]) {
          var k :| 1 <= k < |b| && b[k] == x;
          StrLessIrreflexive(x);
          assert x in Elems(a);
          var i :| 0 <= i < |a| && a[i] == x;
          assert i != 0;
        }
      }
      StrictlySortedUnique(a[1..], b[1..]);
      assert a == [a[0]] + a[1..] && b == [b[0]] + b[1..];
    }
  }

  /** `sorted(list(s))` for a set `s` of strings. */
  method SortedList(s: set<string>) returns (r: seq<string>)
    ensures StrictlySorted(r) && Elems(r) == s
  {
    r := [];
    var rest := s;
    while rest != {}
      invariant rest <= s
      invariant StrictlySorted(r) && Elems(r) == s - rest
      decreases |rest|
    {
      var x :| x in rest;
      InsertSound(r, x);
      r := Insert(r, x);
      rest := rest - {x};
    }
  }

  /** `list(s)`: the elements of a set in the iteration order CPython happens
      to use, which the model leaves unspecified. */
  method ListOf<T>(s: set<T>) returns (r: seq<T>)
    ensures Enumerates(r, s)
  {
    r := [];
    var rest := s;
    while rest != {}
      invariant rest <= s
      invariant NoDuplicates(r) && Elems(r) == s - rest
      decreases |rest|
    {
      var x :| x in rest;
      assert x !in r;
      assert Elems(r + [x]) == Elems(r) + {x};
      r := r + [x];
      rest := rest - {x};
    }
  }
}
