// Sorting a finite set by a tuple of strings, as Python sorts ordered dataclasses.
module Ordering {
  import opened Prelude

  ghost predicate StrictTotal<T(!new)>(less: (T, T) -> bool) {
    && (forall x :: !less(x, x))
    && (forall x, y, z :: less(x, y) && less(y, z) ==> less(x, z))
    && (forall x, y :: less(x, y) || x == y || less(y, x))
  }

  // ----- Lexicographic order -----

  predicate Lex<T(==)>(less: (T, T) -> bool, a: seq<T>, b: seq<T>) {
    b != [] && (a == [] || less(a[0], b[0]) || (a[0] == b[0] && Lex(less, a[1..], b[1..])))
  }

  lemma {:induction false} LexIrreflexive<T(!new)>(less: (T, T) -> bool, a: seq<T>)
    requires StrictTotal(less)
    ensures !Lex(less, a, a)
  {
    if a != [] {
      LexIrreflexive(less, a[1..]);
    }
  }

  lemma {:induction false} LexTransitive<T(!new)>(less: (T, T) -> bool, a: seq<T>, b: seq<T>, c: seq<T>)
    requires StrictTotal(less) && Lex(less, a, b) && Lex(less, b, c)
    ensures Lex(less, a, c)
  {
    if a != [] && a[0] == b[0] && b[0] == c[0] {
      assert !less(a[0], a[0]);
      LexTransitive(less, a[1..], b[1..], c[1..]);
    }
  }

  lemma {:induction false} LexConnected<T(!new)>(less: (T, T) -> bool, a: seq<T>, b: seq<T>)
    requires StrictTotal(less)
    ensures Lex(less, a, b) || a == b || Lex(less, b, a)
  {
    if a != [] && b != [] && a[0] == b[0] {
      LexConnected(less, a[1..], b[1..]);
      assert a == [a[0]] + a[1..] && b == [b[0]] + b[1..];
    }
  }

  predicate CharLess(a: char, b: char) {
    a < b
  }

  predicate StringLess(a: string, b: string) {
    Lex(CharLess, a, b)
  }

  predicate KeyLess(a: seq<string>, b: seq<string>) {
    Lex(StringLess, a, b)
  }

  lemma StringLessIsTotal()
    ensures StrictTotal(StringLess)
  {
    forall x { LexIrreflexive(CharLess, x); }
    forall x, y, z | StringLess(x, y) && StringLess(y, z) ensures StringLess(x, z) { LexTransitive(CharLess, x, y, z); }
    forall x, y ensures StringLess(x, y) || x == y || StringLess(y, x) { LexConnected(CharLess, x, y); }
  }

  lemma KeyLessIsTotal()
    ensures StrictTotal(KeyLess)
  {
    StringLessIsTotal();
    forall x { LexIrreflexive(StringLess, x); }
    forall x, y, z | KeyLess(x, y) && KeyLess(y, z) ensures KeyLess(x, z) { LexTransitive(StringLess, x, y, z); }
    forall x, y ensures KeyLess(x, y) || x == y || KeyLess(y, x) { LexConnected(StringLess, x, y); }
  }

  // ----- Sorted sequences -----

  ghost predicate Injective<T(!new)>(key: T -> seq<string>) {
    forall x, y :: key(x) == key(y) ==> x == y
  }

  ghost predicate SortedBy<T>(key: T -> seq<string>, r: seq<T>) {
    forall i, j :: 0 <= i < j < |r| ==> KeyLess(key(r[i]), key(r[j]))
  }

  ghost predicate Lists<T(!new)>(key: T -> seq<string>, s: set<T>, r: seq<T>) {
    SortedBy(key, r) && forall x :: x in r <==> x in s
  }

  lemma {:induction false} GreatestExists<T(!new)>(key: T -> seq<string>, s: set<T>) returns (m: T)
    requires Injective(key) && StrictTotal(KeyLess) && s != {}
    ensures m in s && forall y :: y in s && y != m ==> KeyLess(key(y), key(m))
    decreases s
  {
    m :| m in s;
    if exists y :: y in s && KeyLess(key(m), key(y)) {
      var above := set y | y in s && KeyLess(key(m), key(y));
      var y :| y in s && KeyLess(key(m), key(y));
      assert m !in above && y in above;
      var g := GreatestExists(key, above);
      forall y | y in s && y != g
        ensures KeyLess(key(y), key(g))
      {
        if y !in above {
          assert key(m) == key(y) || KeyLess(key(y), key(m));
        }
      }
      m := g;
    } else {
      forall y | y in s && y != m
        ensures KeyLess(key(y), key(m))
      {
        assert key(m) != key(y);
      }
    }
  }

  lemma {:induction false} ListingExists<T(!new)>(key: T -> seq<string>, s: set<T>) returns (r: seq<T>)
    requires Injective(key)
    ensures Lists(key, s, r)
    decreases s
  {
    r := [];
    if s != {} {
      KeyLessIsTotal();
      var m := GreatestExists(key, s);
      var front := ListingExists(key, s - {m});
      r := front + [m];
    }
  }

  lemma {:induction false} ListingIsUnique<T(!new)>(key: T -> seq<string>, s: set<T>, a: seq<T>, b: seq<T>)
    requires Lists(key, s, a) && Lists(key, s, b)
    ensures a == b
    decreases |a|
  {
    KeyLessIsTotal();
    if a == [] {
      if b != [] {
        var x := SomeListed(key, s, b);
      }
    } else {
      var x := a[|a| - 1];
      assert x in b;
      var y := b[|b| - 1];
      assert y in a;
      SameLast(key, a, b);
      DropLast(key, s, a);
      DropLast(key, s, b);
      ListingIsUnique(key, s - {x}, a[..|a| - 1], b[..|b| - 1]);
      assert a == a[..|a| - 1] + [x] && b == b[..|b| - 1] + [y];
    }
  }

  lemma SomeListed<T(!new)>(key: T -> seq<string>, s: set<T>, r: seq<T>) returns (x: T)
    requires Lists(key, s, r) && r != []
    ensures x in s
  {
    x := r[0];
  }

  lemma SameLast<T(!new)>(key: T -> seq<string>, a: seq<T>, b: seq<T>)
    requires StrictTotal(KeyLess) && SortedBy(key, a) && SortedBy(key, b) && a != [] && b != []
    requires a[|a| - 1] in b && b[|b| - 1] in a
    ensures a[|a| - 1] == b[|b| - 1]
  {
    var x, y := a[|a| - 1], b[|b| - 1];
    var i :| 0 <= i < |b| && b[i] == x;
    var j :| 0 <= j < |a| && a[j] == y;
    assert !(KeyLess(key(x), key(y)) && KeyLess(key(y), key(x))) by {
      assert !KeyLess(key(x), key(x));
    }
  }

  lemma DropLast<T(!new)>(key: T -> seq<string>, s: set<T>, a: seq<T>)
    requires StrictTotal(KeyLess) && Lists(key, s, a) && a != []
    ensures Lists(key, s - {a[|a| - 1]}, a[..|a| - 1])
  {
    var n := |a| - 1;
    assert a == a[..n] + [a[n]];
    forall i | 0 <= i < n
      ensures a[i] != a[n]
    {
      assert KeyLess(key(a[i]), key(a[n])) && !KeyLess(key(a[n]), key(a[n]));
    }
  }

  // `sorted(...)` of the elements of `s`.
  ghost function Sorted<T(!new)>(key: T -> seq<string>, s: set<T>): (r: seq<T>)
    requires Injective(key)
    ensures Lists(key, s, r)
  {
    assert exists r :: Lists(key, s, r) by {
      var r := ListingExists(key, s);
    }
    var r :| Lists(key, s, r);
    r
  }

  method SortSet<T(==, !new)>(key: T -> seq<string>, s: set<T>) returns (r: seq<T>)
    requires Injective(key)
    ensures Lists(key, s, r)
  {
    KeyLessIsTotal();
    r := [];
    var rest := s;
    while rest != {}
      invariant rest <= s && SortedBy(key, r)
      invariant forall x :: x in r <==> x in s - rest
      invariant forall x, y :: x in rest && y in r ==> KeyLess(key(x), key(y))
      decreases rest
    {
      ghost var g := GreatestExists(key, rest);
      var m :| m in rest && forall y :: y in rest && y != m ==> KeyLess(key(y), key(m));
      r, rest := [m] + r, rest - {m};
    }
  }

  lemma KeepStep<T>(order: seq<T>, i: nat, s: set<T>)
    requires i < |order|
    ensures Keep(order[..i + 1], s) == Keep(order[..i], s) + if order[i] in s then [order[i]] else []
  {
    assert order[..i + 1][..i] == order[..i];
  }

  lemma {:induction false} KeepListing<T(!new)>(key: T -> seq<string>, all: set<T>, order: seq<T>, s: set<T>)
    requires Lists(key, all, order)
    ensures Lists(key, all * s, Keep(order, s))
    decreases |order|
  {
    if order != [] {
      KeyLessIsTotal();
      var n := |order| - 1;
      var front := order[..n];
      DropLast(key, all, order);
      KeepListing(key, all - {order[n]}, front, s);
      assert order == front + [order[n]];
      var kept := Keep(front, s);
      forall i | 0 <= i < |kept|
        ensures KeyLess(key(kept[i]), key(order[n]))
      {
        assert kept[i] in kept;
        var j :| 0 <= j < |front| && front[j] == kept[i];
        assert order[j] == front[j];
      }
    }
  }

  lemma KeepIsSorted<T(!new)>(key: T -> seq<string>, all: set<T>, s: set<T>)
    requires Injective(key) && s <= all
    ensures Keep(Sorted(key, all), s) == Sorted(key, s)
  {
    KeepListing(key, all, Sorted(key, all), s);
    assert all * s == s;
    ListingIsUnique(key, s, Keep(Sorted(key, all), s), Sorted(key, s));
  }

  lemma EmptyListing<T(!new)>(key: T -> seq<string>, s: set<T>)
    requires Injective(key)
    ensures Sorted(key, s) == [] <==> s == {}
  {
    if Sorted(key, s) != [] {
      var x := SomeListed(key, s, Sorted(key, s));
    }
    if s != {} {
      var x :| x in s;
      assert x in Sorted(key, s);
    }
  }
}
