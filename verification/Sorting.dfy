/** Values in ascending order, as Python's `sorted` gives them. */
module Sorting {
  type Order<!T> = (T, T) -> bool

  /** What `sorted` asks of an order; equal keys make it a preorder. */
  ghost predicate Preorder<T(!new)>(below: Order<T>)
  {
    && (forall a, b :: below(a, b) || below(b, a))
    && (forall a, b, c :: below(a, b) && below(b, c) ==> below(a, c))
  }

  predicate Ascending<T>(below: Order<T>, xs: seq<T>)
  {
    forall i, j :: 0 <= i < j < |xs| ==> below(xs[i], xs[j])
  }

  function Insert<T>(below: Order<T>, x: T, xs: seq<T>): seq<T>
  {
    if xs == [] then [x]
    else if below(x, xs[0]) then [x] + xs
    else [xs[0]] + Insert(below, x, xs[1..])
  }

  function Sorted<T>(below: Order<T>, xs: seq<T>): seq<T>
  {
    if xs == [] then [] else Insert(below, xs[0], Sorted(below, xs[1..]))
  }

  lemma {:induction false} InsertAdds<T>(below: Order<T>, x: T, xs: seq<T>)
    ensures multiset(Insert(below, x, xs)) == multiset(xs) + multiset{x}
  {
    if xs != [] {
      assert xs == [xs[0]] + xs[1..];
      InsertAdds(below, x, xs[1..]);
    }
  }

  lemma {:induction false} InsertSorts<T(!new)>(below: Order<T>, x: T, xs: seq<T>)
    requires Preorder(below) && Ascending(below, xs)
    ensures Ascending(below, Insert(below, x, xs))
  {
    if xs == [] {
    } else if below(x, xs[0]) {
      forall y | y in xs ensures below(x, y) {
        assert y != xs[0] ==> below(xs[0], y);
      }
    } else {
      InsertSorts(below, x, xs[1..]);
      InsertAdds(below, x, xs[1..]);
      forall y | y in Insert(below, x, xs[1..]) ensures below(xs[0], y) {
        assert y in multiset(xs[1..]) + multiset{x};
        assert y == x || y in xs[1..];
      }
    }
  }

  /** Sorting rearranges and puts in order. */
  lemma {:induction false} SortedSorts<T(!new)>(below: Order<T>, xs: seq<T>)
    requires Preorder(below)
    ensures Ascending(below, Sorted(below, xs)) && multiset(Sorted(below, xs)) == multiset(xs)
  {
    if xs != [] {
      assert xs == [xs[0]] + xs[1..];
      SortedSorts(below, xs[1..]);
      InsertAdds(below, xs[0], Sorted(below, xs[1..]));
      InsertSorts(below, xs[0], Sorted(below, xs[1..]));
    }
  }

  /** The members of a set in ascending order. */
  method SortedSet<T(!new, ==)>(below: Order<T>, s: set<T>) returns (xs: seq<T>)
    requires Preorder(below)
    ensures Ascending(below, xs) && multiset(xs) == multiset(s)
  {
    xs := [];
    var rest := s;
    while rest != {}
      invariant rest <= s && Ascending(below, xs) && multiset(xs) == multiset(s - rest)
      decreases |rest|
    {
      var x :| x in rest;
      InsertSorts(below, x, xs);
      InsertAdds(below, x, xs);
      assert s - (rest - {x}) == (s - rest) + {x};
      xs := Insert(below, x, xs);
      rest := rest - {x};
    }
    assert s - rest == s;
  }

  // ------------------------------------------------------------------ strings, tuples

  /** Lexicographic order by code point. */
  predicate Below(a: string, b: string)
  {
    a == "" || (b != "" && (a[0] < b[0] || (a[0] == b[0] && Below(a[1..], b[1..]))))
  }

  lemma {:induction false} BelowIsTotal(a: string, b: string)
    ensures Below(a, b) || Below(b, a)
    ensures Below(a, b) && Below(b, a) ==> a == b
  {
    if a != "" && b != "" && a[0] == b[0] {
      BelowIsTotal(a[1..], b[1..]);
      assert a == [a[0]] + a[1..] && b == [b[0]] + b[1..];
    }
  }

  lemma {:induction false} BelowIsTransitive(a: string, b: string, c: string)
    requires Below(a, b) && Below(b, c)
    ensures Below(a, c)
    decreases |a|
  {
    if a != "" && a[0] == b[0] == c[0] {
      BelowIsTransitive(a[1..], b[1..], c[1..]);
    }
  }

  lemma BelowIsPreorder()
    ensures Preorder(Below)
  {
    forall a, b ensures Below(a, b) || Below(b, a) {
      BelowIsTotal(a, b);
    }
    forall a, b, c | Below(a, b) && Below(b, c) ensures Below(a, c) {
      BelowIsTransitive(a, b, c);
    }
  }

  /** The order of tuples of strings. */
  predicate TupleBelow(a: seq<string>, b: seq<string>)
  {
    a == [] || (b != [] && (if a[0] == b[0] then TupleBelow(a[1..], b[1..]) else Below(a[0], b[0])))
  }

  lemma {:induction false} TupleBelowIsTotal(a: seq<string>, b: seq<string>)
    ensures TupleBelow(a, b) || TupleBelow(b, a)
  {
    if a != [] && b != [] {
      BelowIsTotal(a[0], b[0]);
      if a[0] == b[0] {
        TupleBelowIsTotal(a[1..], b[1..]);
      }
    }
  }

  lemma {:induction false} TupleBelowIsTransitive(a: seq<string>, b: seq<string>, c: seq<string>)
    requires TupleBelow(a, b) && TupleBelow(b, c)
    ensures TupleBelow(a, c)
    decreases |a|
  {
    if a != [] {
      if a[0] == b[0] == c[0] {
        TupleBelowIsTransitive(a[1..], b[1..], c[1..]);
      } else if a[0] != b[0] && b[0] != c[0] {
        BelowIsTransitive(a[0], b[0], c[0]);
        BelowIsTotal(a[0], b[0]);
      }
    }
  }
}
