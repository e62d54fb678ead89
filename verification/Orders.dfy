/** What every other module shares: `Option`, the order on strings, and `sorted(set(...))`. */
module Orders {

  datatype Option<+T> = None | Some(value: T)

  type UserId = int

  function Elements<T>(xs: seq<T>): set<T> {
    set x | x in xs
  }

  lemma Pick<T>(s: set<T>) returns (x: T)
    requires s != {}
    ensures x in s
  {
    x :| x in s;
  }

  ghost predicate TotalOrder<T(!new)>(le: (T, T) -> bool) {
    && (forall x :: le(x, x))
    && (forall x, y :: le(x, y) && le(y, x) ==> x == y)
    && (forall x, y, z :: le(x, y) && le(y, z) ==> le(x, z))
    && (forall x, y :: le(x, y) || le(y, x))
  }

  /** Sorted by `le`, each value once: the shape of `sorted(set(xs))`. */
  ghost predicate StrictlySorted<T>(xs: seq<T>, le: (T, T) -> bool) {
    forall i, j :: 0 <= i < j < |xs| ==> le(xs[i], xs[j]) && xs[i] != xs[j]
  }

  function Insert<T(==)>(x: T, xs: seq<T>, le: (T, T) -> bool): seq<T> {
    if xs == [] then [x]
    else if x == xs[0] then xs
    else if le(x, xs[0]) then [x] + xs
    else [xs[0]] + Insert(x, xs[1..], le)
  }

  function SortedSet<T(==)>(xs: seq<T>, le: (T, T) -> bool): seq<T> {
    if xs == [] then [] else Insert(xs[0], SortedSet(xs[1..], le), le)
  }

  lemma {:induction false} InsertAdds<T>(x: T, xs: seq<T>, le: (T, T) -> bool)
    ensures Elements(Insert(x, xs, le)) == Elements(xs) + {x}
  {
    if xs != [] && x != xs[0] && !le(x, xs[0]) {
      InsertAdds(x, xs[1..], le);
      assert xs == [xs[0]] + xs[1..];
      assert Elements(xs) == {xs[0]} + Elements(xs[1..]);
      var rest := Insert(x, xs[1..], le);
      assert Elements([xs[0]] + rest) == {xs[0]} + Elements(rest);
    }
  }

  lemma ConsSorted<T(!new)>(h: T, t: seq<T>, le: (T, T) -> bool)
    requires StrictlySorted(t, le)
    requires forall y | y in t :: le(h, y) && h != y
    ensures StrictlySorted([h] + t, le)
  {
    var s := [h] + t;
    forall i, j | 0 <= i < j < |s| ensures le(s[i], s[j]) && s[i] != s[j] {
      assert s[j] == t[j - 1];
    }
  }

  lemma {:induction false} InsertSorts<T(!new)>(x: T, xs: seq<T>, le: (T, T) -> bool)
    requires TotalOrder(le) && StrictlySorted(xs, le)
    ensures StrictlySorted(Insert(x, xs, le), le)
  {
    if xs == [] || x == xs[0] {
    } else if le(x, xs[0]) {
      forall y | y in xs ensures le(x, y) && x != y {
        assert le(xs[0], y);
      }
      ConsSorted(x, xs, le);
    } else {
      var tail := xs[1..];
      InsertSorts(x, tail, le);
      InsertAdds(x, tail, le);
      var rest := Insert(x, tail, le);
      forall y | y in rest ensures le(xs[0], y) && xs[0] != y {
        assert y in Elements(rest);
        assert y == x || y in tail;
      }
      ConsSorted(xs[0], rest, le);
    }
  }

  /** Sorting a collection keeps its elements, once each and in order. */
  lemma {:induction false} SortedSetSorts<T(!new)>(xs: seq<T>, le: (T, T) -> bool)
    requires TotalOrder(le)
    ensures StrictlySorted(SortedSet(xs, le), le)
    ensures Elements(SortedSet(xs, le)) == Elements(xs)
  {
    if xs != [] {
      SortedSetSorts(xs[1..], le);
      InsertSorts(xs[0], SortedSet(xs[1..], le), le);
      InsertAdds(xs[0], SortedSet(xs[1..], le), le);
      assert xs == [xs[0]] + xs[1..];
    }
  }

  lemma {:induction false} HeadIsLeast<T(!new)>(a: seq<T>, b: seq<T>, le: (T, T) -> bool)
    requires TotalOrder(le) && StrictlySorted(a, le) && StrictlySorted(b, le)
    requires Elements(a) == Elements(b) && a != []
    ensures b != [] && a[0] == b[0]
  {
    assert a[0] in Elements(b);
    assert b[0] in Elements(a);
    var i :| 0 <= i < |b| && b[i] == a[0];
    var j :| 0 <= j < |a| && a[j] == b[0];
  }

  /** What is in `a` past the head they share is in `b` past it. */
  lemma TailsWithin<T(!new)>(a: seq<T>, b: seq<T>, le: (T, T) -> bool, y: T)
    requires StrictlySorted(a, le) && Elements(a) <= Elements(b) && a != [] && b != [] && a[0] == b[0]
    requires y in a[1..]
    ensures y in b[1..]
  {
    var i :| 0 <= i < |a| - 1 && a[1..][i] == y;
    assert a[i + 1] == y && a[0] != a[i + 1];
    assert y in Elements(a) && y in Elements(b);
    var j :| 0 <= j < |b| && b[j] == y;
    assert b[1..][j - 1] == y;
  }

  lemma EmptyTogether<T>(a: seq<T>, b: seq<T>)
    requires Elements(a) == Elements(b)
    ensures a == [] <==> b == []
  {
    if a != [] {
      assert a[0] in Elements(a) && a[0] in Elements(b);
    }
    if b != [] {
      assert b[0] in Elements(b) && b[0] in Elements(a);
    }
  }

  /** A sorted, duplicate-free list is determined by its elements. */
  lemma {:induction false} SortedIsCanonical<T(!new)>(a: seq<T>, b: seq<T>, le: (T, T) -> bool)
    requires TotalOrder(le) && StrictlySorted(a, le) && StrictlySorted(b, le)
    requires Elements(a) == Elements(b)
    ensures a == b
  {
    EmptyTogether(a, b);
    if a != [] {
      HeadIsLeast(a, b, le);
      assert a == [a[0]] + a[1..] && b == [b[0]] + b[1..];
      forall y | y in a[1..] ensures y in b[1..] {
        TailsWithin(a, b, le, y);
      }
      forall y | y in b[1..] ensures y in a[1..] {
        TailsWithin(b, a, le, y);
      }
      assert Elements(a[1..]) == Elements(b[1..]);
      SortedIsCanonical(a[1..], b[1..], le);
    }
  }

  lemma SortedSetDependsOnElements<T(!new)>(a: seq<T>, b: seq<T>, le: (T, T) -> bool)
    requires TotalOrder(le) && Elements(a) == Elements(b)
    ensures SortedSet(a, le) == SortedSet(b, le)
  {
    SortedSetSorts(a, le);
    SortedSetSorts(b, le);
    SortedIsCanonical(SortedSet(a, le), SortedSet(b, le), le);
  }

  predicate IntLe(a: int, b: int) {
    a <= b
  }

  lemma {:induction false} LeastInt(s: set<int>)
    requires s != {}
    ensures exists m :: m in s && forall y | y in s :: m <= y
  {
    var x := Pick(s);
    var rest := s - {x};
    if rest == {} {
      assert s == {x};
    } else {
      LeastInt(rest);
      var n :| n in rest && forall y | y in rest :: n <= y;
      var m := if n < x then n else x;
      forall y | y in s ensures m <= y {
        assert y == x || y in rest;
      }
      assert m in s;
    }
  }

  /** `sorted(s)` of a set of numbers. */
  function SortedInts(s: set<int>): (r: seq<int>)
    ensures Elements(r) == s
  {
    if s == {} then []
    else
      LeastInt(s);
      var m :| m in s && forall y | y in s :: m <= y;
      var rest := SortedInts(s - {m});
      assert Elements([m] + rest) == {m} + Elements(rest);
      [m] + rest
  }

  /** Text in code-point order, as Python compares strings. */
  predicate TextLe(a: string, b: string) {
    a == [] || (b != [] && (a[0] < b[0] || (a[0] == b[0] && TextLe(a[1..], b[1..]))))
  }

  lemma {:induction false} TextLeTrans(a: string, b: string, c: string)
    requires TextLe(a, b) && TextLe(b, c)
    ensures TextLe(a, c)
  {
    if a != [] && a[0] == b[0] == c[0] {
      TextLeTrans(a[1..], b[1..], c[1..]);
    }
  }

  lemma {:induction false} TextLeCompares(a: string, b: string)
    ensures TextLe(a, b) || TextLe(b, a)
    ensures TextLe(a, b) && TextLe(b, a) ==> a == b
  {
    if a != [] && b != [] && a[0] == b[0] {
      TextLeCompares(a[1..], b[1..]);
      assert a == [a[0]] + a[1..] && b == [b[0]] + b[1..];
    }
  }

  lemma TextLeIsTotal()
    ensures TotalOrder(TextLe)
  {
    forall a, b ensures TextLe(a, b) || TextLe(b, a) ensures TextLe(a, b) && TextLe(b, a) ==> a == b {
      TextLeCompares(a, b);
    }
    forall a ensures TextLe(a, a) {
      TextLeCompares(a, a);
    }
    forall a, b, c | TextLe(a, b) && TextLe(b, c) ensures TextLe(a, c) {
      TextLeTrans(a, b, c);
    }
  }

  /** One text comes before another when it is its beginning, or has the smaller character where they first differ. */
  lemma {:induction false} TextLeIff(a: string, b: string)
    ensures TextLe(a, b) <==> a <= b || exists k :: FirstDiffer(a, b, k) && a[k] < b[k]
  {
    if a != [] && b != [] && a[0] == b[0] {
      TextLeIff(a[1..], b[1..]);
      assert a <= b <==> a[1..] <= b[1..];
      if k :| FirstDiffer(a[1..], b[1..], k) && a[1..][k] < b[1..][k] {
        assert a[..k + 1] == [a[0]] + a[1..][..k] == b[..k + 1];
        assert FirstDiffer(a, b, k + 1);
      }
      if k :| FirstDiffer(a, b, k) && a[k] < b[k] {
        assert k > 0 && a[1..][..k - 1] == a[1..k] == b[1..k] == b[1..][..k - 1];
        assert FirstDiffer(a[1..], b[1..], k - 1);
      }
    } else if a != [] && b != [] {
      assert FirstDiffer(a, b, 0);
    }
  }

  ghost predicate FirstDiffer(a: string, b: string, k: int) {
    0 <= k < |a| && k < |b| && a[..k] == b[..k] && a[k] != b[k]
  }
}
