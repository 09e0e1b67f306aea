/** Python's `sorted(xs, key=key, reverse=True)` over string keys, as an
    insertion sort: the result is a permutation of the input, descending by
    key, and strictly descending when the keys are distinct. */
module Sorting {
  import opened Lex

  ghost predicate DescendingBy<T>(xs: seq<T>, key: T -> string)
  {
    forall i, j :: 0 <= i < j < |xs| ==> !Less(key(xs[i]), key(xs[j]))
  }

  ghost predicate StrictlyDescendingBy<T>(xs: seq<T>, key: T -> string)
  {
    forall i, j :: 0 <= i < j < |xs| ==> Less(key(xs[j]), key(xs[i]))
  }

  /** No two positions of `xs` carry the same key. */
  ghost predicate KeysDistinct<T>(xs: seq<T>, key: T -> string)
  {
    forall i, j :: 0 <= i < j < |xs| ==> key(xs[i]) != key(xs[j])
  }

  /** The set of keys carried by the elements of `xs`. */
  ghost function KeySet<T>(xs: seq<T>, key: T -> string): set<string>
  {
    set x | x in xs :: key(x)
  }

  /** Places `x` in front of the first element whose key is not greater than its own. */
  function Insert<T>(x: T, xs: seq<T>, key: T -> string): (r: seq<T>)
    requires DescendingBy(xs, key)
    ensures multiset(r) == multiset(xs) + multiset{x}
    ensures DescendingBy(r, key)
    ensures StrictlyDescendingBy(xs, key) && (forall y :: y in xs ==> key(y) != key(x))
            ==> StrictlyDescendingBy(r, key)
  {
    if xs == [] || !Less(key(x), key(xs[0])) then
      InsertFrontDescending(x, xs, key);
      [x] + xs
    else
      var rest := Insert(x, xs[1..], key);
      InsertBehindHead(x, xs, rest, key);
      [xs[0]] + rest
  }

  lemma InsertBehindHead<T>(x: T, xs: seq<T>, rest: seq<T>, key: T -> string)
    requires DescendingBy(xs, key) && xs != [] && Less(key(x), key(xs[0]))
    requires multiset(rest) == multiset(xs[1..]) + multiset{x}
    requires DescendingBy(rest, key)
    requires StrictlyDescendingBy(xs[1..], key) && (forall y :: y in xs[1..] ==> key(y) != key(x))
             ==> StrictlyDescendingBy(rest, key)
    ensures multiset([xs[0]] + rest) == multiset(xs) + multiset{x}
    ensures DescendingBy([xs[0]] + rest, key)
    ensures StrictlyDescendingBy(xs, key) && (forall y :: y in xs ==> key(y) != key(x))
            ==> StrictlyDescendingBy([xs[0]] + rest, key)
  {
    assert xs == [xs[0]] + xs[1..];
    HeadNotBelowRest(x, xs, rest, key);
    if StrictlyDescendingBy(xs, key) && (forall y :: y in xs ==> key(y) != key(x)) {
      HeadAboveRest(x, xs, rest, key);
    }
  }

  lemma HeadNotBelowRest<T>(x: T, xs: seq<T>, rest: seq<T>, key: T -> string)
    requires DescendingBy(xs, key) && xs != [] && Less(key(x), key(xs[0]))
    requires multiset(rest) == multiset(xs[1..]) + multiset{x}
    requires DescendingBy(rest, key)
    ensures DescendingBy([xs[0]] + rest, key)
  {
    LessAsymmetric(key(x), key(xs[0]));
    var r := [xs[0]] + rest;
    forall y | y in rest ensures !Less(key(xs[0]), key(y)) {
      assert y in multiset(rest);
      if y != x { NotLessFromHead(xs, y, key); }
    }
    forall i, j | 0 <= i < j < |r| ensures !Less(key(r[i]), key(r[j])) {
      assert r[j] == rest[j - 1];
      if i > 0 { assert r[i] == rest[i - 1]; }
    }
  }

  lemma HeadAboveRest<T>(x: T, xs: seq<T>, rest: seq<T>, key: T -> string)
    requires StrictlyDescendingBy(xs, key) && xs != [] && Less(key(x), key(xs[0]))
    requires forall y :: y in xs ==> key(y) != key(x)
    requires multiset(rest) == multiset(xs[1..]) + multiset{x}
    requires StrictlyDescendingBy(xs[1..], key) && (forall y :: y in xs[1..] ==> key(y) != key(x))
             ==> StrictlyDescendingBy(rest, key)
    ensures StrictlyDescendingBy([xs[0]] + rest, key)
  {
    assert StrictlyDescendingBy(xs[1..], key);
    var r := [xs[0]] + rest;
    forall y | y in rest ensures Less(key(y), key(xs[0])) {
      assert y in multiset(rest);
      if y != x {
        var i :| 0 <= i < |xs[1..]| && xs[1..][i] == y;
        assert xs[i + 1] == y;
      }
    }
    forall i, j | 0 <= i < j < |r| ensures Less(key(r[j]), key(r[i])) {
      assert r[j] == rest[j - 1];
      if i > 0 { assert r[i] == rest[i - 1]; }
    }
  }

  lemma InsertFrontDescending<T>(x: T, xs: seq<T>, key: T -> string)
    requires DescendingBy(xs, key)
    requires xs == [] || !Less(key(x), key(xs[0]))
    ensures DescendingBy([x] + xs, key)
    ensures StrictlyDescendingBy(xs, key) && (forall y :: y in xs ==> key(y) != key(x))
            ==> StrictlyDescendingBy([x] + xs, key)
  {
    var r := [x] + xs;
    forall j | 0 < j < |r| ensures !Less(key(x), key(r[j])) {
      if j > 1 { NotLessTransitive(key(x), key(xs[0]), key(xs[j - 1])); }
    }
    if StrictlyDescendingBy(xs, key) && (forall y :: y in xs ==> key(y) != key(x)) {
      forall j | 0 < j < |r| ensures Less(key(r[j]), key(x)) {
        assert r[j] in xs;
        LessTotal(key(x), key(r[j]));
      }
    }
  }

  lemma NotLessFromHead<T>(xs: seq<T>, y: T, key: T -> string)
    requires DescendingBy(xs, key) && xs != [] && y in xs[1..]
    ensures !Less(key(xs[0]), key(y))
  {
    var j :| 0 <= j < |xs[1..]| && xs[1..][j] == y;
    assert xs[j + 1] == y;
  }

  function SortDescending<T>(xs: seq<T>, key: T -> string): (r: seq<T>)
    ensures multiset(r) == multiset(xs)
    ensures DescendingBy(r, key)
    ensures KeysDistinct(xs, key) ==> StrictlyDescendingBy(r, key)
  {
    if xs == [] then []
    else
      var rest := SortDescending(xs[1..], key);
      HeadKeyIsNew(xs, rest, key);
      Insert(xs[0], rest, key)
  }

  lemma HeadKeyIsNew<T>(xs: seq<T>, rest: seq<T>, key: T -> string)
    requires xs != [] && multiset(rest) == multiset(xs[1..])
    ensures multiset(xs) == multiset(rest) + multiset{xs[0]}
    ensures KeysDistinct(xs, key) ==> KeysDistinct(xs[1..], key)
    ensures KeysDistinct(xs, key) ==> forall y :: y in rest ==> key(y) != key(xs[0])
  {
    assert xs == [xs[0]] + xs[1..];
    if KeysDistinct(xs, key) {
      forall y | y in rest ensures key(y) != key(xs[0]) {
        assert y in multiset(rest);
        var j :| 0 <= j < |xs[1..]| && xs[1..][j] == y;
        assert xs[j + 1] == y;
      }
    }
  }

  /** Sorting keeps exactly the keys it was given. */
  lemma SortedKeySet<T>(xs: seq<T>, key: T -> string)
    ensures KeySet(SortDescending(xs, key), key) == KeySet(xs, key)
  {
    SameElementsSameKeySet(SortDescending(xs, key), xs, key);
  }

  lemma SameElementsSameKeySet<T>(a: seq<T>, b: seq<T>, key: T -> string)
    requires multiset(a) == multiset(b)
    ensures KeySet(a, key) == KeySet(b, key)
  {
    forall k | k in KeySet(a, key) ensures k in KeySet(b, key) {
      var x :| x in a && key(x) == k;
      assert x in multiset(a);
    }
    forall k | k in KeySet(b, key) ensures k in KeySet(a, key) {
      var x :| x in b && key(x) == k;
      assert x in multiset(b);
    }
  }

  lemma KeySetEmpty<T>(a: seq<T>, key: T -> string)
    ensures KeySet(a, key) == {} <==> a == []
  {
    if a != [] { assert key(a[0]) in KeySet(a, key); }
  }

  /** Two strictly descending sequences that carry the same set of keys carry
      them in the same order. */
  lemma {:induction false} StrictlyDescendingUnique<T>(a: seq<T>, b: seq<T>, key: T -> string)
    requires StrictlyDescendingBy(a, key) && StrictlyDescendingBy(b, key)
    requires KeySet(a, key) == KeySet(b, key)
    ensures |a| == |b|
    ensures forall i :: 0 <= i < |a| ==> key(a[i]) == key(b[i])
  {
    KeySetEmpty(a, key);
    KeySetEmpty(b, key);
    if a != [] {
      assert key(a[0]) in KeySet(a, key);
      assert key(b[0]) in KeySet(b, key);
      HeadIsGreatest(a, key(b[0]), key);
      HeadIsGreatest(b, key(a[0]), key);
      if key(a[0]) != key(b[0]) {
        LessAsymmetric(key(a[0]), key(b[0]));
      }
      TailKeySet(a, key);
      TailKeySet(b, key);
      StrictlyDescendingUnique(a[1..], b[1..], key);
      forall i | 0 <= i < |a| ensures key(a[i]) == key(b[i]) {
        if i > 0 { assert a[i] == a[1..][i - 1] && b[i] == b[1..][i - 1]; }
      }
    }
  }

  lemma HeadIsGreatest<T>(a: seq<T>, k: string, key: T -> string)
    requires StrictlyDescendingBy(a, key) && a != [] && k in KeySet(a, key)
    ensures k == key(a[0]) || Less(k, key(a[0]))
  {
    var x :| x in a && key(x) == k;
    var i :| 0 <= i < |a| && a[i] == x;
  }

  lemma TailKeySet<T>(a: seq<T>, key: T -> string)
    requires StrictlyDescendingBy(a, key) && a != []
    ensures KeySet(a[1..], key) == KeySet(a, key) - {key(a[0])}
  {
    assert a == [a[0]] + a[1..];
    forall k ensures k in KeySet(a[1..], key) <==> k in KeySet(a, key) - {key(a[0])} {
      if k in KeySet(a[1..], key) {
        var x :| x in a[1..] && key(x) == k;
        var j :| 0 <= j < |a[1..]| && a[1..][j] == x;
        assert a[j + 1] == x;
        LessIrreflexive(key(a[0]));
      }
      if k in KeySet(a, key) - {key(a[0])} {
        var x :| x in a && key(x) == k;
        assert x != a[0];
        assert x in a[1..];
      }
    }
  }
}
