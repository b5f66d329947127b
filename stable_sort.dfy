/** A stable sort by an integer key, standing for `Array.prototype.sort` with
    the comparator `(a, b) => key(a) - key(b)`. The built-in sort has been
    required to be stable since ECMAScript 2019; `SortUnique` shows that a
    stable sort has only one possible result, so this insertion sort gives
    exactly what the built-in gives. */
module StableSort {

  /** Non-decreasing by key. */
  predicate Sorted<T>(s: seq<T>, key: T -> int)
  {
    forall i, j | 0 <= i < j < |s| :: key(s[i]) <= key(s[j])
  }

  /** The elements of `s` whose key is `v`, in their order in `s`. */
  function KeyFilter<T>(s: seq<T>, key: T -> int, v: int): seq<T>
  {
    if |s| == 0 then []
    else (if key(s[0]) == v then [s[0]] else []) + KeyFilter(s[1..], key, v)
  }

  /** Places `x` before the first element whose key is at least its own. */
  function Insert<T>(x: T, s: seq<T>, key: T -> int): seq<T>
  {
    if |s| == 0 || key(x) <= key(s[0]) then [x] + s
    else [s[0]] + Insert(x, s[1..], key)
  }

  /** Sorts the tail, then inserts the head in front of its equals, so that
      elements with equal keys keep their order. The result is non-decreasing
      by key and a permutation of the input. */
  function Sort<T>(s: seq<T>, key: T -> int): (r: seq<T>)
    ensures Sorted(r, key)
    ensures multiset(r) == multiset(s)
  {
    if |s| == 0 then []
    else
      var sorted := Sort(s[1..], key);
      InsertSorted(s[0], sorted, key);
      InsertPermutes(s[0], sorted, key);
      assert s == [s[0]] + s[1..];
      Insert(s[0], sorted, key)
  }

  lemma {:induction false} InsertPermutes<T>(x: T, s: seq<T>, key: T -> int)
    ensures multiset(Insert(x, s, key)) == multiset{x} + multiset(s)
  {
    if |s| > 0 && key(x) > key(s[0]) {
      InsertPermutes(x, s[1..], key);
      assert s == [s[0]] + s[1..];
    }
  }

  lemma {:induction false} InsertSorted<T>(x: T, s: seq<T>, key: T -> int)
    requires Sorted(s, key)
    ensures Sorted(Insert(x, s, key), key)
  {
    if |s| > 0 && key(x) > key(s[0]) {
      InsertSorted(x, s[1..], key);
      InsertPermutes(x, s[1..], key);
      var r := Insert(x, s, key);
      forall j | 1 <= j < |r| ensures key(s[0]) <= key(r[j]) {
        assert r[j] in multiset(Insert(x, s[1..], key));
        assert r[j] == x || r[j] in s[1..];
      }
    }
  }

  lemma {:induction false} InsertFilter<T>(x: T, s: seq<T>, key: T -> int, v: int)
    ensures KeyFilter(Insert(x, s, key), key, v) ==
            (if key(x) == v then [x] else []) + KeyFilter(s, key, v)
  {
    if |s| == 0 || key(x) <= key(s[0]) {
      assert ([x] + s)[1..] == s;
    } else {
      var rest := Insert(x, s[1..], key);
      InsertFilter(x, s[1..], key, v);
      assert ([s[0]] + rest)[1..] == rest;
      var fx: seq<T> := if key(x) == v then [x] else [];
      var f0: seq<T> := if key(s[0]) == v then [s[0]] else [];
      calc {
        KeyFilter(Insert(x, s, key), key, v);
        f0 + KeyFilter(rest, key, v);
        f0 + (fx + KeyFilter(s[1..], key, v));
        { assert f0 == [] || fx == []; }
        fx + (f0 + KeyFilter(s[1..], key, v));
        fx + KeyFilter(s, key, v);
      }
    }
  }

  /** Stability: the elements sharing any one key come out in input order. */
  lemma {:induction false} SortStable<T>(s: seq<T>, key: T -> int, v: int)
    ensures KeyFilter(Sort(s, key), key, v) == KeyFilter(s, key, v)
  {
    if |s| > 0 {
      SortStable(s[1..], key, v);
      InsertFilter(s[0], Sort(s[1..], key), key, v);
    }
  }

  /** Sorting only looks at the keys of the elements it sorts. */
  lemma {:induction false} SortKeyCongruence<T>(s: seq<T>, key: T -> int, key': T -> int)
    requires forall i | 0 <= i < |s| :: key(s[i]) == key'(s[i])
    ensures Sort(s, key) == Sort(s, key')
  {
    if |s| > 0 {
      SortKeyCongruence(s[1..], key, key');
      InsertCongruence(s[0], Sort(s[1..], key), key, key');
    }
  }

  lemma {:induction false} InsertCongruence<T>(x: T, s: seq<T>, key: T -> int, key': T -> int)
    requires key(x) == key'(x)
    requires forall y | y in multiset(s) :: key(y) == key'(y)
    ensures Insert(x, s, key) == Insert(x, s, key')
  {
    if |s| > 0 {
      assert s[0] in multiset(s);
      forall y | y in multiset(s[1..]) ensures key(y) == key'(y) {
        assert s == [s[0]] + s[1..];
      }
      InsertCongruence(x, s[1..], key, key');
    }
  }

  lemma {:induction false} FilterMember<T>(s: seq<T>, key: T -> int, v: int)
    requires |KeyFilter(s, key, v)| > 0
    ensures exists i :: 0 <= i < |s| && key(s[i]) == v
  {
    if key(s[0]) != v {
      FilterMember(s[1..], key, v);
      var i :| 0 <= i < |s[1..]| && key(s[1..][i]) == v;
      assert key(s[i + 1]) == v;
    }
  }

  /** The first element of a sorted sequence has a key no larger than any key present. */
  lemma SortedHeadIsLeast<T>(s: seq<T>, key: T -> int, v: int)
    requires Sorted(s, key) && |KeyFilter(s, key, v)| > 0
    ensures |s| > 0 && key(s[0]) <= v
  {
    FilterMember(s, key, v);
  }

  lemma FilterTail<T>(s: seq<T>, key: T -> int, v: int)
    requires |s| > 0
    ensures KeyFilter(s[1..], key, v) == KeyFilter(s, key, v)[(if key(s[0]) == v then 1 else 0)..]
  {
  }

  /** Any two sorted sequences that agree on the order of each key's elements
      are equal: a stable sort has one possible result. */
  lemma {:induction false} SortUnique<T>(a: seq<T>, b: seq<T>, key: T -> int)
    requires Sorted(a, key) && Sorted(b, key)
    requires forall v :: KeyFilter(a, key, v) == KeyFilter(b, key, v)
    ensures a == b
  {
    if |a| > 0 {
      assert KeyFilter(b, key, key(a[0])) == KeyFilter(a, key, key(a[0])) != [];
    }
    if |b| > 0 {
      assert KeyFilter(a, key, key(b[0])) == KeyFilter(b, key, key(b[0])) != [];
    }
    if |a| > 0 && |b| > 0 {
      var ka, kb := key(a[0]), key(b[0]);
      assert KeyFilter(a, key, ka) == KeyFilter(b, key, ka);
      assert KeyFilter(a, key, kb) == KeyFilter(b, key, kb);
      SortedHeadIsLeast(b, key, ka);
      SortedHeadIsLeast(a, key, kb);
      assert ka == kb;
      assert KeyFilter(a, key, ka)[0] == a[0] && KeyFilter(b, key, ka)[0] == b[0];
      forall v ensures KeyFilter(a[1..], key, v) == KeyFilter(b[1..], key, v) {
        assert KeyFilter(a, key, v) == KeyFilter(b, key, v);
        FilterTail(a, key, v);
        FilterTail(b, key, v);
      }
      SortUnique(a[1..], b[1..], key);
      assert a == [a[0]] + a[1..] && b == [b[0]] + b[1..];
    }
  }
}
