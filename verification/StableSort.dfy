/** A stable sort by an integer key (Go's sort.SliceStable with a Before
    comparison), and the proof that its contract determines it. */
module StableSort {
  import opened Collections

  ghost predicate Sorted<T>(s: seq<T>, key: T -> int) {
    forall i, j :: 0 <= i < j < |s| ==> key(s[i]) <= key(s[j])
  }

  /** Puts x behind every element whose key is not larger. */
  function Insert<T>(s: seq<T>, x: T, key: T -> int): (r: seq<T>)
    ensures |r| == |s| + 1
  {
    if |s| == 0 || key(x) < key(s[0]) then [x] + s else [s[0]] + Insert(s[1..], x, key)
  }

  function Sort<T>(s: seq<T>, key: T -> int): (r: seq<T>)
    ensures |r| == |s|
  {
    if |s| == 0 then [] else Insert(Sort(s[..|s| - 1], key), s[|s| - 1], key)
  }

  lemma SortAppend<T>(s: seq<T>, x: T, key: T -> int)
    ensures Sort(s + [x], key) == Insert(Sort(s, key), x, key)
  {
    assert (s + [x])[..|s + [x]| - 1] == s;
  }

  /** The elements with key k, in their original order. */
  function WithKey<T>(s: seq<T>, key: T -> int, k: int): seq<T> {
    if |s| == 0 then []
    else (if key(s[0]) == k then [s[0]] else []) + WithKey(s[1..], key, k)
  }

  lemma {:induction false} WithKeyAppend<T>(a: seq<T>, b: seq<T>, key: T -> int, k: int)
    ensures WithKey(a + b, key, k) == WithKey(a, key, k) + WithKey(b, key, k)
  {
    if |a| == 0 {
      assert a + b == b;
    } else {
      TailOfConcat(a, b);
      WithKeyAppend(a[1..], b, key, k);
      Associative(if key(a[0]) == k then [a[0]] else [], WithKey(a[1..], key, k), WithKey(b, key, k));
    }
  }

  lemma {:induction false} InsertPermutes<T>(s: seq<T>, x: T, key: T -> int)
    ensures multiset(Insert(s, x, key)) == multiset(s) + multiset{x}
  {
    if |s| == 0 || key(x) < key(s[0]) {
    } else {
      InsertPermutes(s[1..], x, key);
      assert multiset(s) == multiset{s[0]} + multiset(s[1..]) by {
        assert s == [s[0]] + s[1..];
      }
      assert multiset([s[0]] + Insert(s[1..], x, key)) == multiset{s[0]} + multiset(Insert(s[1..], x, key));
    }
  }

  lemma {:induction false} InsertSorts<T>(s: seq<T>, x: T, key: T -> int)
    requires Sorted(s, key)
    ensures Sorted(Insert(s, x, key), key)
  {
    if |s| == 0 || key(x) < key(s[0]) {
    } else {
      var r := Insert(s[1..], x, key);
      InsertSorts(s[1..], x, key);
      InsertPermutes(s[1..], x, key);
      forall i | 0 <= i < |r| ensures key(s[0]) <= key(r[i]) {
        assert r[i] in multiset(r);
        assert r[i] in s[1..] || r[i] == x;
      }
    }
  }

  lemma {:induction false} InsertIsLast<T>(s: seq<T>, x: T, key: T -> int, k: int)
    requires Sorted(s, key)
    ensures WithKey(Insert(s, x, key), key, k) == WithKey(s, key, k) + WithKey([x], key, k)
  {
    if |s| == 0 {
    } else if key(x) < key(s[0]) {
      WithKeyAppend([x], s, key, k);
      if key(x) == k {
        NoneWithKey(s, key, k);
      }
    } else {
      var r := Insert(s[1..], x, key);
      InsertIsLast(s[1..], x, key, k);
      assert ([s[0]] + r)[1..] == r;
    }
  }

  lemma {:induction false} NoneWithKey<T>(s: seq<T>, key: T -> int, k: int)
    requires forall i :: 0 <= i < |s| ==> key(s[i]) != k
    ensures WithKey(s, key, k) == []
  {
    if |s| > 0 {
      NoneWithKey(s[1..], key, k);
    }
  }

  /** Sorted, a permutation, and stable: equal keys keep their order. */
  lemma {:induction false} SortIsStable<T>(s: seq<T>, key: T -> int)
    ensures Sorted(Sort(s, key), key)
    ensures forall k :: WithKey(Sort(s, key), key, k) == WithKey(s, key, k)
    ensures multiset(Sort(s, key)) == multiset(s)
  {
    if |s| > 0 {
      var n := |s| - 1;
      var r := Sort(s[..n], key);
      SortIsStable(s[..n], key);
      InsertSorts(r, s[n], key);
      InsertPermutes(r, s[n], key);
      assert s == s[..n] + [s[n]];
      forall k ensures WithKey(Sort(s, key), key, k) == WithKey(s, key, k) {
        InsertIsLast(r, s[n], key, k);
        WithKeyAppend(s[..n], [s[n]], key, k);
        assert WithKey(r, key, k) == WithKey(s[..n], key, k);
      }
    }
  }

  lemma HeadHasKey<T>(s: seq<T>, key: T -> int)
    ensures |s| > 0 ==> WithKey(s, key, key(s[0])) != []
  {
  }

  lemma NoneBelowHead<T>(s: seq<T>, key: T -> int, k: int)
    requires Sorted(s, key)
    ensures |s| > 0 && k < key(s[0]) ==> WithKey(s, key, k) == []
  {
    if |s| > 0 && k < key(s[0]) {
      NoneWithKey(s, key, k);
    }
  }

  /** Only one sequence is sorted and keeps each key's elements in order, so
      SortIsStable describes Sort completely. */
  lemma {:induction false} StableSortUnique<T>(a: seq<T>, b: seq<T>, key: T -> int)
    requires Sorted(a, key) && Sorted(b, key)
    requires forall k :: WithKey(a, key, k) == WithKey(b, key, k)
    ensures a == b
  {
    HeadHasKey(a, key);
    HeadHasKey(b, key);
    if |a| > 0 {
      var k := key(a[0]);
      assert WithKey(a, key, k) == WithKey(b, key, k);
      NoneBelowHead(b, key, k);
      assert WithKey(a, key, key(b[0])) == WithKey(b, key, key(b[0]));
      NoneBelowHead(a, key, key(b[0]));
      assert key(b[0]) == k;
      assert a[0] == WithKey(a, key, k)[0] == WithKey(b, key, k)[0] == b[0];
      forall j ensures WithKey(a[1..], key, j) == WithKey(b[1..], key, j) {
        assert WithKey(a, key, j) == WithKey(b, key, j);
        if j == k {
          assert WithKey(a[1..], key, j) == WithKey(a, key, j)[1..];
          assert WithKey(b[1..], key, j) == WithKey(b, key, j)[1..];
        } else {
          assert WithKey(a[1..], key, j) == WithKey(a, key, j);
          assert WithKey(b[1..], key, j) == WithKey(b, key, j);
        }
      }
      StableSortUnique(a[1..], b[1..], key);
      assert a == [a[0]] + a[1..];
      assert b == [b[0]] + b[1..];
    }
  }

  lemma SortedIsFixed<T>(s: seq<T>, key: T -> int)
    requires Sorted(s, key)
    ensures Sort(s, key) == s
  {
    SortIsStable(s, key);
    StableSortUnique(Sort(s, key), s, key);
  }

  /** Sorting a prefix first changes nothing. */
  lemma SortPrefixFirst<T>(a: seq<T>, b: seq<T>, key: T -> int)
    ensures Sort(Sort(a, key) + b, key) == Sort(a + b, key)
  {
    SortIsStable(a, key);
    SortIsStable(Sort(a, key) + b, key);
    SortIsStable(a + b, key);
    forall k ensures WithKey(Sort(Sort(a, key) + b, key), key, k) == WithKey(Sort(a + b, key), key, k) {
      WithKeyAppend(Sort(a, key), b, key, k);
      WithKeyAppend(a, b, key, k);
      assert WithKey(Sort(a, key), key, k) == WithKey(a, key, k);
    }
    StableSortUnique(Sort(Sort(a, key) + b, key), Sort(a + b, key), key);
  }
}
