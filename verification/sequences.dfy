/** Sequence operations that stand for the Java stream pipeline steps the
    search session uses: `filter`, a stable `sorted` by an integer key, and
    `skip`/`limit`. */
module Sequences {
  import opened JavaLang

  function Min(a: int, b: int): int { if a <= b then a else b }
  function Max(a: int, b: int): int { if a <= b then b else a }

  /** `stream().filter(p)`: the elements of `s` that satisfy `p`, in order. */
  function Filter<T(!new)>(s: seq<T>, p: T -> bool): (r: seq<T>)
    ensures |r| <= |s|
    ensures forall i :: 0 <= i < |r| ==> p(r[i])
    ensures forall x :: multiset(r)[x] == if p(x) then multiset(s)[x] else 0
  {
    if s == [] then []
    else
      assert s == [s[0]] + s[1..];
      (if p(s[0]) then [s[0]] else []) + Filter(s[1..], p)
  }

  /** `s` is in ascending order of `key`. */
  predicate SortedBy<T>(s: seq<T>, key: T -> int) {
    forall i, j :: 0 <= i < j < |s| ==> key(s[i]) <= key(s[j])
  }

  /** The elements of `s` whose key is `k`, in order: a stable sort keeps
      each of these subsequences as it was. */
  function WithKey<T>(s: seq<T>, key: T -> int, k: int): seq<T> {
    if s == [] then [] else (if key(s[0]) == k then [s[0]] else []) + WithKey(s[1..], key, k)
  }

  /** Inserts `x` in front of the first element whose key is not smaller
      than its own, so that `x` stays ahead of the elements that compare
      equal to it. */
  function Insert<T>(x: T, s: seq<T>, key: T -> int): (r: seq<T>)
    ensures |r| == |s| + 1
    ensures multiset(r) == multiset(s) + multiset{x}
  {
    if s == [] || key(x) <= key(s[0]) then [x] + s
    else
      assert s == [s[0]] + s[1..];
      [s[0]] + Insert(x, s[1..], key)
  }

  /** `stream().sorted(Comparator.comparingInt(key))`: Java's sort of a
      sequential stream is stable, and so is this insertion sort. */
  function SortByKey<T>(s: seq<T>, key: T -> int): (r: seq<T>)
    ensures |r| == |s|
    ensures multiset(r) == multiset(s)
  {
    if s == [] then []
    else
      assert s == [s[0]] + s[1..];
      Insert(s[0], SortByKey(s[1..], key), key)
  }

  /** A lower bound on the keys of `x` and of `s` bounds the keys of the
      insertion. */
  lemma {:induction false} InsertKeyBound<T>(x: T, s: seq<T>, key: T -> int, b: int)
    requires b <= key(x)
    requires forall i :: 0 <= i < |s| ==> b <= key(s[i])
    ensures forall j :: 0 <= j < |Insert(x, s, key)| ==> b <= key(Insert(x, s, key)[j])
  {
    if s != [] && key(x) > key(s[0]) {
      InsertKeyBound(x, s[1..], key, b);
    }
  }

  lemma {:induction false} InsertSorted<T>(x: T, s: seq<T>, key: T -> int)
    requires SortedBy(s, key)
    ensures SortedBy(Insert(x, s, key), key)
  {
    if s != [] && key(x) > key(s[0]) {
      InsertSorted(x, s[1..], key);
      InsertKeyBound(x, s[1..], key, key(s[0]));
    }
  }

  lemma {:induction false} SortByKeySorted<T>(s: seq<T>, key: T -> int)
    ensures SortedBy(SortByKey(s, key), key)
  {
    if s != [] {
      SortByKeySorted(s[1..], key);
      InsertSorted(s[0], SortByKey(s[1..], key), key);
    }
  }

  lemma {:induction false} WithKeyAppend<T>(a: seq<T>, b: seq<T>, key: T -> int, k: int)
    ensures WithKey(a + b, key, k) == WithKey(a, key, k) + WithKey(b, key, k)
  {
    if a == [] {
      assert a + b == b;
    } else {
      var head := if key(a[0]) == k then [a[0]] else [];
      assert (a + b)[0] == a[0] && (a + b)[1..] == a[1..] + b;
      assert WithKey(a + b, key, k) == head + WithKey(a[1..] + b, key, k);
      WithKeyAppend(a[1..], b, key, k);
      assert WithKey(a, key, k) == head + WithKey(a[1..], key, k);
    }
  }

  lemma WithKeySingle<T>(a: T, key: T -> int, k: int)
    ensures WithKey([a], key, k) == if key(a) == k then [a] else []
  {
    assert [a][1..] == [];
  }

  lemma {:induction false} InsertStable<T>(x: T, s: seq<T>, key: T -> int, k: int)
    ensures WithKey(Insert(x, s, key), key, k) == WithKey([x] + s, key, k)
  {
    if s == [] || key(x) <= key(s[0]) {
    } else {
      var t := Insert(x, s[1..], key);
      var wx, w0 := WithKey([x], key, k), WithKey([s[0]], key, k);
      WithKeySingle(x, key, k);
      WithKeySingle(s[0], key, k);
      assert w0 + wx == wx + w0;
      assert [x] + s == [x] + ([s[0]] + s[1..]);
      calc {
        WithKey(Insert(x, s, key), key, k);
        { WithKeyAppend([s[0]], t, key, k); }
        w0 + WithKey(t, key, k);
        { InsertStable(x, s[1..], key, k); WithKeyAppend([x], s[1..], key, k); }
        w0 + (wx + WithKey(s[1..], key, k));
        wx + (w0 + WithKey(s[1..], key, k));
        { WithKeyAppend([s[0]], s[1..], key, k); }
        wx + WithKey(s, key, k);
        { WithKeyAppend([x], s, key, k); }
        WithKey([x] + s, key, k);
      }
    }
  }

  /** The sort is stable: for every key, the elements with that key appear
      in the result in the order they had in the input. */
  lemma {:induction false} SortByKeyStable<T>(s: seq<T>, key: T -> int, k: int)
    ensures WithKey(SortByKey(s, key), key, k) == WithKey(s, key, k)
  {
    if s != [] {
      var rest := SortByKey(s[1..], key);
      assert s == [s[0]] + s[1..];
      calc {
        WithKey(SortByKey(s, key), key, k);
        WithKey(Insert(s[0], rest, key), key, k);
        { InsertStable(s[0], rest, key, k); }
        WithKey([s[0]] + rest, key, k);
        { WithKeyAppend([s[0]], rest, key, k); }
        WithKey([s[0]], key, k) + WithKey(rest, key, k);
        { SortByKeyStable(s[1..], key, k); }
        WithKey([s[0]], key, k) + WithKey(s[1..], key, k);
        { WithKeyAppend([s[0]], s[1..], key, k); }
        WithKey(s, key, k);
      }
    }
  }

  /** Sorting a sequence that is already sorted returns it unchanged. */
  lemma {:induction false} SortByKeyOfSorted<T>(s: seq<T>, key: T -> int)
    requires SortedBy(s, key)
    ensures SortByKey(s, key) == s
  {
    if s != [] {
      SortByKeyOfSorted(s[1..], key);
      assert s == [s[0]] + s[1..];
    }
  }

  /** A lower bound on the keys of a sequence bounds the keys of what a
      filter keeps of it. */
  lemma {:induction false} FilterKeyBound<T(!new)>(s: seq<T>, p: T -> bool, key: T -> int, b: int)
    requires forall i :: 0 <= i < |s| ==> b <= key(s[i])
    ensures forall j :: 0 <= j < |Filter(s, p)| ==> b <= key(Filter(s, p)[j])
  {
    if s != [] {
      FilterKeyBound(s[1..], p, key, b);
    }
  }

  /** Filtering keeps the order of what it keeps. */
  lemma {:induction false} FilterSorted<T(!new)>(s: seq<T>, p: T -> bool, key: T -> int)
    requires SortedBy(s, key)
    ensures SortedBy(Filter(s, p), key)
  {
    if s != [] {
      FilterSorted(s[1..], p, key);
      FilterKeyBound(s[1..], p, key, key(s[0]));
    }
  }

  /** Filtering a sequence whose every element passes returns it unchanged. */
  lemma {:induction false} FilterAllPass<T(!new)>(s: seq<T>, p: T -> bool)
    requires forall i :: 0 <= i < |s| ==> p(s[i])
    ensures Filter(s, p) == s
  {
    if s != [] {
      FilterAllPass(s[1..], p);
      assert s == [s[0]] + s[1..];
    }
  }

  /** `stream().skip(skip).limit(take)`: both throw on a negative count;
      otherwise the result is the run of at most `take` elements that
      starts at position `skip`. */
  function SkipLimit<T>(s: seq<T>, skip: int, take: int): (r: Result<seq<T>>)
    ensures r.Ok? <==> skip >= 0 && take >= 0
    ensures r.Throws? ==> r.exception == IllegalArgumentException
    ensures r.Ok? ==> |r.value| == Min(take, Max(0, |s| - skip))
    ensures r.Ok? ==> forall i :: 0 <= i < |r.value| ==> r.value[i] == s[skip + i]
  {
    if skip < 0 || take < 0 then Throws(IllegalArgumentException)
    else
      var rest := if skip < |s| then s[skip..] else [];
      Ok(if take < |rest| then rest[..take] else rest)
  }

  /** Two consecutive pages together are the page that spans both. */
  lemma SkipLimitConsecutive<T>(s: seq<T>, skip: nat, n: nat, m: nat)
    ensures SkipLimit(s, skip, n).value + SkipLimit(s, skip + n, m).value
         == SkipLimit(s, skip, n + m).value
  {
    var a, b, c := SkipLimit(s, skip, n).value, SkipLimit(s, skip + n, m).value, SkipLimit(s, skip, n + m).value;
    assert |a + b| == |c|;
    forall i | 0 <= i < |c| ensures (a + b)[i] == c[i] {
      if i >= |a| {
        assert |a| == n;
      }
    }
  }
}
