/**
 * `Array.prototype.sort` with a comparator of the form
 * `(a, b) => key(b).localeCompare(key(a))`, as the scan and the item listing
 * use it: newest first by a string key. `localeCompare` is modelled as plain
 * lexicographic order on characters, and the sort is stable, as the
 * ECMAScript specification requires of `sort`.
 */
module Sorting {

  /** `a` is at most `b` in lexicographic order. */
  predicate StrLe(a: string, b: string)
    decreases |a|
  {
    a == [] || (b != [] && (a[0] < b[0] || (a[0] == b[0] && StrLe(a[1..], b[1..]))))
  }

  lemma {:induction false} StrLeReflexive(a: string)
    ensures StrLe(a, a)
    decreases |a|
  {
    if a != [] {
      StrLeReflexive(a[1..]);
    }
  }

  lemma {:induction false} StrLeTotal(a: string, b: string)
    ensures StrLe(a, b) || StrLe(b, a)
    decreases |a|
  {
    if a != [] && b != [] && a[0] == b[0] {
      StrLeTotal(a[1..], b[1..]);
    }
  }

  lemma {:induction false} StrLeTransitive(a: string, b: string, c: string)
    requires StrLe(a, b) && StrLe(b, c)
    ensures StrLe(a, c)
    decreases |a|
  {
    if a != [] && a[0] == b[0] && b[0] == c[0] {
      StrLeTransitive(a[1..], b[1..], c[1..]);
    }
  }

  /** Non-increasing in `key`: every element's key is at least the keys after it. */
  ghost predicate SortedDesc<T>(s: seq<T>, key: T -> string) {
    forall i, j :: 0 <= i < j < |s| ==> StrLe(key(s[j]), key(s[i]))
  }

  /**
   * Inserts `x` into a sequence sorted newest first, in front of the first
   * element whose key is not greater than `x`'s: `x` goes before the elements
   * with an equal key.
   */
  function Insert<T>(x: T, s: seq<T>, key: T -> string): (r: seq<T>)
    ensures |r| == |s| + 1
    decreases |s|
  {
    if s == [] || StrLe(key(s[0]), key(x)) then [x] + s
    else [s[0]] + Insert(x, s[1..], key)
  }

  /** Insertion adds `x` and nothing else. */
  lemma {:induction false} InsertPermutes<T>(x: T, s: seq<T>, key: T -> string)
    ensures multiset(Insert(x, s, key)) == multiset(s) + multiset{x}
    decreases |s|
  {
    if s != [] && !StrLe(key(s[0]), key(x)) {
      InsertPermutes(x, s[1..], key);
      assert s == [s[0]] + s[1..];
    }
  }

  lemma {:induction false} InsertSorted<T>(x: T, s: seq<T>, key: T -> string)
    requires SortedDesc(s, key)
    ensures SortedDesc(Insert(x, s, key), key)
    decreases |s|
  {
    var r := Insert(x, s, key);
    if s == [] || StrLe(key(s[0]), key(x)) {
      forall j | 0 < j < |r|
        ensures StrLe(key(r[j]), key(r[0]))
      {
        if j > 1 {
          StrLeTransitive(key(s[j - 1]), key(s[0]), key(x));
        }
      }
    } else {
      InsertSorted(x, s[1..], key);
      InsertPermutes(x, s[1..], key);
      var t := Insert(x, s[1..], key);
      StrLeTotal(key(s[0]), key(x));
      forall j | 0 <= j < |t|
        ensures StrLe(key(t[j]), key(s[0]))
      {
        assert t[j] in multiset(t);
        if t[j] != x {
          assert t[j] in s[1..];
        }
      }
    }
  }

  /** The stable sort of `s`, newest first by `key` (an insertion sort). */
  function SortDesc<T>(s: seq<T>, key: T -> string): (r: seq<T>)
    ensures SortedDesc(r, key)
    ensures |r| == |s|
    decreases |s|
  {
    if s == [] then []
    else
      var t := SortDesc(s[1..], key);
      InsertSorted(s[0], t, key);
      Insert(s[0], t, key)
  }

  /** The sort only reorders: the same elements, each as often. */
  lemma {:induction false} SortDescPermutes<T>(s: seq<T>, key: T -> string)
    ensures multiset(SortDesc(s, key)) == multiset(s)
    decreases |s|
  {
    if s != [] {
      var t := SortDesc(s[1..], key);
      SortDescPermutes(s[1..], key);
      InsertPermutes(s[0], t, key);
      assert SortDesc(s, key) == Insert(s[0], t, key);
      assert s == [s[0]] + s[1..];
    }
  }

  /** The elements of `s` whose key is `k`, in their order in `s`. */
  function WithKey<T>(s: seq<T>, key: T -> string, k: string): seq<T>
    decreases |s|
  {
    if s == [] then [] else (if key(s[0]) == k then [s[0]] else []) + WithKey(s[1..], key, k)
  }

  lemma {:induction false} InsertStable<T>(x: T, s: seq<T>, key: T -> string, k: string)
    ensures WithKey(Insert(x, s, key), key, k) == WithKey([x] + s, key, k)
    decreases |s|
  {
    if s == [] || StrLe(key(s[0]), key(x)) {
    } else {
      InsertStable(x, s[1..], key, k);
      if key(s[0]) == k && key(x) == k {
        StrLeReflexive(k);
      }
      assert ([x] + s)[1..] == s;
      assert ([s[0]] + Insert(x, s[1..], key))[1..] == Insert(x, s[1..], key);
      assert ([x] + s[1..])[1..] == s[1..];
    }
  }

  /**
   * Stability: for every key, the elements with that key appear in the
   * sorted sequence in the same relative order as in the input.
   */
  lemma {:induction false} SortDescStable<T>(s: seq<T>, key: T -> string, k: string)
    ensures WithKey(SortDesc(s, key), key, k) == WithKey(s, key, k)
    decreases |s|
  {
    if s != [] {
      var t := SortDesc(s[1..], key);
      SortDescStable(s[1..], key, k);
      InsertStable(s[0], t, key, k);
      assert ([s[0]] + t)[1..] == t;
    }
  }

  /** Sorting a sequence that is already newest first changes nothing. */
  lemma {:induction false} SortDescOfSorted<T>(s: seq<T>, key: T -> string)
    requires SortedDesc(s, key)
    ensures SortDesc(s, key) == s
    decreases |s|
  {
    if s != [] {
      SortDescOfSorted(s[1..], key);
      if |s| > 1 {
        assert StrLe(key(s[1]), key(s[0]));
      }
    }
  }

  /** The first element of `WithKey(s, key, k)` is the first element of `s` whose key is `k`. */
  lemma {:induction false} WithKeyHead<T>(s: seq<T>, key: T -> string, k: string)
    requires WithKey(s, key, k) != []
    ensures exists i ::
      && 0 <= i < |s| && s[i] == WithKey(s, key, k)[0] && key(s[i]) == k
      && forall j :: 0 <= j < i ==> key(s[j]) != k
    decreases |s|
  {
    if key(s[0]) != k {
      WithKeyHead(s[1..], key, k);
      var i :| 0 <= i < |s| - 1 && s[1..][i] == WithKey(s[1..], key, k)[0] && key(s[1..][i]) == k
        && forall j :: 0 <= j < i ==> key(s[1..][j]) != k;
      assert s[i + 1] == s[1..][i];
      forall j | 0 <= j < i + 1
        ensures key(s[j]) != k
      {
        if j > 0 {
          assert s[j] == s[1..][j - 1];
        }
      }
    }
  }

  /** No element of `s` has a greater key than the head of the sorted sequence. */
  lemma SortDescHeadIsMax<T>(s: seq<T>, key: T -> string)
    requires s != []
    ensures forall j :: 0 <= j < |s| ==> StrLe(key(s[j]), key(SortDesc(s, key)[0]))
  {
    var r := SortDesc(s, key);
    SortDescPermutes(s, key);
    forall j | 0 <= j < |s|
      ensures StrLe(key(s[j]), key(r[0]))
    {
      assert s[j] in multiset(r);
      var m :| 0 <= m < |r| && r[m] == s[j];
      if m == 0 {
        StrLeReflexive(key(r[0]));
      }
    }
  }

  /**
   * The head of the sorted sequence is the element of `s` with the greatest
   * key, the first such in `s` when several share it.
   */
  lemma SortDescHead<T>(s: seq<T>, key: T -> string)
    requires s != []
    ensures exists i ::
      && 0 <= i < |s| && SortDesc(s, key)[0] == s[i]
      && (forall j :: 0 <= j < |s| ==> StrLe(key(s[j]), key(s[i])))
      && (forall j :: 0 <= j < i ==> key(s[j]) != key(s[i]))
  {
    var r := SortDesc(s, key);
    var kh := key(r[0]);
    SortDescHeadIsMax(s, key);
    assert WithKey(r, key, kh) == [r[0]] + WithKey(r[1..], key, kh);
    SortDescStable(s, key, kh);
    WithKeyHead(s, key, kh);
    var i :| 0 <= i < |s| && s[i] == WithKey(s, key, kh)[0] && key(s[i]) == kh
      && forall j :: 0 <= j < i ==> key(s[j]) != kh;
    assert r[0] == s[i];
  }
}
