/** A stable sort by key, the behaviour of Python's `list.sort` and `sorted`. Descending order
    (`reverse=True`, which Python also keeps stable) is ascending order on the negated key. */
module StableSort {
  import opened Seqs

  /** A sort key: entries with `last` set come after all others, then by ascending `rank`
      (the order of a Python key tuple `(flag, number)`). */
  datatype SortKey = SortKey(last: bool, rank: real)

  predicate KeyLe(a: SortKey, b: SortKey)
  {
    (!a.last && b.last) || (a.last == b.last && a.rank <= b.rank)
  }

  predicate SortedBy<T>(s: seq<T>, key: T -> SortKey)
  {
    forall i, j :: 0 <= i < j < |s| ==> KeyLe(key(s[i]), key(s[j]))
  }

  /** The elements of `s` whose key is `k`, in order. */
  function WithKey<T>(s: seq<T>, key: T -> SortKey, k: SortKey): seq<T>
  {
    if s == [] then [] else (if key(s[0]) == k then [s[0]] else []) + WithKey(s[1..], key, k)
  }

  lemma {:induction false} WithKeyAppend<T>(a: seq<T>, b: seq<T>, key: T -> SortKey, k: SortKey)
    ensures WithKey(a + b, key, k) == WithKey(a, key, k) + WithKey(b, key, k)
  {
    if a == [] {
      assert a + b == b;
    } else {
      assert (a + b)[0] == a[0];
      assert (a + b)[1..] == a[1..] + b;
      WithKeyAppend(a[1..], b, key, k);
    }
  }

  /** The first element with key `k` that passes `p` is the first element passing `r`, where `r`
      is "has key `k` and passes `p`". */
  lemma {:induction false} FirstWhereWithKey<T>(s: seq<T>, key: T -> SortKey, k: SortKey, p: T -> bool, r: T -> bool)
    requires forall x :: r(x) == (key(x) == k && p(x))
    ensures FirstWhere(WithKey(s, key, k), p) == FirstWhere(s, r)
  {
    if s != [] {
      FirstWhereWithKey(s[1..], key, k, p, r);
      if key(s[0]) == k {
        assert WithKey(s, key, k) == [s[0]] + WithKey(s[1..], key, k);
        assert ([s[0]] + WithKey(s[1..], key, k))[1..] == WithKey(s[1..], key, k);
      } else {
        assert WithKey(s, key, k) == WithKey(s[1..], key, k);
      }
    }
  }

  /** Insert `x` before the first element whose key is not smaller. */
  function Insert<T>(x: T, s: seq<T>, key: T -> SortKey): (r: seq<T>)
    ensures |r| == |s| + 1
  {
    if s == [] || KeyLe(key(x), key(s[0])) then [x] + s else [s[0]] + Insert(x, s[1..], key)
  }

  /** Insertion sort. */
  function Sort<T>(s: seq<T>, key: T -> SortKey): (r: seq<T>)
    ensures |r| == |s|
  {
    if s == [] then [] else Insert(s[0], Sort(s[1..], key), key)
  }

  lemma {:induction false} InsertMultiset<T>(x: T, s: seq<T>, key: T -> SortKey)
    ensures multiset(Insert(x, s, key)) == multiset(s) + multiset{x}
  {
    if s != [] && !KeyLe(key(x), key(s[0])) {
      InsertMultiset(x, s[1..], key);
      assert s == [s[0]] + s[1..];
    }
  }

  lemma {:induction false} InsertSorted<T>(x: T, s: seq<T>, key: T -> SortKey)
    requires SortedBy(s, key)
    ensures SortedBy(Insert(x, s, key), key)
  {
    if s != [] {
      if KeyLe(key(x), key(s[0])) {
        var r := [x] + s;
        forall i, j | 0 <= i < j < |r| ensures KeyLe(key(r[i]), key(r[j])) {
          if i == 0 && j > 1 {
            assert KeyLe(key(s[0]), key(s[j - 1]));
          }
        }
      } else {
        InsertSorted(x, s[1..], key);
        InsertMultiset(x, s[1..], key);
        var t := Insert(x, s[1..], key);
        var r := [s[0]] + t;
        forall j | 0 <= j < |t| ensures KeyLe(key(s[0]), key(t[j])) {
          assert t[j] in multiset(t);
          assert t[j] in multiset(s[1..]) || t[j] == x;
          if t[j] != x {
            var m :| 0 <= m < |s[1..]| && s[1..][m] == t[j];
            assert s[m + 1] == t[j];
          }
        }
        forall i, j | 0 <= i < j < |r| ensures KeyLe(key(r[i]), key(r[j])) {
          if i == 0 {
            assert r[j] == t[j - 1];
          } else {
            assert r[i] == t[i - 1] && r[j] == t[j - 1];
          }
        }
      }
    }
  }

  /** Inserting `x` puts it first among the elements with its key and moves nothing else. */
  lemma {:induction false} InsertStable<T>(x: T, s: seq<T>, key: T -> SortKey, k: SortKey)
    ensures WithKey(Insert(x, s, key), key, k) == (if key(x) == k then [x] else []) + WithKey(s, key, k)
  {
    if s == [] || KeyLe(key(x), key(s[0])) {
      WithKeyAppend([x], s, key, k);
    } else {
      InsertStable(x, s[1..], key, k);
      WithKeyAppend([s[0]], Insert(x, s[1..], key), key, k);
      WithKeyAppend([s[0]], s[1..], key, k);
      assert [s[0]] + s[1..] == s;
      assert key(s[0]) != key(x);
    }
  }

  /** The sort orders by key, permutes its input, and keeps the input order among equal keys. */
  lemma {:induction false} SortSpec<T>(s: seq<T>, key: T -> SortKey)
    ensures SortedBy(Sort(s, key), key)
    ensures multiset(Sort(s, key)) == multiset(s)
    ensures forall k :: WithKey(Sort(s, key), key, k) == WithKey(s, key, k)
  {
    if s != [] {
      SortSpec(s[1..], key);
      InsertSorted(s[0], Sort(s[1..], key), key);
      InsertMultiset(s[0], Sort(s[1..], key), key);
      assert s == [s[0]] + s[1..];
      forall k ensures WithKey(Sort(s, key), key, k) == WithKey(s, key, k) {
        InsertStable(s[0], Sort(s[1..], key), key, k);
        WithKeyAppend([s[0]], s[1..], key, k);
      }
    }
  }

  /** In a sorted sequence an element with a strictly smaller key comes earlier. */
  lemma SortedSmallerFirst<T>(s: seq<T>, key: T -> SortKey, i: nat, j: nat)
    requires SortedBy(s, key) && i < |s| && j < |s|
    requires KeyLe(key(s[i]), key(s[j])) && !KeyLe(key(s[j]), key(s[i]))
    ensures i < j
  {
  }
}
