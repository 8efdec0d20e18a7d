/** Generic sequence operations behind the list comprehensions and append loops of the source. */
module Seqs {
  import opened Wrappers

  /** `[x for x in s if p(x)]` */
  function Filter<T>(s: seq<T>, p: T -> bool): (r: seq<T>)
    ensures |r| <= |s|
    ensures forall x :: x in r ==> x in s && p(x)
  {
    if s == [] then [] else (if p(s[0]) then [s[0]] else []) + Filter(s[1..], p)
  }

  /** Keep the elements `f` maps to `Some`, mapped, in order. */
  function FilterMap<A, B>(s: seq<A>, f: A -> Option<B>): (r: seq<B>)
    ensures |r| <= |s|
  {
    if s == [] then [] else (if f(s[0]).Some? then [f(s[0]).value] else []) + FilterMap(s[1..], f)
  }

  /** The first element satisfying `p`. */
  function FirstWhere<T>(s: seq<T>, p: T -> bool): Option<T>
  {
    if s == [] then None else if p(s[0]) then Some(s[0]) else FirstWhere(s[1..], p)
  }

  /** Number of occurrences of `x`. */
  function Count<T(==)>(s: seq<T>, x: T): nat
  {
    if s == [] then 0 else (if s[0] == x then 1 else 0) + Count(s[1..], x)
  }

  predicate NoDuplicates<T(==)>(s: seq<T>)
  {
    forall i, j :: 0 <= i < j < |s| ==> s[i] != s[j]
  }

  /** Append `x` unless already present: the `if x not in xs: xs.append(x)` idiom. */
  function AddNew<T(==)>(acc: seq<T>, x: T): seq<T>
  {
    if x in acc then acc else acc + [x]
  }

  /** `for x in xs: if x not in acc: acc.append(x)` */
  function AddAll<T(==)>(acc: seq<T>, xs: seq<T>): seq<T>
  {
    if xs == [] then acc else AddNew(AddAll(acc, xs[..|xs| - 1]), xs[|xs| - 1])
  }

  function Flatten<T>(ss: seq<seq<T>>): seq<T>
  {
    if ss == [] then [] else ss[0] + Flatten(ss[1..])
  }

  function Repeat<T>(x: T, n: nat): (r: seq<T>)
    ensures |r| == n && forall i :: 0 <= i < n ==> r[i] == x
  {
    seq(n, _ => x)
  }

  lemma AppendAssoc<T>(a: seq<T>, b: seq<T>, c: seq<T>)
    ensures a + b + c == a + (b + c)
  {
  }

  /** Some element of a non-empty sequence satisfies `p` exactly when one before the last does
      or the last does. */
  /** Growing the prefix of `b` appended to `a` by one element. */
  lemma AppendPrefixStep<T>(a: seq<T>, b: seq<T>, j: nat)
    requires j < |b|
    ensures a + b[..j + 1] == (a + b[..j]) + [b[j]]
  {
    assert b[..j + 1] == b[..j] + [b[j]];
  }

  lemma ExistsSplit<T>(s: seq<T>, init: seq<T>, p: T -> bool)
    requires s != [] && init == s[..|s| - 1]
    ensures (exists k :: 0 <= k < |s| && p(s[k])) <==> (exists k :: 0 <= k < |init| && p(init[k])) || p(s[|s| - 1])
  {
    if exists k :: 0 <= k < |s| && p(s[k]) {
      var k :| 0 <= k < |s| && p(s[k]);
      if k < |init| {
        assert init[k] == s[k];
      }
    }
    if exists k :: 0 <= k < |init| && p(init[k]) {
      var k :| 0 <= k < |init| && p(init[k]);
      assert s[k] == init[k];
    }
  }

  lemma {:induction false} FilterAppend<T>(a: seq<T>, b: seq<T>, p: T -> bool)
    ensures Filter(a + b, p) == Filter(a, p) + Filter(b, p)
  {
    if a == [] {
      assert a + b == b;
    } else {
      assert (a + b)[0] == a[0];
      assert (a + b)[1..] == a[1..] + b;
      FilterAppend(a[1..], b, p);
    }
  }

  lemma {:induction false} FilterMapAppend<A, B>(a: seq<A>, b: seq<A>, f: A -> Option<B>)
    ensures FilterMap(a + b, f) == FilterMap(a, f) + FilterMap(b, f)
  {
    if a == [] {
      assert a + b == b;
    } else {
      assert (a + b)[0] == a[0];
      assert (a + b)[1..] == a[1..] + b;
      FilterMapAppend(a[1..], b, f);
      var head := if f(a[0]).Some? then [f(a[0]).value] else [];
      assert FilterMap(a + b, f) == head + FilterMap(a[1..] + b, f);
      assert FilterMap(a, f) == head + FilterMap(a[1..], f);
    }
  }

  lemma FilterMapSingle<A, B>(x: A, f: A -> Option<B>)
    ensures FilterMap([x], f) == if f(x).Some? then [f(x).value] else []
  {
    assert [x][1..] == [];
  }

  lemma {:induction false} FlattenAppend<T>(a: seq<seq<T>>, b: seq<seq<T>>)
    ensures Flatten(a + b) == Flatten(a) + Flatten(b)
  {
    if a == [] {
      assert a + b == b;
    } else {
      assert (a + b)[0] == a[0];
      assert (a + b)[1..] == a[1..] + b;
      FlattenAppend(a[1..], b);
    }
  }

  lemma {:induction false} CountAppend<T>(a: seq<T>, b: seq<T>, x: T)
    ensures Count(a + b, x) == Count(a, x) + Count(b, x)
  {
    if a == [] {
      assert a + b == b;
    } else {
      assert (a + b)[0] == a[0];
      assert (a + b)[1..] == a[1..] + b;
      CountAppend(a[1..], b, x);
    }
  }

  lemma {:induction false} CountMember<T>(s: seq<T>, x: T)
    ensures x in s <==> Count(s, x) > 0
  {
    if s != [] {
      CountMember(s[1..], x);
      assert s == [s[0]] + s[1..];
    }
  }

  /** The filter keeps every occurrence of a kept value and drops every occurrence of the others. */
  lemma {:induction false} FilterCount<T>(s: seq<T>, p: T -> bool, x: T)
    ensures Count(Filter(s, p), x) == if p(x) then Count(s, x) else 0
  {
    if s != [] {
      FilterCount(s[1..], p, x);
      CountAppend(if p(s[0]) then [s[0]] else [], Filter(s[1..], p), x);
    }
  }

  /** An element is in the FilterMap result exactly when some input element maps to it. */
  lemma {:induction false} FilterMapMembers<A, B>(s: seq<A>, f: A -> Option<B>, y: B)
    ensures y in FilterMap(s, f) <==> exists i :: 0 <= i < |s| && f(s[i]) == Some(y)
  {
    if s != [] {
      FilterMapMembers(s[1..], f, y);
      if exists i :: 0 <= i < |s| && f(s[i]) == Some(y) {
        var i :| 0 <= i < |s| && f(s[i]) == Some(y);
        if i > 0 { assert s[1..][i - 1] == s[i]; }
      }
      if exists i :: 0 <= i < |s[1..]| && f(s[1..][i]) == Some(y) {
        var i :| 0 <= i < |s[1..]| && f(s[1..][i]) == Some(y);
        assert s[i + 1] == s[1..][i];
      }
    }
  }

  /** An element survives the filter exactly when it is in the sequence and satisfies `p`. */
  lemma FilterMembers<T>(s: seq<T>, p: T -> bool, x: T)
    ensures x in Filter(s, p) <==> x in s && p(x)
  {
    FilterCount(s, p, x);
    CountMember(s, x);
    CountMember(Filter(s, p), x);
  }

  lemma {:induction false} FirstWhereSpec<T>(s: seq<T>, p: T -> bool)
    ensures FirstWhere(s, p).None? <==> forall i :: 0 <= i < |s| ==> !p(s[i])
    ensures FirstWhere(s, p).Some? ==>
              exists j :: 0 <= j < |s| && s[j] == FirstWhere(s, p).value && p(s[j]) &&
                          forall i :: 0 <= i < j ==> !p(s[i])
  {
    if s != [] && !p(s[0]) {
      FirstWhereSpec(s[1..], p);
      if FirstWhere(s, p).Some? {
        var j :| 0 <= j < |s[1..]| && s[1..][j] == FirstWhere(s, p).value && p(s[1..][j]) &&
                 forall i :: 0 <= i < j ==> !p(s[1..][i]);
        assert s[j + 1] == FirstWhere(s, p).value;
        forall i | 0 <= i < j + 1 ensures !p(s[i]) {
          if i > 0 { assert s[i] == s[1..][i - 1]; }
        }
      }
    }
  }

  /** If the first `p` element passes the stronger test `r`, it is also the first `r` element. */
  lemma {:induction false} FirstWhereStronger<T>(s: seq<T>, p: T -> bool, r: T -> bool, c: T)
    requires FirstWhere(s, p) == Some(c) && r(c)
    requires forall x :: r(x) ==> p(x)
    ensures FirstWhere(s, r) == Some(c)
  {
    if s != [] && !p(s[0]) {
      FirstWhereStronger(s[1..], p, r, c);
    }
  }

  /** The map entering the elements of `s` in order builds: elements without a key are skipped,
      and a later element replaces an earlier one with the same key. */
  function IndexBy<A, K, V>(s: seq<A>, key: A -> Option<K>, val: A -> V): map<K, V>
  {
    if s == [] then map[]
    else
      var m := IndexBy(s[..|s| - 1], key, val);
      var x := s[|s| - 1];
      if key(x).Some? then m[key(x).value := val(x)] else m
  }

  /** A key is present exactly when some element carries it, with the value of the last one. */
  lemma {:induction false} IndexBySpec<A, K, V>(s: seq<A>, key: A -> Option<K>, val: A -> V, k: K)
    ensures k in IndexBy(s, key, val) <==> exists i :: 0 <= i < |s| && key(s[i]) == Some(k)
    ensures k in IndexBy(s, key, val) ==>
      exists i :: 0 <= i < |s| && key(s[i]) == Some(k) && IndexBy(s, key, val)[k] == val(s[i])
        && forall j :: i < j < |s| ==> key(s[j]) != Some(k)
  {
    if s != [] {
      var init := s[..|s| - 1];
      IndexBySpec(init, key, val, k);
      if key(s[|s| - 1]) != Some(k) {
        var m := IndexBy(init, key, val);
        if k in m {
          var i :| 0 <= i < |init| && key(init[i]) == Some(k) && m[k] == val(init[i])
            && forall j :: i < j < |init| ==> key(init[j]) != Some(k);
          assert s[i] == init[i];
          forall j | i < j < |s| ensures key(s[j]) != Some(k) {
            if j < |init| { assert s[j] == init[j]; }
          }
        }
        if exists i :: 0 <= i < |s| && key(s[i]) == Some(k) {
          var i :| 0 <= i < |s| && key(s[i]) == Some(k);
          assert i < |init| && init[i] == s[i];
        }
      } else {
        assert key(s[|s| - 1]) == Some(k);
      }
    }
  }

  /** A filter-map whose function succeeds exactly where `p` holds keeps as many as the filter. */
  lemma {:induction false} FilterMapLength<A, B>(s: seq<A>, f: A -> Option<B>, p: A -> bool)
    requires forall x :: f(x).Some? == p(x)
    ensures |FilterMap(s, f)| == |Filter(s, p)|
  {
    if s != [] {
      FilterMapLength(s[1..], f, p);
    }
  }

  lemma {:induction false} AddAllAppend<T>(acc: seq<T>, a: seq<T>, b: seq<T>)
    ensures AddAll(acc, a + b) == AddAll(AddAll(acc, a), b)
  {
    if b == [] {
      assert a + b == a;
    } else {
      assert (a + b)[..|a + b| - 1] == a + b[..|b| - 1];
      AddAllAppend(acc, a, b[..|b| - 1]);
    }
  }

  /** Adding without duplicates keeps what was there in order, stays duplicate-free, and ends
      up holding exactly the old and the added elements. */
  lemma {:induction false} AddAllSpec<T>(acc: seq<T>, xs: seq<T>)
    requires NoDuplicates(acc)
    ensures NoDuplicates(AddAll(acc, xs))
    ensures acc <= AddAll(acc, xs)
    ensures forall x :: x in AddAll(acc, xs) <==> x in acc || x in xs
  {
    if xs != [] {
      var init := xs[..|xs| - 1];
      AddAllSpec(acc, init);
      assert xs == init + [xs[|xs| - 1]];
    }
  }
}
