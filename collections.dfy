/** Sequence operations of JavaScript arrays that the model uses in several places:
    `slice(0, n)`, `map`, first-occurrence deduplication (a `Set` or a `some` check before a
    `push`) and the stable `sort` with a numeric descending comparator. */
module Collections {

  /** `Array.prototype.slice(0, n)`: a negative `n` counts from the end. */
  function Take<T>(s: seq<T>, n: int): (r: seq<T>)
    ensures 0 <= n ==> |r| == (if n < |s| then n else |s|)
    ensures n < 0 ==> |r| == (if |s| + n < 0 then 0 else |s| + n)
    ensures r == s[..|r|]
  {
    if 0 <= n then (if n < |s| then s[..n] else s)
    else (if |s| + n < 0 then [] else s[..|s| + n])
  }

  // ---------------------------------------------------------------------------
  // Prefixes and `map`

  /** A non-empty sequence is its front followed by its last element. */
  lemma ButLast<T>(s: seq<T>)
    requires s != []
    ensures s[..|s| - 1] + [s[|s| - 1]] == s
  {
  }

  /** A prefix one longer is the shorter prefix followed by one element. */
  lemma TakeSnoc<T>(s: seq<T>, i: nat)
    requires i < |s|
    ensures s[..i + 1] == s[..i] + [s[i]]
  {
  }

  /** `s.map(f)`. */
  function Map<A, B>(f: A -> B, s: seq<A>): (r: seq<B>)
    ensures |r| == |s|
  {
    seq(|s|, i requires 0 <= i < |s| => f(s[i]))
  }

  lemma MapAppend<A, B>(f: A -> B, a: seq<A>, b: seq<A>)
    ensures Map(f, a + b) == Map(f, a) + Map(f, b)
  {
    var s := a + b;
    assert forall k :: 0 <= k < |a| ==> s[k] == a[k];
    assert forall k :: |a| <= k < |s| ==> s[k] == b[k - |a|];
  }

  // ---------------------------------------------------------------------------
  // First-occurrence deduplication

  /** The keys of the elements of `s`. */
  function Keys<T(==), K>(s: seq<T>, key: T -> K): set<K> {
    set y | y in s :: key(y)
  }

  /** Iterating over `xs` with a set `seen` of keys: an element is kept when its key has
      not been seen yet, and its key is then added to `seen`. This is insertion into a
      JavaScript `Set`, and also a `push` guarded by a `some(...)` test on the kept list. */
  function Dedup<T, K(==)>(xs: seq<T>, key: T -> K, seen: set<K>): seq<T>
    decreases |xs|
  {
    if xs == [] then []
    else if key(xs[0]) in seen then Dedup(xs[1..], key, seen)
    else [xs[0]] + Dedup(xs[1..], key, seen + {key(xs[0])})
  }

  /** Appending one element: it is kept exactly when no earlier element and no `seen` key
      shares its key. This is the step a loop over `xs` performs. */
  lemma {:induction false} DedupSnoc<T, K>(xs: seq<T>, x: T, key: T -> K, seen: set<K>)
    ensures Dedup(xs + [x], key, seen) ==
            Dedup(xs, key, seen) + (if key(x) in seen + Keys(Dedup(xs, key, seen), key) then [] else [x])
  {
    if xs == [] {
      assert xs + [x] == [x];
    } else {
      assert (xs + [x])[1..] == xs[1..] + [x];
      if key(xs[0]) in seen {
        DedupSnoc(xs[1..], x, key, seen);
      } else {
        var seen' := seen + {key(xs[0])};
        DedupSnoc(xs[1..], x, key, seen');
        var rest := Dedup(xs[1..], key, seen');
        assert Keys([xs[0]] + rest, key) == {key(xs[0])} + Keys(rest, key) by {
          forall k | k in Keys([xs[0]] + rest, key) ensures k in {key(xs[0])} + Keys(rest, key) {
            var y :| y in [xs[0]] + rest && key(y) == k;
            if y != xs[0] { assert y in rest; }
          }
          forall k | k in {key(xs[0])} + Keys(rest, key) ensures k in Keys([xs[0]] + rest, key) {
            if k != key(xs[0]) {
              var y :| y in rest && key(y) == k;
              assert y in [xs[0]] + rest;
            } else {
              assert xs[0] in [xs[0]] + rest;
            }
          }
        }
      }
    }
  }

  /** No two kept elements share a key, and no kept key was already seen. */
  lemma {:induction false} DedupDistinct<T, K>(xs: seq<T>, key: T -> K, seen: set<K>)
    ensures forall i, j :: 0 <= i < j < |Dedup(xs, key, seen)| ==>
              key(Dedup(xs, key, seen)[i]) != key(Dedup(xs, key, seen)[j])
    ensures forall i :: 0 <= i < |Dedup(xs, key, seen)| ==> key(Dedup(xs, key, seen)[i]) !in seen
  {
    if xs != [] {
      if key(xs[0]) in seen {
        DedupDistinct(xs[1..], key, seen);
      } else {
        DedupDistinct(xs[1..], key, seen + {key(xs[0])});
      }
    }
  }

  /** Every element's key is either seen already or represented among the kept ones. */
  lemma {:induction false} DedupComplete<T, K>(xs: seq<T>, key: T -> K, seen: set<K>)
    ensures forall x :: x in xs ==> key(x) in seen || exists y :: y in Dedup(xs, key, seen) && key(y) == key(x)
  {
    if xs != [] {
      if key(xs[0]) in seen {
        DedupComplete(xs[1..], key, seen);
      } else {
        DedupComplete(xs[1..], key, seen + {key(xs[0])});
        assert xs[0] in Dedup(xs, key, seen);
      }
    }
  }

  /** An element whose key is not in `seen` is in `xs`, and it is a first occurrence:
      no element before it in `xs` shares its key. */
  lemma {:induction false} DedupFirst<T, K>(xs: seq<T>, key: T -> K, seen: set<K>, k: nat)
    requires k < |Dedup(xs, key, seen)|
    ensures exists i :: 0 <= i < |xs| && xs[i] == Dedup(xs, key, seen)[k] &&
              forall j :: 0 <= j < i ==> key(xs[j]) != key(xs[i])
  {
    var r := Dedup(xs, key, seen);
    if key(xs[0]) in seen {
      DedupFirst(xs[1..], key, seen, k);
      var i :| 0 <= i < |xs[1..]| && xs[1..][i] == r[k] &&
                forall j :: 0 <= j < i ==> key(xs[1..][j]) != key(xs[1..][i]);
      DedupDistinct(xs[1..], key, seen);
      assert key(xs[0]) != key(r[k]);
      assert xs[i + 1] == r[k];
    } else if k == 0 {
      assert xs[0] == r[0];
    } else {
      var seen' := seen + {key(xs[0])};
      DedupFirst(xs[1..], key, seen', k - 1);
      var i :| 0 <= i < |xs[1..]| && xs[1..][i] == Dedup(xs[1..], key, seen')[k - 1] &&
                forall j :: 0 <= j < i ==> key(xs[1..][j]) != key(xs[1..][i]);
      DedupDistinct(xs[1..], key, seen');
      assert key(xs[1..][i]) !in seen';
      assert xs[i + 1] == r[k];
    }
  }

  // ---------------------------------------------------------------------------
  // Stable sort, descending by a numeric key

  /** Non-increasing by `key`. */
  predicate SortedDesc<T>(s: seq<T>, key: T -> real) {
    forall i, j :: 0 <= i < j < |s| ==> key(s[i]) >= key(s[j])
  }

  /** Inserts `x` into a sorted list after every element whose key is at least `x`'s. */
  function Insert<T>(x: T, s: seq<T>, key: T -> real): (r: seq<T>)
    ensures |r| == |s| + 1
    decreases |s|
  {
    if s == [] || key(x) > key(s[0]) then [x] + s
    else [s[0]] + Insert(x, s[1..], key)
  }

  /** `s.sort((a, b) => key(b) - key(a))`. JavaScript's sort is stable, so elements with
      equal keys keep their input order; insertion sort yields that unique order. */
  function SortDesc<T>(s: seq<T>, key: T -> real): (r: seq<T>)
    ensures |r| == |s|
    decreases |s|
  {
    if s == [] then [] else Insert(s[|s| - 1], SortDesc(s[..|s| - 1], key), key)
  }

  lemma {:induction false} InsertPerm<T>(x: T, s: seq<T>, key: T -> real)
    ensures multiset(Insert(x, s, key)) == multiset(s) + multiset{x}
    ensures |Insert(x, s, key)| == |s| + 1
    decreases |s|
  {
    if s != [] && key(x) <= key(s[0]) {
      InsertPerm(x, s[1..], key);
      assert s == [s[0]] + s[1..];
    }
  }

  lemma {:induction false} InsertSorted<T>(x: T, s: seq<T>, key: T -> real)
    requires SortedDesc(s, key)
    ensures SortedDesc(Insert(x, s, key), key)
    decreases |s|
  {
    if s != [] && key(x) <= key(s[0]) {
      InsertSorted(x, s[1..], key);
      InsertPerm(x, s[1..], key);
      var t := Insert(x, s[1..], key);
      forall k | 0 <= k < |t| ensures key(s[0]) >= key(t[k]) {
        assert t[k] in multiset(t);
        assert t[k] in multiset(s[1..]) + multiset{x};
        if t[k] != x {
          assert t[k] in multiset(s[1..]);
          assert t[k] in s[1..];
          var m :| 0 <= m < |s[1..]| && s[1..][m] == t[k];
          assert s[m + 1] == t[k];
        }
      }
    }
  }

  /** The result is a permutation of the input. */
  lemma {:induction false} SortDescPerm<T>(s: seq<T>, key: T -> real)
    ensures multiset(SortDesc(s, key)) == multiset(s)
    ensures |SortDesc(s, key)| == |s|
    decreases |s|
  {
    if s != [] {
      SortDescPerm(s[..|s| - 1], key);
      InsertPerm(s[|s| - 1], SortDesc(s[..|s| - 1], key), key);
      assert s == s[..|s| - 1] + [s[|s| - 1]];
    }
  }

  /** The result is non-increasing by `key`. */
  lemma {:induction false} SortDescSorted<T>(s: seq<T>, key: T -> real)
    ensures SortedDesc(SortDesc(s, key), key)
    decreases |s|
  {
    if s != [] {
      SortDescSorted(s[..|s| - 1], key);
      InsertSorted(s[|s| - 1], SortDesc(s[..|s| - 1], key), key);
    }
  }

  /** The elements of `s` whose key equals `v`, in order. */
  function KeyFilter<T>(s: seq<T>, key: T -> real, v: real): seq<T>
    decreases |s|
  {
    if s == [] then []
    else (if key(s[0]) == v then [s[0]] else []) + KeyFilter(s[1..], key, v)
  }

  lemma {:induction false} KeyFilterAppend<T>(a: seq<T>, b: seq<T>, key: T -> real, v: real)
    ensures KeyFilter(a + b, key, v) == KeyFilter(a, key, v) + KeyFilter(b, key, v)
    decreases |a|
  {
    if a == [] {
      assert a + b == b;
    } else {
      var h := if key(a[0]) == v then [a[0]] else [];
      assert (a + b)[0] == a[0] && (a + b)[1..] == a[1..] + b;
      KeyFilterAppend(a[1..], b, key, v);
      calc {
        KeyFilter(a + b, key, v);
        h + KeyFilter(a[1..] + b, key, v);
        h + (KeyFilter(a[1..], key, v) + KeyFilter(b, key, v));
        { assert h + (KeyFilter(a[1..], key, v) + KeyFilter(b, key, v)) == (h + KeyFilter(a[1..], key, v)) + KeyFilter(b, key, v); }
        KeyFilter(a, key, v) + KeyFilter(b, key, v);
      }
    }
  }

  lemma {:induction false} KeyFilterBelow<T>(s: seq<T>, key: T -> real, v: real)
    requires forall k :: 0 <= k < |s| ==> key(s[k]) < v
    ensures KeyFilter(s, key, v) == []
    decreases |s|
  {
    if s != [] { KeyFilterBelow(s[1..], key, v); }
  }

  lemma {:induction false} InsertKeyFilter<T>(x: T, s: seq<T>, key: T -> real, v: real)
    requires SortedDesc(s, key)
    ensures KeyFilter(Insert(x, s, key), key, v) ==
            KeyFilter(s, key, v) + (if key(x) == v then [x] else [])
    decreases |s|
  {
    if s == [] || key(x) > key(s[0]) {
      assert ([x] + s)[1..] == s;
      if key(x) == v { KeyFilterBelow(s, key, v); }
    } else {
      InsertKeyFilter(x, s[1..], key, v);
      assert ([s[0]] + Insert(x, s[1..], key))[1..] == Insert(x, s[1..], key);
    }
  }

  /** Stability: among elements with the same key, the result keeps the input order. */
  lemma {:induction false} SortDescStable<T>(s: seq<T>, key: T -> real, v: real)
    ensures KeyFilter(SortDesc(s, key), key, v) == KeyFilter(s, key, v)
    decreases |s|
  {
    if s != [] {
      var init, x := s[..|s| - 1], s[|s| - 1];
      SortDescStable(init, key, v);
      SortDescSorted(init, key);
      InsertKeyFilter(x, SortDesc(init, key), key, v);
      assert s == init + [x];
      KeyFilterAppend(init, [x], key, v);
      assert KeyFilter([x], key, v) == (if key(x) == v then [x] else []) by {
        assert [x][1..] == [];
      }
    }
  }

  /** The head of the result is the FIRST element of the input that has the largest key. */
  lemma {:induction false} SortDescHead<T>(s: seq<T>, key: T -> real)
    requires s != []
    ensures exists i :: 0 <= i < |s| && SortDesc(s, key)[0] == s[i] &&
              (forall j :: 0 <= j < |s| ==> key(s[j]) <= key(s[i])) &&
              (forall j :: 0 <= j < i ==> key(s[j]) < key(s[i]))
    decreases |s|
  {
    hide Insert;
    var init, x := s[..|s| - 1], s[|s| - 1];
    var t := SortDesc(init, key);
    assert SortDesc(s, key) == Insert(x, t, key);
    var w: nat;
    if init == [] {
      InsertHead(x, t, key);
      w := 0;
    } else {
      SortDescHead(init, key);
      var i :| 0 <= i < |init| && t[0] == init[i] &&
                (forall j :: 0 <= j < |init| ==> key(init[j]) <= key(init[i])) &&
                (forall j :: 0 <= j < i ==> key(init[j]) < key(init[i]));
      InsertHead(x, t, key);
      if key(x) > key(t[0]) {
        w := |s| - 1;
        assert forall j :: 0 <= j < |s| - 1 ==> key(s[j]) < key(s[w]) by {
          assert forall j :: 0 <= j < |init| ==> s[j] == init[j];
        }
      } else {
        w := i;
        assert s[w] == init[i];
        assert forall j :: 0 <= j < |init| ==> s[j] == init[j];
      }
    }
    assert 0 <= w < |s| && SortDesc(s, key)[0] == s[w];
    assert forall j :: 0 <= j < |s| ==> key(s[j]) <= key(s[w]);
    assert forall j :: 0 <= j < w ==> key(s[j]) < key(s[w]);
  }

  /** The head of an insertion: `x` when it beats the old head, the old head otherwise. */
  lemma InsertHead<T>(x: T, s: seq<T>, key: T -> real)
    ensures Insert(x, s, key)[0] == (if s == [] || key(x) > key(s[0]) then x else s[0])
  {
  }


  /** The sequences one after the other. */
  function Flatten<T>(ps: seq<seq<T>>): seq<T>
    decreases |ps|
  {
    if ps == [] then [] else ps[0] + Flatten(ps[1..])
  }

  lemma {:induction false} FlattenSnoc<T>(ps: seq<seq<T>>, p: seq<T>)
    ensures Flatten(ps + [p]) == Flatten(ps) + p
    decreases |ps|
  {
    if ps == [] {
      assert [p][1..] == [];
      assert p + [] == p;
    } else {
      assert (ps + [p])[1..] == ps[1..] + [p];
      FlattenSnoc(ps[1..], p);
    }
  }

  /** The first `n` of a list sorted by non-increasing key are the `n` largest: none of the
      rest has a larger key than one taken. */
  lemma TakeTop<T>(sorted: seq<T>, s: seq<T>, key: T -> real, n: nat)
    requires multiset(sorted) == multiset(s) && SortedDesc(sorted, key)
    ensures SortedDesc(Take(sorted, n), key)
    ensures multiset(Take(sorted, n)) <= multiset(s)
    ensures forall x, y :: x in multiset(s) - multiset(Take(sorted, n)) && y in Take(sorted, n) ==> key(x) <= key(y)
  {
    var r := Take(sorted, n);
    var m := |r|;
    assert sorted == r + sorted[m..];
    assert multiset(sorted) == multiset(r) + multiset(sorted[m..]);
    forall x, y | x in multiset(s) - multiset(r) && y in r ensures key(x) <= key(y) {
      assert x in multiset(sorted[m..]);
      var j' :| 0 <= j' < |sorted[m..]| && sorted[m..][j'] == x;
      assert sorted[m + j'] == x;
      var i :| 0 <= i < m && r[i] == y;
      assert sorted[i] == y;
    }
    assert SortedDesc(r, key) by {
      forall i, j | 0 <= i < j < |r| ensures key(r[i]) >= key(r[j]) {
        assert r[i] == sorted[i] && r[j] == sorted[j];
      }
    }
  }

  /** `a` is `b` with some elements left out, in the same order. */
  predicate Subsequence<T(==)>(a: seq<T>, b: seq<T>)
    decreases |b|
  {
    a == [] || (b != [] && (Subsequence(a, b[1..]) || (a[0] == b[0] && Subsequence(a[1..], b[1..]))))
  }

  /** Deduplication only leaves elements out. */
  lemma {:induction false} DedupSubsequence<T, K>(xs: seq<T>, key: T -> K, seen: set<K>)
    ensures Subsequence(Dedup(xs, key, seen), xs)
    decreases |xs|
  {
    if xs != [] {
      if key(xs[0]) in seen {
        DedupSubsequence(xs[1..], key, seen);
      } else {
        var rest := Dedup(xs[1..], key, seen + {key(xs[0])});
        DedupSubsequence(xs[1..], key, seen + {key(xs[0])});
        assert ([xs[0]] + rest)[1..] == rest;
      }
    }
  }

  /** A prefix is a subsequence. */
  lemma {:induction false} PrefixSubsequence<T>(s: seq<T>, n: nat)
    requires n <= |s|
    ensures Subsequence(s[..n], s)
    decreases |s|
  {
    if n > 0 {
      PrefixSubsequence(s[1..], n - 1);
      assert s[..n][1..] == s[1..][..n - 1];
    }
  }

  lemma KeysSnoc<T, K>(s: seq<T>, x: T, key: T -> K)
    ensures Keys(s + [x], key) == Keys(s, key) + {key(x)}
  {
    forall k | k in Keys(s + [x], key) ensures k in Keys(s, key) + {key(x)} {
      var y :| y in s + [x] && key(y) == k;
      if y != x { assert y in s; }
    }
    forall k | k in Keys(s, key) + {key(x)} ensures k in Keys(s + [x], key) {
      if k != key(x) {
        var y :| y in s && key(y) == k;
        assert y in s + [x];
      } else {
        assert x in s + [x];
      }
    }
  }
}
