/** Small value-level helpers shared by the modules of this model: an Option
    type, sums and filters over sequences, and the stable sort that stands in
    for Python's `sorted(..., key=..., reverse=...)`. */
module Common {

  datatype Option<+T> = None | Some(value: T)

  /** Sum of a sequence of amounts (Python's `sum`). */
  function Sum(s: seq<real>): real
  {
    if s == [] then 0.0 else s[0] + Sum(s[1..])
  }

  lemma {:induction false} SumAppend(s: seq<real>, t: seq<real>)
    ensures Sum(s + t) == Sum(s) + Sum(t)
  {
    if s == [] {
      assert s + t == t;
    } else {
      assert (s + t)[1..] == s[1..] + t;
      SumAppend(s[1..], t);
    }
  }

  /** No element occurs twice. */
  predicate NoDup<T(==)>(s: seq<T>)
  {
    forall i, j :: 0 <= i < j < |s| ==> s[i] != s[j]
  }

  /** Concatenation regroups; stated apart so that a caller's context does
      not take part in the extensionality proof. */
  lemma AppendAssoc<T>(a: seq<T>, b: seq<T>, c: seq<T>)
    ensures a + (b + c) == a + b + c
  {
  }

  /** A prefix grows by the next element, and a suffix starts with it. */
  lemma SliceAt<T>(s: seq<T>, j: nat)
    requires j < |s|
    ensures s[..j + 1] == s[..j] + [s[j]]
    ensures s[j..] == [s[j]] + s[j + 1..]
  {
  }

  /** The elements of a non-empty sequence: those before the last one, and
      the last one. */
  lemma LastSplit<T>(s: seq<T>)
    requires s != []
    ensures forall x :: x in s <==> x in s[..|s| - 1] || x == s[|s| - 1]
  {
    assert s == s[..|s| - 1] + [s[|s| - 1]];
  }

  /** The prefix one longer starts with the prefix and ends with the next
      element. */
  lemma PrefixStep<T>(s: seq<T>, i: nat)
    requires i < |s|
    ensures s[..i + 1][..i] == s[..i] && s[..i + 1][i] == s[i] && |s[..i + 1]| == i + 1
  {
  }

  /** Without repeats, the last element is not among those before it, which
      have no repeats either. */
  lemma NoDupInit<T>(s: seq<T>)
    requires NoDup(s) && s != []
    ensures NoDup(s[..|s| - 1]) && s[|s| - 1] !in s[..|s| - 1]
  {
    var init := s[..|s| - 1];
    assert forall k :: 0 <= k < |init| ==> init[k] == s[k];
  }

  /** Indexing into a concatenation. */
  lemma AppendIndex<T>(a: seq<T>, b: seq<T>, k: nat)
    requires k < |a| + |b|
    ensures k < |a| ==> (a + b)[k] == a[k]
    ensures |a| <= k ==> (a + b)[k] == b[k - |a|]
  {
  }

  /** The prefix up to the length is the whole sequence. */
  lemma PrefixAll<T>(s: seq<T>)
    ensures s[..|s|] == s
  {
  }

  lemma NoDupSnoc<T>(s: seq<T>, x: T)
    requires NoDup(s) && x !in s
    ensures NoDup(s + [x])
  {
  }

  /** The elements of `s` that satisfy `p`, in their original order
      (a Python list comprehension with an `if`). */
  function Filter<T>(s: seq<T>, p: T -> bool): (r: seq<T>)
    ensures |r| <= |s|
    ensures forall i :: 0 <= i < |r| ==> r[i] in s && p(r[i])
    ensures forall i :: 0 <= i < |s| && p(s[i]) ==> s[i] in r
  {
    if s == [] then []
    else if p(s[0]) then [s[0]] + Filter(s[1..], p)
    else Filter(s[1..], p)
  }

  lemma {:induction false} FilterMember<T>(s: seq<T>, p: T -> bool, x: T)
    ensures x in Filter(s, p) <==> x in s && p(x)
  {
    if s != [] {
      FilterMember(s[1..], p, x);
      assert s == [s[0]] + s[1..];
    }
  }

  lemma {:induction false} FilterAppend<T>(s: seq<T>, t: seq<T>, p: T -> bool)
    ensures Filter(s + t, p) == Filter(s, p) + Filter(t, p)
  {
    if s == [] {
      assert s + t == t;
    } else {
      assert (s + t)[1..] == s[1..] + t;
      FilterAppend(s[1..], t, p);
    }
  }

  /** Filtering by two tests that agree on every element gives the same list. */
  lemma {:induction false} FilterSame<T>(s: seq<T>, p: T -> bool, q: T -> bool)
    requires forall x :: p(x) == q(x)
    ensures Filter(s, p) == Filter(s, q)
  {
    if s != [] {
      FilterSame(s[1..], p, q);
    }
  }

  /** Filtering twice is filtering once by both tests (a comprehension over
      a comprehension). */
  lemma {:induction false} FilterFilter<T>(s: seq<T>, p: T -> bool, q: T -> bool, pq: T -> bool)
    requires forall x :: pq(x) == (p(x) && q(x))
    ensures Filter(Filter(s, p), q) == Filter(s, pq)
  {
    if s != [] {
      FilterFilter(s[1..], p, q, pq);
    }
  }

  /** Filtering `init + [x]`: the filtered `init`, then `x` when it passes. */
  lemma FilterSnoc<T>(init: seq<T>, x: T, p: T -> bool)
    ensures Filter(init + [x], p) == Filter(init, p) + if p(x) then [x] else []
  {
    FilterAppend(init, [x], p);
    assert Filter([x], p) == if p(x) then [x] + Filter([], p) else Filter([], p);
  }

  /** Index of the first element of `s` equal to `x` (Python's `list.index`). */
  function IndexOf<T(==)>(s: seq<T>, x: T): (i: nat)
    requires x in s
    ensures i < |s| && s[i] == x
    ensures forall j :: 0 <= j < i ==> s[j] != x
  {
    if s[0] == x then 0 else 1 + IndexOf(s[1..], x)
  }

  /** `s` without its first occurrence of `x` (Python's `list.remove`, which
      raises ValueError when `x` is absent). */
  function Remove<T(==)>(s: seq<T>, x: T): (r: seq<T>)
    requires x in s
    ensures |r| == |s| - 1
    ensures multiset(r) == multiset(s) - multiset{x}
  {
    assert s == [s[0]] + s[1..];
    if s[0] == x then s[1..]
    else [s[0]] + Remove(s[1..], x)
  }

  /** Putting `order[i]` in front of elements that all come later in `order`,
      in `order`'s order, keeps the list in `order`'s order. */
  lemma ConsInOrder<T>(order: seq<T>, i: nat, rest: seq<T>)
    requires i < |order| && IndexOf(order, order[i]) == i
    requires forall k :: 0 <= k < |rest| ==> rest[k] in order && i < IndexOf(order, rest[k])
    requires forall a, b :: 0 <= a < b < |rest| ==> IndexOf(order, rest[a]) < IndexOf(order, rest[b])
    ensures var r := [order[i]] + rest;
            (forall k :: 0 <= k < |r| ==> i <= IndexOf(order, r[k]))
            && forall a, b :: 0 <= a < b < |r| ==> IndexOf(order, r[a]) < IndexOf(order, r[b])
  {
    var r := [order[i]] + rest;
    forall a, b | 0 <= a < b < |r|
      ensures IndexOf(order, r[a]) < IndexOf(order, r[b])
    {
      assert r[b] == rest[b - 1];
      if a > 0 {
        assert r[a] == rest[a - 1];
      }
    }
    forall k | 0 <= k < |r|
      ensures i <= IndexOf(order, r[k])
    {
      if k > 0 {
        assert r[k] == rest[k - 1];
      }
    }
  }

  /** `list.remove(x)` drops the element at `list.index(x)` and keeps the
      others in order. */
  lemma RemoveAtIndex<T>(s: seq<T>, x: T)
    requires x in s
    ensures Remove(s, x) == s[..IndexOf(s, x)] + s[IndexOf(s, x) + 1..]
  {
    var k := IndexOf(s, x);
    assert s == s[..k] + [x] + s[k + 1..];
    RemoveAfterPrefix(s[..k], x, s[k + 1..]);
  }

  lemma {:induction false} RemoveAfterPrefix<T>(a: seq<T>, x: T, b: seq<T>)
    requires x !in a
    ensures Remove(a + [x] + b, x) == a + b
  {
    if a == [] {
      assert a + [x] + b == [x] + b;
    } else {
      HeadAndRest(a, x, b);
      RemoveAfterPrefix(a[1..], x, b);
    }
  }

  /** The first element and the rest of `a + [x] + b` when `a` is not empty. */
  lemma HeadAndRest<T>(a: seq<T>, x: T, b: seq<T>)
    requires a != []
    ensures (a + [x] + b)[0] == a[0] && (a + [x] + b)[1..] == a[1..] + [x] + b
    ensures a + b == [a[0]] + (a[1..] + b)
  {
    assert a == [a[0]] + a[1..];
    AppendAssoc([a[0]], a[1..], b);
  }

  /** Indices `j < k` of `s` past the head, seen in `s[1..]`; an element not
      repeated before `k` stays so in the tail. */
  lemma TailIndices<T>(s: seq<T>, j: nat, k: nat)
    requires 0 < j < k < |s| && s[k] !in s[..k]
    ensures s[1..][j - 1] == s[j] && s[1..][k - 1] == s[k]
    ensures s[1..][k - 1] !in s[1..][..k - 1] && s[k] != s[0]
  {
    assert s[1..][..k - 1] == s[1..k];
    assert s[0] in s[..k];
  }

  /** Splitting `s` in two: when its front splits into `u` and `v` and the
      last element joins one of them, the parts of the whole are `u'` and `v'`. */
  lemma SplitLast<T>(s: seq<T>, u: seq<T>, v: seq<T>, u': seq<T>, v': seq<T>)
    requires s != [] && multiset(u) + multiset(v) == multiset(s[..|s| - 1])
    requires (u' == u + [s[|s| - 1]] && v' == v) || (u' == u && v' == v + [s[|s| - 1]])
    ensures multiset(u') + multiset(v') == multiset(s)
  {
    assert s == s[..|s| - 1] + [s[|s| - 1]];
  }

  /** `s` back to front (`list.reverse()`, or a list built by `insert(0, x)`). */
  function Reverse<T(!new)>(s: seq<T>): (r: seq<T>)
    ensures |r| == |s|
    ensures forall i :: 0 <= i < |s| ==> r[i] == s[|s| - 1 - i]
    ensures forall x :: x in r <==> x in s
  {
    if s == [] then []
    else
      assert s == [s[0]] + s[1..];
      Reverse(s[1..]) + [s[0]]
  }

  lemma {:induction false} ReverseElements<T(!new)>(s: seq<T>)
    ensures multiset(Reverse(s)) == multiset(s)
  {
    if s != [] {
      ReverseElements(s[1..]);
      assert s == [s[0]] + s[1..];
    }
  }

  /** Number of elements of `s` satisfying `p`. */
  function Count<T>(s: seq<T>, p: T -> bool): nat
  {
    |Filter(s, p)|
  }

  // ---------------------------------------------------------------------------
  // Stable sorting by a numeric key
  // ---------------------------------------------------------------------------

  /** `a` may stand before `b` in the result of a sort by `key`, ascending or,
      with `desc`, descending. */
  predicate Precedes<T>(a: T, b: T, key: T -> real, desc: bool)
  {
    if desc then key(a) >= key(b) else key(a) <= key(b)
  }

  predicate SortedBy<T>(s: seq<T>, key: T -> real, desc: bool)
  {
    forall i, j :: 0 <= i < j < |s| ==> Precedes(s[i], s[j], key, desc)
  }

  /** Inserts `x` in front of the first element it may precede. */
  function Insert<T>(x: T, s: seq<T>, key: T -> real, desc: bool): seq<T>
  {
    if s == [] || Precedes(x, s[0], key, desc) then [x] + s
    else [s[0]] + Insert(x, s[1..], key, desc)
  }

  /** Python's `sorted(s, key=key, reverse=desc)`: an insertion sort that keeps
      elements with equal keys in their original order. */
  function SortBy<T(!new)>(s: seq<T>, key: T -> real, desc: bool): (r: seq<T>)
    ensures multiset(r) == multiset(s)
    ensures forall x :: x in r <==> x in s
  {
    if s == [] then []
    else
      InsertElements(s[0], SortBy(s[1..], key, desc), key, desc);
      assert s == [s[0]] + s[1..];
      var r := Insert(s[0], SortBy(s[1..], key, desc), key, desc);
      assert forall x :: x in r <==> x in multiset(r);
      r
  }

  lemma {:induction false} InsertElements<T>(x: T, s: seq<T>, key: T -> real, desc: bool)
    ensures multiset(Insert(x, s, key, desc)) == multiset(s) + multiset{x}
  {
    if s != [] && !Precedes(x, s[0], key, desc) {
      InsertElements(x, s[1..], key, desc);
      assert s == [s[0]] + s[1..];
    }
  }

  lemma {:induction false} InsertSorted<T>(x: T, s: seq<T>, key: T -> real, desc: bool)
    requires SortedBy(s, key, desc)
    ensures SortedBy(Insert(x, s, key, desc), key, desc)
  {
    InsertElements(x, s, key, desc);
    if s == [] || Precedes(x, s[0], key, desc) {
      forall j | 0 <= j < |s| ensures Precedes(x, s[j], key, desc) {
        assert Precedes(s[0], s[j], key, desc) || j == 0;
      }
    } else {
      InsertSorted(x, s[1..], key, desc);
      var r := Insert(x, s[1..], key, desc);
      InsertElements(x, s[1..], key, desc);
      forall j | 0 <= j < |r| ensures Precedes(s[0], r[j], key, desc) {
        assert r[j] in multiset(r);
        if r[j] != x {
          assert r[j] in multiset(s[1..]);
          var k :| 0 <= k < |s[1..]| && s[1..][k] == r[j];
          assert s[k + 1] == r[j];
        }
      }
      assert Insert(x, s, key, desc) == [s[0]] + r;
    }
  }

  /** The test "has key `k`". */
  function KeyIs<T>(key: T -> real, k: real): T -> bool
  {
    x => key(x) == k
  }

  /** Inserting `x` puts it in front of every element with the same key:
      `Insert` passes only elements `x` may not precede, whose key differs. */
  lemma {:induction false} InsertKeepsTies<T>(x: T, s: seq<T>, key: T -> real, desc: bool, k: real)
    ensures Filter(Insert(x, s, key, desc), KeyIs(key, k))
            == (if key(x) == k then [x] else []) + Filter(s, KeyIs(key, k))
  {
    if s == [] || Precedes(x, s[0], key, desc) {
      assert Insert(x, s, key, desc) == [x] + s;
      assert ([x] + s)[1..] == s;
    } else {
      InsertKeepsTies(x, s[1..], key, desc, k);
      assert key(s[0]) != key(x);
      assert Insert(x, s, key, desc) == [s[0]] + Insert(x, s[1..], key, desc);
      assert ([s[0]] + Insert(x, s[1..], key, desc))[1..] == Insert(x, s[1..], key, desc);
    }
  }

  /** The sort is stable: the elements with any one key keep their order, as
      Python's `sorted` guarantees. */
  lemma {:induction false} SortByStable<T(!new)>(s: seq<T>, key: T -> real, desc: bool, k: real)
    ensures Filter(SortBy(s, key, desc), KeyIs(key, k)) == Filter(s, KeyIs(key, k))
  {
    if s != [] {
      SortByStable(s[1..], key, desc, k);
      InsertKeepsTies(s[0], SortBy(s[1..], key, desc), key, desc, k);
    }
  }

  /** The stable sort returns the same elements, in key order. */
  lemma {:induction false} SortByCorrect<T(!new)>(s: seq<T>, key: T -> real, desc: bool)
    ensures SortedBy(SortBy(s, key, desc), key, desc)
    ensures multiset(SortBy(s, key, desc)) == multiset(s)
  {
    if s != [] {
      SortByCorrect(s[1..], key, desc);
      InsertSorted(s[0], SortBy(s[1..], key, desc), key, desc);
    }
  }
}
