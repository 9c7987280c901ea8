/** Sequence operations that JavaScript code in the frontend expresses with
    `Set`, `filter`, `flatMap`, `slice` and `includes`, with the facts about
    them that the page modules rely on. */
module Lists {

  /** No element occurs twice. */
  predicate NoDuplicates<T(==,!new)>(s: seq<T>) {
    forall i, j :: 0 <= i < j < |s| ==> s[i] != s[j]
  }

  /** The number of occurrences of `x` in `s`. */
  function Count<T(==,!new)>(s: seq<T>, x: T): nat {
    multiset(s)[x]
  }

  /** The index of the first occurrence of `x` in `s`. */
  function FirstIndex<T(==,!new)>(s: seq<T>, x: T): (i: nat)
    requires x in s
    ensures i < |s| && s[i] == x && x !in s[..i]
  {
    if s[0] == x then 0 else 1 + FirstIndex(s[1..], x)
  }

  /** `Array.from(new Set(s))`: every element once, in the order of its
      first occurrence (a `Set` keeps insertion order and ignores an element
      it already holds). Defined on the last element, so a loop that adds one
      element at a time follows it step by step. */
  function Dedup<T(==,!new)>(s: seq<T>): (d: seq<T>) {
    if s == [] then []
    else
      var init := Dedup(s[..|s| - 1]);
      if s[|s| - 1] in init then init else init + [s[|s| - 1]]
  }

  /** The result of `Dedup` has no repeats and the same elements. */
  lemma {:induction false} DedupSpec<T(!new)>(s: seq<T>)
    ensures NoDuplicates(Dedup(s))
    ensures forall x :: x in Dedup(s) <==> x in s
    ensures |Dedup(s)| <= |s|
  {
    if s != [] {
      var init := s[..|s| - 1];
      DedupSpec(init);
      assert forall x :: x in s <==> x in init || x == s[|s| - 1] by {
        assert s == init + [s[|s| - 1]];
      }
    }
  }

  lemma DedupMember<T(!new)>(s: seq<T>, x: T)
    ensures x in Dedup(s) <==> x in s
  {
    DedupSpec(s);
  }

  /** A sequence without repeats is as long as the set of its elements. */
  lemma {:induction false} DistinctSize<T(!new)>(d: seq<T>)
    requires NoDuplicates(d)
    ensures |(set x | x in d)| == |d|
  {
    if d != [] {
      var init := d[..|d| - 1];
      assert NoDuplicates(init);
      DistinctSize(init);
      assert d == init + [d[|d| - 1]];
      assert (set x | x in d) == (set x | x in init) + {d[|d| - 1]};
      assert d[|d| - 1] !in init;
    }
  }

  /** `new Set(s).size`: `Dedup` keeps one copy of each distinct element. */
  lemma DedupSize<T(!new)>(s: seq<T>)
    ensures |Dedup(s)| == |(set x | x in s)|
  {
    DedupSpec(s);
    DistinctSize(Dedup(s));
    assert (set x | x in Dedup(s)) == (set x | x in s);
  }

  /** `Set.add`: append `x` unless it is already present. */
  function AddIfAbsent<T(==,!new)>(d: seq<T>, x: T): (r: seq<T>)
    ensures NoDuplicates(d) ==> NoDuplicates(r)
    ensures forall y :: y in r <==> y in d || y == x
  {
    if x in d then d else d + [x]
  }

  lemma DedupSnoc<T(!new)>(s: seq<T>, x: T)
    ensures Dedup(s + [x]) == AddIfAbsent(Dedup(s), x)
  {
    assert (s + [x])[..|s + [x]| - 1] == s;
  }

  lemma FirstIndexPrefix<T(!new)>(a: seq<T>, b: seq<T>, x: T)
    requires x in a
    ensures FirstIndex(a + b, x) == FirstIndex(a, x)
  {
    if a[0] != x {
      assert (a + b)[1..] == a[1..] + b;
      FirstIndexPrefix(a[1..], b, x);
    }
  }

  lemma FirstIndexLast<T(!new)>(a: seq<T>, x: T)
    requires x !in a
    ensures FirstIndex(a + [x], x) == |a|
  {
    if a != [] {
      assert (a + [x])[1..] == a[1..] + [x];
      FirstIndexLast(a[1..], x);
    }
  }

  /** Dedup lists the elements in the order of their first occurrence. */
  lemma {:induction false} DedupFirstOccurrenceOrder<T(!new)>(s: seq<T>)
    ensures forall x :: x in Dedup(s) ==> x in s
    ensures forall i, j :: 0 <= i < j < |Dedup(s)| ==>
      FirstIndex(s, Dedup(s)[i]) < FirstIndex(s, Dedup(s)[j])
  {
    DedupSpec(s);
    if s != [] {
      var init, last := s[..|s| - 1], s[|s| - 1];
      assert s == init + [last];
      DedupFirstOccurrenceOrder(init);
      DedupSpec(init);
      var d := Dedup(init);
      forall y | y in d ensures FirstIndex(s, y) == FirstIndex(init, y) < |init| {
        FirstIndexPrefix(init, [last], y);
      }
      if last !in d {
        FirstIndexLast(init, last);
      }
    }
  }

  /** A sequence without duplicates is its own Dedup. */
  lemma {:induction false} DedupOfDistinct<T(!new)>(s: seq<T>)
    requires NoDuplicates(s)
    ensures Dedup(s) == s
  {
    if s != [] {
      var init := s[..|s| - 1];
      assert NoDuplicates(init);
      DedupOfDistinct(init);
      assert s[|s| - 1] !in init;
      assert s == init + [s[|s| - 1]];
    }
  }

  /** Deduplicating a prefix first does not change the outcome. */
  lemma {:induction false} DedupAbsorbs<T(!new)>(a: seq<T>, b: seq<T>)
    ensures Dedup(Dedup(a) + b) == Dedup(a + b)
  {
    if b == [] {
      assert Dedup(a) + b == Dedup(a) && a + b == a;
      DedupSpec(a);
      DedupOfDistinct(Dedup(a));
    } else {
      var b', x := b[..|b| - 1], b[|b| - 1];
      assert b == b' + [x];
      DedupAbsorbs(a, b');
      assert Dedup(a) + b == (Dedup(a) + b') + [x];
      assert a + b == (a + b') + [x];
      DedupSnoc(Dedup(a) + b', x);
      DedupSnoc(a + b', x);
    }
  }

  /** The elements of `b` that do not occur in `a`, in order. */
  function Unseen<T(==,!new)>(b: seq<T>, a: seq<T>): (r: seq<T>)
    ensures forall x :: x in r <==> x in b && x !in a
  {
    if b == [] then []
    else
      var init := Unseen(b[..|b| - 1], a);
      assert forall x :: x in b <==> x in b[..|b| - 1] || x == b[|b| - 1];
      if b[|b| - 1] in a then init else init + [b[|b| - 1]]
  }

  lemma AddIfAbsentConcat<T(!new)>(a: seq<T>, d: seq<T>, x: T)
    requires x !in a
    ensures AddIfAbsent(a + d, x) == a + AddIfAbsent(d, x)
  {
    assert x in a + d <==> x in d;
  }

  /** `[...new Set([...a, ...b])]` is the distinct elements of `a` followed by
      the distinct elements of `b` that `a` does not already hold. */
  lemma {:induction false} DedupConcat<T(!new)>(a: seq<T>, b: seq<T>)
    ensures Dedup(a + b) == Dedup(a) + Dedup(Unseen(b, a))
  {
    if b == [] {
      assert a + b == a;
    } else {
      var b', x := b[..|b| - 1], b[|b| - 1];
      assert b == b' + [x];
      DedupConcat(a, b');
      assert a + b == (a + b') + [x];
      DedupSnoc(a + b', x);
      var d' := Dedup(Unseen(b', a));
      assert Dedup(a + b) == AddIfAbsent(Dedup(a) + d', x);
      DedupSpec(a);
      if x in a {
        assert Unseen(b, a) == Unseen(b', a);
        assert x in Dedup(a);
      } else {
        assert Unseen(b, a) == Unseen(b', a) + [x];
        DedupSnoc(Unseen(b', a), x);
        AddIfAbsentConcat(Dedup(a), d', x);
      }
    }
  }

  /** `s.filter(p)`. */
  function Filter<T(==,!new)>(s: seq<T>, p: T -> bool): (r: seq<T>)
    ensures |r| <= |s|
    ensures forall i :: 0 <= i < |r| ==> p(r[i])
    ensures forall i :: 0 <= i < |s| && p(s[i]) ==> s[i] in r
    ensures forall x :: x in r ==> x in s
  {
    if s == [] then []
    else (if p(s[0]) then [s[0]] else []) + Filter(s[1..], p)
  }

  /** A filter nothing passes keeps nothing. */
  lemma {:induction false} FilterNone<T(!new)>(s: seq<T>, p: T -> bool)
    requires forall i :: 0 <= i < |s| ==> !p(s[i])
    ensures Filter(s, p) == []
  {
    if s != [] {
      FilterNone(s[1..], p);
    }
  }

  lemma {:induction false} FilterKeepsDistinct<T(!new)>(s: seq<T>, p: T -> bool)
    ensures NoDuplicates(s) ==> NoDuplicates(Filter(s, p))
  {
    if s != [] && NoDuplicates(s) {
      assert NoDuplicates(s[1..]);
      FilterKeepsDistinct(s[1..], p);
      assert s[0] !in s[1..];
    }
  }

  lemma {:induction false} FilterKeepsAll<T(!new)>(s: seq<T>, p: T -> bool)
    requires forall i :: 0 <= i < |s| ==> p(s[i])
    ensures Filter(s, p) == s
  {
    if s != [] {
      FilterKeepsAll(s[1..], p);
    }
  }

  lemma {:induction false} FilterConcat<T(!new)>(a: seq<T>, b: seq<T>, p: T -> bool)
    ensures Filter(a + b, p) == Filter(a, p) + Filter(b, p)
  {
    if a != [] {
      var head := if p(a[0]) then [a[0]] else [];
      assert (a + b)[0] == a[0];
      assert (a + b)[1..] == a[1..] + b;
      FilterConcat(a[1..], b, p);
      assert Filter(a + b, p) == head + Filter(a[1..] + b, p);
      assert Filter(a, p) == head + Filter(a[1..], p);
    } else {
      assert a + b == b;
    }
  }

  lemma {:induction false} FilterCount<T(!new)>(s: seq<T>, p: T -> bool, x: T)
    ensures Count(Filter(s, p), x) == if p(x) then Count(s, x) else 0
  {
    if s != [] {
      FilterCount(s[1..], p, x);
      var head := if p(s[0]) then [s[0]] else [];
      assert Filter(s, p) == head + Filter(s[1..], p);
      assert multiset(Filter(s, p)) == multiset(head) + multiset(Filter(s[1..], p));
      assert s == [s[0]] + s[1..];
      assert multiset(s) == multiset{s[0]} + multiset(s[1..]);
    }
  }

  /** Filtering depends only on what the predicate says about the elements
      of the sequence. */
  lemma {:induction false} FilterSame<T(!new)>(s: seq<T>, p: T -> bool, q: T -> bool)
    requires forall i :: 0 <= i < |s| ==> p(s[i]) == q(s[i])
    ensures Filter(s, p) == Filter(s, q)
  {
    if s != [] {
      FilterSame(s[1..], p, q);
    }
  }

  /** In a sequence without repeats an element present occurs once, at its
      first index. */
  lemma {:induction false} CountDistinct<T(!new)>(s: seq<T>, i: nat)
    requires NoDuplicates(s) && i < |s|
    ensures Count(s, s[i]) == 1 && FirstIndex(s, s[i]) == i
  {
    assert s == s[..i] + [s[i]] + s[i + 1..];
    assert s[i] !in s[..i] && s[i] !in s[i + 1..];
    assert multiset(s) == multiset(s[..i]) + multiset{s[i]} + multiset(s[i + 1..]);
    var j := FirstIndex(s, s[i]);
    assert s[j] == s[i];
  }

  /** `a` can be obtained from `b` by deleting elements. */
  ghost predicate IsSubsequence<T(!new)>(a: seq<T>, b: seq<T>)
    decreases |b|
  {
    a == [] || (b != [] && ((a[0] == b[0] && IsSubsequence(a[1..], b[1..])) || IsSubsequence(a, b[1..])))
  }

  lemma {:induction false} FilterIsSubsequence<T(!new)>(s: seq<T>, p: T -> bool)
    ensures IsSubsequence(Filter(s, p), s)
  {
    if s != [] {
      FilterIsSubsequence(s[1..], p);
      if !p(s[0]) {
        assert Filter(s, p) == Filter(s[1..], p);
      }
    }
  }

  lemma {:induction false} PrefixIsSubsequence<T(!new)>(a: seq<T>, b: seq<T>)
    requires a <= b
    ensures IsSubsequence(a, b)
  {
    if a != [] {
      PrefixIsSubsequence(a[1..], b[1..]);
    }
  }

  lemma {:induction false} SubsequenceTransitive<T(!new)>(a: seq<T>, b: seq<T>, c: seq<T>)
    requires IsSubsequence(a, b) && IsSubsequence(b, c)
    ensures IsSubsequence(a, c)
    decreases |c|
  {
    if a != [] {
      if b[0] == c[0] && IsSubsequence(b[1..], c[1..]) {
        if a[0] == b[0] && IsSubsequence(a[1..], b[1..]) {
          SubsequenceTransitive(a[1..], b[1..], c[1..]);
        } else {
          SubsequenceTransitive(a, b[1..], c[1..]);
        }
      } else {
        SubsequenceTransitive(a, b, c[1..]);
      }
    }
  }

  /** `s.filter(y => y !== x)`. */
  function RemoveAll<T(==,!new)>(s: seq<T>, x: T): (r: seq<T>)
    ensures x !in r
    ensures forall y :: y != x ==> Count(r, y) == Count(s, y)
    ensures IsSubsequence(r, s)
    ensures NoDuplicates(s) ==> NoDuplicates(r)
  {
    var r := Filter(s, y => y != x);
    FilterIsSubsequence(s, y => y != x);
    FilterKeepsDistinct(s, y => y != x);
    forall y | y != x ensures Count(r, y) == Count(s, y) {
      FilterCount(s, y => y != x, y);
    }
    r
  }

  lemma RemoveAllAbsent<T(!new)>(s: seq<T>, x: T)
    requires x !in s
    ensures RemoveAll(s, x) == s
  {
    FilterKeepsAll(s, y => y != x);
  }

  /** Slicing a suffix is slicing the whole sequence further on. */
  lemma SliceOfSuffix<T>(s: seq<T>, i: nat, j: nat)
    requires i + j <= |s|
    ensures s[i..][..j] == s[i..i + j] && s[i..][j..] == s[i + j..]
  {
  }

  /** `s.slice(0, n)`. */
  function Take<T(==,!new)>(s: seq<T>, n: nat): (r: seq<T>)
    ensures |r| == if n < |s| then n else |s|
    ensures r <= s
  {
    if n < |s| then s[..n] else s
  }

  /** `ts.includes(t) ? ts.filter(x => x !== t) : [...ts, t]`. */
  function Toggle<T(==,!new)>(ts: seq<T>, t: T): (r: seq<T>)
    ensures forall x :: x in r <==> if x == t then t !in ts else x in ts
    ensures NoDuplicates(ts) ==> NoDuplicates(r)
  {
    if t in ts then RemoveAll(ts, t) else ts + [t]
  }

  /** Toggling the same element twice restores membership of every element,
      and restores the sequence itself when the element was absent. */
  lemma ToggleTwice<T(!new)>(ts: seq<T>, t: T)
    ensures forall x :: x in Toggle(Toggle(ts, t), t) <==> x in ts
    ensures t !in ts ==> Toggle(Toggle(ts, t), t) == ts
  {
    if t !in ts {
      var u := ts + [t];
      assert t in u;
      assert Filter(u, y => y != t) == Filter(ts, y => y != t) by {
        FilterConcat(ts, [t], y => y != t);
      }
      RemoveAllAbsent(ts, t);
    }
  }

  /** The sum of `f` over the elements of `s`. */
  function Sum<T>(s: seq<T>, f: T -> int): int {
    if s == [] then 0 else f(s[0]) + Sum(s[1..], f)
  }

  lemma {:induction false} SumConcat<T>(a: seq<T>, b: seq<T>, f: T -> int)
    ensures Sum(a + b, f) == Sum(a, f) + Sum(b, f)
  {
    if a == [] {
      assert a + b == b;
    } else {
      assert (a + b)[0] == a[0] && (a + b)[1..] == a[1..] + b;
      SumConcat(a[1..], b, f);
    }
  }

  /** A sum does not depend on the order of its terms. */
  lemma {:induction false} SumPermutation<T(!new)>(a: seq<T>, b: seq<T>, f: T -> int)
    requires multiset(a) == multiset(b)
    ensures Sum(a, f) == Sum(b, f)
  {
    if a == [] {
      assert |b| == |multiset(b)| == 0;
    } else {
      assert a[0] in multiset(b);
      var k :| 0 <= k < |b| && b[k] == a[0];
      RemoveOne(a, b, k);
      SumPermutation(a[1..], b[..k] + b[k + 1..], f);
      SumRemove(b, k, f);
    }
  }

  /** Taking the first element from `a` and an equal one from `b` keeps the
      multisets equal. */
  lemma RemoveOne<T>(a: seq<T>, b: seq<T>, k: nat)
    requires multiset(a) == multiset(b) && a != [] && k < |b| && b[k] == a[0]
    ensures multiset(a[1..]) == multiset(b[..k] + b[k + 1..])
  {
    assert a == [a[0]] + a[1..];
    assert b == b[..k] + [b[k]] + b[k + 1..];
    forall y ensures multiset(a[1..])[y] == multiset(b[..k] + b[k + 1..])[y] {
      assert multiset(a)[y] == multiset(b)[y];
    }
  }

  lemma SumRemove<T>(b: seq<T>, k: nat, f: T -> int)
    requires k < |b|
    ensures Sum(b, f) == f(b[k]) + Sum(b[..k] + b[k + 1..], f)
  {
    var pre, rest := b[..k], [b[k]] + b[k + 1..];
    assert b == pre + rest;
    assert rest[0] == b[k] && rest[1..] == b[k + 1..];
    SumConcat(pre, rest, f);
    SumConcat(pre, b[k + 1..], f);
  }
}
