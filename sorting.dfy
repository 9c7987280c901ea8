/** `Array.prototype.sort` with a comparison function, as a stable
    insertion sort. The engine's sort is stable too; for a comparison
    function that is a total preorder every stable sort produces the same
    order. */
module Sorting {
  import opened Lists

  /** The comparison function answers consistently for swapped arguments:
      if `a` does not come before `b`, then `b` does not come after `a`. */
  ghost predicate Consistent<T(!new)>(cmp: (T, T) -> int) {
    forall a, b :: cmp(a, b) >= 0 ==> cmp(b, a) <= 0
  }

  /** Every neighbour pair is in order under `cmp`. */
  ghost predicate Sorted<T>(s: seq<T>, cmp: (T, T) -> int) {
    forall i :: 0 <= i < |s| - 1 ==> cmp(s[i], s[i + 1]) <= 0
  }

  /** Places `x` after every leading element that it does not precede, so
      that an element inserted later goes behind the equal ones. */
  function Insert<T>(x: T, s: seq<T>, cmp: (T, T) -> int): (r: seq<T>)
    ensures |r| == |s| + 1
    ensures r[0] == x || (s != [] && r[0] == s[0])
  {
    if s == [] || cmp(x, s[0]) < 0 then [x] + s
    else [s[0]] + Insert(x, s[1..], cmp)
  }

  /** The stable sort of `s` under `cmp`. */
  function SortBy<T>(s: seq<T>, cmp: (T, T) -> int): seq<T> {
    if s == [] then [] else Insert(s[|s| - 1], SortBy(s[..|s| - 1], cmp), cmp)
  }

  lemma {:induction false} InsertPermutes<T>(x: T, s: seq<T>, cmp: (T, T) -> int)
    ensures multiset(Insert(x, s, cmp)) == multiset(s) + multiset{x}
  {
    if s != [] && cmp(x, s[0]) >= 0 {
      InsertPermutes(x, s[1..], cmp);
      assert s == [s[0]] + s[1..];
    }
  }

  /** `cmp` answers consistently for swapped elements of `d`. */
  ghost predicate ConsistentOn<T(!new)>(d: seq<T>, cmp: (T, T) -> int) {
    forall a, b :: a in d && b in d && cmp(a, b) >= 0 ==> cmp(b, a) <= 0
  }

  /** Every element of `s` is an element of `d`. */
  ghost predicate Within<T(!new)>(s: seq<T>, d: seq<T>) {
    forall x :: x in s ==> x in d
  }

  lemma {:induction false} InsertSorted<T(!new)>(x: T, s: seq<T>, cmp: (T, T) -> int, d: seq<T>)
    requires ConsistentOn(d, cmp) && x in d && Within(s, d) && Sorted(s, cmp)
    ensures Sorted(Insert(x, s, cmp), cmp)
  {
    if s != [] && cmp(x, s[0]) >= 0 {
      var t := Insert(x, s[1..], cmp);
      InsertSorted(x, s[1..], cmp, d);
      assert s[0] in d;
      assert cmp(s[0], x) <= 0;
      assert [s[0]] + t == Insert(x, s, cmp);
    }
  }

  /** The sorted sequence is a permutation of the input. */
  lemma {:induction false} SortPermutes<T>(s: seq<T>, cmp: (T, T) -> int)
    ensures multiset(SortBy(s, cmp)) == multiset(s)
  {
    if s != [] {
      SortPermutes(s[..|s| - 1], cmp);
      InsertPermutes(s[|s| - 1], SortBy(s[..|s| - 1], cmp), cmp);
      assert s == s[..|s| - 1] + [s[|s| - 1]];
    }
  }

  /** The sorted sequence holds the elements of the input. */
  lemma SortMembers<T>(s: seq<T>, cmp: (T, T) -> int)
    ensures forall x :: x in SortBy(s, cmp) <==> x in s
  {
    SortPermutes(s, cmp);
    forall x ensures x in SortBy(s, cmp) <==> x in s {
      assert x in SortBy(s, cmp) <==> x in multiset(SortBy(s, cmp));
      assert x in s <==> x in multiset(s);
    }
  }

  /** The sorted sequence is in order when the comparison function answers
      consistently for swapped elements of the input. */
  lemma SortSortsOn<T(!new)>(s: seq<T>, cmp: (T, T) -> int, d: seq<T>)
    requires ConsistentOn(d, cmp) && Within(s, d)
    ensures Sorted(SortBy(s, cmp), cmp)
  {
    if s != [] {
      var init := s[..|s| - 1];
      assert Within(init, d) by {
        forall x | x in init ensures x in d {
          assert x in s;
        }
      }
      SortSortsOn(init, cmp, d);
      SortMembers(init, cmp);
      InsertSorted(s[|s| - 1], SortBy(init, cmp), cmp, d);
    }
  }

  /** The sorted sequence is in order. */
  lemma SortSorts<T(!new)>(s: seq<T>, cmp: (T, T) -> int)
    requires Consistent(cmp)
    ensures Sorted(SortBy(s, cmp), cmp)
  {
    SortSortsOn(s, cmp, s);
  }

  /** `cmp` orders the elements of `d` as a total preorder: `cmp(a, b)` and
      `cmp(b, a)` have opposite signs, and "not after" is transitive. This
      is what the definition of Array.prototype.sort in ECMA-262 calls a
      consistent comparator, on the elements of `d`. */
  ghost predicate TotalPreorderOn<T(!new)>(d: seq<T>, cmp: (T, T) -> int) {
    (forall a, b :: a in d && b in d ==> (cmp(a, b) < 0 <==> cmp(b, a) > 0))
    && (forall a, b, c {:trigger cmp(a, b), cmp(b, c), cmp(a, c)} ::
          a in d && b in d && c in d && cmp(a, b) <= 0 && cmp(b, c) <= 0 ==> cmp(a, c) <= 0)
  }

  /** The elements that tie with `y`. */
  function Ties<T>(cmp: (T, T) -> int, y: T): T -> bool {
    x => cmp(x, y) == 0
  }

  /** Elements that tie come out of the sort in their order in `s`. */
  ghost predicate KeepsTieOrder<T(!new)>(sorted: seq<T>, s: seq<T>, cmp: (T, T) -> int) {
    forall y :: y in s ==> Filter(sorted, Ties(cmp, y)) == Filter(s, Ties(cmp, y))
  }

  /** In a sorted sequence the first element comes before every other. */
  lemma {:induction false} SortedFirst<T(!new)>(t: seq<T>, cmp: (T, T) -> int, d: seq<T>)
    requires TotalPreorderOn(d, cmp) && Within(t, d) && Sorted(t, cmp) && t != []
    ensures forall i :: 0 <= i < |t| ==> cmp(t[0], t[i]) <= 0
  {
    assert t[0] in d;
    if |t| > 1 {
      SortedFirst(t[1..], cmp, d);
      forall i | 1 <= i < |t| ensures cmp(t[0], t[i]) <= 0 {
        assert t[1..][i - 1] == t[i];
        assert t[1] in d && t[i] in d;
        assert cmp(t[0], t[1]) <= 0;
      }
    }
  }

  /** Inserting `x` into a sorted sequence puts it behind every element
      that ties with it, and keeps the tied elements' order. */
  lemma {:induction false} InsertStable<T(!new)>(x: T, t: seq<T>, cmp: (T, T) -> int, y: T, d: seq<T>)
    requires TotalPreorderOn(d, cmp) && x in d && y in d && Within(t, d) && Sorted(t, cmp)
    ensures Filter(Insert(x, t, cmp), Ties(cmp, y)) == Filter(t, Ties(cmp, y)) + (if cmp(x, y) == 0 then [x] else [])
  {
    if t == [] {
      assert Insert(x, t, cmp) == [x];
      FilterSingle(x, Ties(cmp, y));
    } else if cmp(x, t[0]) < 0 {
      InsertFront(x, t, cmp, y, d);
    } else {
      TailSortedWithin(t, cmp, d);
      InsertStable(x, t[1..], cmp, y, d);
      InsertBehind(x, t, cmp, y);
    }
  }

  /** Inserting in front of a sorted sequence: `x` either ties with `y`,
      and then nothing in the sequence does, or it does not count. */
  lemma InsertFront<T(!new)>(x: T, t: seq<T>, cmp: (T, T) -> int, y: T, d: seq<T>)
    requires TotalPreorderOn(d, cmp) && x in d && y in d && Within(t, d) && Sorted(t, cmp)
    requires t != [] && cmp(x, t[0]) < 0
    ensures Filter(Insert(x, t, cmp), Ties(cmp, y)) == Filter(t, Ties(cmp, y)) + (if cmp(x, y) == 0 then [x] else [])
  {
    var p := Ties(cmp, y);
    assert Insert(x, t, cmp) == [x] + t;
    FilterConcat([x], t, p);
    FilterSingle(x, p);
    if p(x) {
      NoTieBehind(x, t, cmp, y, d);
    }
  }

  /** Inserting behind the head: the head's contribution is unchanged. */
  lemma InsertBehind<T(!new)>(x: T, t: seq<T>, cmp: (T, T) -> int, y: T)
    requires t != [] && cmp(x, t[0]) >= 0
    requires Filter(Insert(x, t[1..], cmp), Ties(cmp, y)) == Filter(t[1..], Ties(cmp, y)) + (if cmp(x, y) == 0 then [x] else [])
    ensures Filter(Insert(x, t, cmp), Ties(cmp, y)) == Filter(t, Ties(cmp, y)) + (if cmp(x, y) == 0 then [x] else [])
  {
    var p := Ties(cmp, y);
    var s := Insert(x, t, cmp);
    var head := if p(t[0]) then [t[0]] else [];
    var tail := Filter(t[1..], p);
    var added := if cmp(x, y) == 0 then [x] else [];
    assert s[0] == t[0] && s[1..] == Insert(x, t[1..], cmp);
    assert Filter(s, p) == head + Filter(s[1..], p);
    assert Filter(t, p) == head + tail;
    ConcatAssoc(head, tail, added);
  }

  lemma ConcatAssoc<T>(a: seq<T>, b: seq<T>, c: seq<T>)
    ensures a + (b + c) == (a + b) + c
  {
  }

  lemma TailSortedWithin<T(!new)>(t: seq<T>, cmp: (T, T) -> int, d: seq<T>)
    requires Within(t, d) && Sorted(t, cmp) && t != []
    ensures Within(t[1..], d) && Sorted(t[1..], cmp)
  {
    forall z | z in t[1..] ensures z in d {
      assert z in t;
    }
  }

  /** When `x` ties with `y` and comes before the head of a sorted
      sequence, nothing in the sequence ties with `y`. */
  lemma NoTieBehind<T(!new)>(x: T, t: seq<T>, cmp: (T, T) -> int, y: T, d: seq<T>)
    requires TotalPreorderOn(d, cmp) && x in d && y in d && Within(t, d) && Sorted(t, cmp)
    requires t != [] && cmp(x, t[0]) < 0 && cmp(x, y) == 0
    ensures Filter(t, Ties(cmp, y)) == []
  {
    var p := Ties(cmp, y);
    SortedFirst(t, cmp, d);
    assert cmp(y, x) == 0;
    forall i | 0 <= i < |t| ensures !p(t[i]) {
      assert t[0] in d && t[i] in d;
      assert cmp(t[0], t[i]) <= 0 && cmp(t[0], x) > 0;
      assert cmp(t[i], x) > 0;
    }
    FilterNone(t, p);
  }

  lemma {:induction false} SortStableOn<T(!new)>(s: seq<T>, cmp: (T, T) -> int, y: T, d: seq<T>)
    requires TotalPreorderOn(d, cmp) && y in d && Within(s, d)
    ensures Filter(SortBy(s, cmp), Ties(cmp, y)) == Filter(s, Ties(cmp, y))
  {
    if s != [] {
      var init, last := s[..|s| - 1], s[|s| - 1];
      WithinInit(s, d);
      SortStableOn(init, cmp, y, d);
      InsertLast(init, last, cmp, y, d);
      assert s == init + [last];
      FilterConcat(init, [last], Ties(cmp, y));
      FilterSingle(last, Ties(cmp, y));
    }
  }

  lemma FilterSingle<T(!new)>(x: T, p: T -> bool)
    ensures Filter([x], p) == if p(x) then [x] else []
  {
    assert [x][1..] == [];
  }

  lemma WithinInit<T(!new)>(s: seq<T>, d: seq<T>)
    requires Within(s, d) && s != []
    ensures Within(s[..|s| - 1], d)
  {
    forall x | x in s[..|s| - 1] ensures x in d {
      assert x in s;
    }
  }

  /** One step of the sort: inserting the last element into the sorted
      rest. */
  lemma InsertLast<T(!new)>(init: seq<T>, last: T, cmp: (T, T) -> int, y: T, d: seq<T>)
    requires TotalPreorderOn(d, cmp) && y in d && last in d && Within(init, d)
    ensures Filter(Insert(last, SortBy(init, cmp), cmp), Ties(cmp, y))
            == Filter(SortBy(init, cmp), Ties(cmp, y)) + (if cmp(last, y) == 0 then [last] else [])
  {
    assert ConsistentOn(d, cmp);
    SortSortsOn(init, cmp, d);
    SortMembers(init, cmp);
    InsertStable(last, SortBy(init, cmp), cmp, y, d);
  }

  /** The sort is stable: for a comparison function that is a total
      preorder on the input, the elements that tie with any one element come
      out in the order they have in the input. */
  lemma SortStable<T(!new)>(s: seq<T>, cmp: (T, T) -> int)
    requires TotalPreorderOn(s, cmp)
    ensures KeepsTieOrder(SortBy(s, cmp), s, cmp)
  {
    forall y | y in s ensures Filter(SortBy(s, cmp), Ties(cmp, y)) == Filter(s, Ties(cmp, y)) {
      SortStableOn(s, cmp, y, s);
    }
  }

  /** `SortBy` keeps the length and the elements. */
  lemma SortLength<T>(s: seq<T>, cmp: (T, T) -> int)
    ensures |SortBy(s, cmp)| == |s|
  {
    SortPermutes(s, cmp);
    assert |multiset(SortBy(s, cmp))| == |multiset(s)|;
  }
}
