/**
 * The JavaScript array operations the pages are built from, over `seq`:
 * `filter`, `find`, `map`, dropping `undefined` entries, `[...new Set(xs)]`
 * and `sort` with a comparator. `Array.prototype.sort` is required to be
 * stable (section 22.1.3.27 of ECMA-262, 10th edition); it is modelled as
 * an insertion sort, which places each element after every earlier element
 * it does not strictly precede.
 */
module JsArray {
  import opened Wrappers

  /** `a` is `b` with some elements deleted, in the same order. */
  ghost predicate IsSubsequence<T(!new)>(a: seq<T>, b: seq<T>)
    decreases |b|
  {
    a == [] || (b != [] && ((a[0] == b[0] && IsSubsequence(a[1..], b[1..])) || IsSubsequence(a, b[1..])))
  }

  /** `s.filter(p)`: the elements satisfying `p`, each as often as in `s`, in the order of `s`. */
  function Filter<T(!new)>(s: seq<T>, p: T -> bool): (r: seq<T>)
    ensures |r| <= |s|
  {
    if s == [] then []
    else if p(s[0]) then [s[0]] + Filter(s[1..], p)
    else Filter(s[1..], p)
  }

  /** The filtered sequence holds exactly the elements of `s` that satisfy `p`. */
  lemma {:induction false} FilterMembers<T(!new)>(s: seq<T>, p: T -> bool)
    ensures forall x :: x in Filter(s, p) <==> x in s && p(x)
  {
    if s != [] {
      FilterMembers(s[1..], p);
      assert s == [s[0]] + s[1..];
    }
  }

  /** Filtering keeps each passing element exactly as often as it occurs, and no other. */
  lemma {:induction false} FilterMultiset<T(!new)>(s: seq<T>, p: T -> bool)
    ensures forall x :: multiset(Filter(s, p))[x] == if p(x) then multiset(s)[x] else 0
  {
    if s != [] {
      FilterMultiset(s[1..], p);
      assert s == [s[0]] + s[1..];
    }
  }

  /** Filtering keeps the order of the elements it keeps. */
  lemma {:induction false} FilterSubsequence<T(!new)>(s: seq<T>, p: T -> bool)
    ensures IsSubsequence(Filter(s, p), s)
  {
    if s != [] {
      FilterSubsequence(s[1..], p);
      if p(s[0]) {
        assert Filter(s, p)[1..] == Filter(s[1..], p);
      }
    }
  }

  /** Filtering commutes with concatenation. */
  lemma {:induction false} FilterConcat<T(!new)>(a: seq<T>, b: seq<T>, p: T -> bool)
    ensures Filter(a + b, p) == Filter(a, p) + Filter(b, p)
  {
    if a == [] {
      assert a + b == b;
    } else {
      FilterConcat(a[1..], b, p);
      assert (a + b)[0] == a[0] && (a + b)[1..] == a[1..] + b;
      if p(a[0]) {
        calc {
          Filter(a + b, p);
          [a[0]] + Filter(a[1..] + b, p);
          [a[0]] + (Filter(a[1..], p) + Filter(b, p));
          ([a[0]] + Filter(a[1..], p)) + Filter(b, p);
        }
      }
    }
  }

  /** Filters with predicates that agree on every element give the same result. */
  lemma {:induction false} FilterSamePredicate<T(!new)>(s: seq<T>, p: T -> bool, q: T -> bool)
    requires forall x :: x in s ==> p(x) == q(x)
    ensures Filter(s, p) == Filter(s, q)
  {
    if s != [] {
      FilterSamePredicate(s[1..], p, q);
    }
  }

  /** A filter that no element passes keeps nothing. */
  lemma {:induction false} FilterNone<T(!new)>(s: seq<T>, p: T -> bool)
    requires forall x :: x in s ==> !p(x)
    ensures Filter(s, p) == []
  {
    if s != [] {
      FilterNone(s[1..], p);
    }
  }

  /** A filter that every element passes keeps the whole sequence. */
  lemma {:induction false} FilterKeepsAll<T(!new)>(s: seq<T>, p: T -> bool)
    requires forall x :: x in s ==> p(x)
    ensures Filter(s, p) == s
  {
    if s != [] {
      FilterKeepsAll(s[1..], p);
    }
  }

  /** An element failing `p` makes the filtered sequence strictly shorter. */
  lemma {:induction false} FilterDropsSome<T(!new)>(s: seq<T>, p: T -> bool, x: T)
    requires x in s && !p(x)
    ensures |Filter(s, p)| < |s|
  {
    if s[0] != x {
      FilterDropsSome(s[1..], p, x);
    }
  }

  /** `FilterKeepsAll`, with the premise stated by index. */
  lemma FilterKeepsEvery<T(!new)>(s: seq<T>, p: T -> bool)
    requires forall i :: 0 <= i < |s| ==> p(s[i])
    ensures Filter(s, p) == s
  {
    FilterKeepsAll(s, p);
  }

  /** An element that passes splits the filtered sequence around it. */
  lemma FilterSplitAt<T(!new)>(s: seq<T>, p: T -> bool, j: nat)
    requires j < |s| && p(s[j])
    ensures Filter(s, p) == Filter(s[..j], p) + ([s[j]] + Filter(s[j + 1..], p))
  {
    var a, b := s[..j], s[j + 1..];
    assert s[j..] == [s[j]] + b;
    assert s == a + s[j..];
    FilterConcat(a, s[j..], p);
    FilterCons(s[j], b, p);
  }

  /** `FilterNone`, with the premise stated by index. */
  lemma FilterNoneAt<T(!new)>(s: seq<T>, p: T -> bool)
    requires forall i :: 0 <= i < |s| ==> !p(s[i])
    ensures Filter(s, p) == []
  {
    FilterNone(s, p);
  }

  /** Filtering keeps exactly the one element that passes, when no other one does. */
  lemma FilterOne<T(!new)>(s: seq<T>, p: T -> bool, j: nat)
    requires j < |s| && p(s[j])
    requires forall i :: 0 <= i < |s| && i != j ==> !p(s[i])
    ensures Filter(s, p) == [s[j]]
  {
    var a, b := s[..j], s[j + 1..];
    assert forall i :: 0 <= i < |a| ==> a[i] == s[i];
    assert forall i :: 0 <= i < |b| ==> b[i] == s[j + 1 + i];
    FilterNoneAt(a, p);
    FilterNoneAt(b, p);
    FilterSplitAt(s, p, j);
    assert [] + ([s[j]] + []) == [s[j]];
  }

  /** Filtering keeps exactly the two elements that pass, in order, when no other one does. */
  lemma FilterTwo<T(!new)>(s: seq<T>, p: T -> bool, j: nat, k: nat)
    requires j < k < |s| && p(s[j]) && p(s[k])
    requires forall i :: 0 <= i < |s| && i != j && i != k ==> !p(s[i])
    ensures Filter(s, p) == [s[j], s[k]]
  {
    var a, t := s[..j], s[j + 1..];
    assert forall i :: 0 <= i < |a| ==> a[i] == s[i];
    assert forall i :: 0 <= i < |t| ==> t[i] == s[j + 1 + i];
    FilterNoneAt(a, p);
    FilterOne(t, p, k - j - 1);
    FilterSplitAt(s, p, j);
    assert [] + ([s[j]] + [s[k]]) == [s[j], s[k]];
  }

  /** `s.find(p)`: the first element satisfying `p`, or `undefined`. */
  function Find<T(!new)>(s: seq<T>, p: T -> bool): (r: Option<T>)
    ensures r.None? <==> forall i :: 0 <= i < |s| ==> !p(s[i])
    ensures r.Some? ==> exists i :: 0 <= i < |s| && s[i] == r.value && p(s[i]) && forall j :: 0 <= j < i ==> !p(s[j])
  {
    if s == [] then None
    else if p(s[0]) then Some(s[0])
    else
      var r := Find(s[1..], p);
      assert r.Some? ==> exists i :: 1 <= i < |s| && s[i] == r.value && p(s[i]) && forall j :: 0 <= j < i ==> !p(s[j]) by {
        if r.Some? {
          var k :| 0 <= k < |s[1..]| && s[1..][k] == r.value && p(s[1..][k]) && forall j :: 0 <= j < k ==> !p(s[1..][j]);
          assert forall j :: 1 <= j < k + 1 ==> s[j] == s[1..][j - 1];
        }
      }
      r
  }

  /** `find` returns the element at the first index satisfying `p`. */
  lemma FindAt<T(!new)>(s: seq<T>, p: T -> bool, k: nat)
    requires k < |s| && p(s[k]) && forall j :: 0 <= j < k ==> !p(s[j])
    ensures Find(s, p) == Some(s[k])
  {
  }

  /** Searching `a + b` finds the first match in `a`, and only when there is none, the first in `b`. */
  lemma {:induction false} FindConcat<T(!new)>(a: seq<T>, b: seq<T>, p: T -> bool)
    ensures Find(a + b, p) == if Find(a, p).Some? then Find(a, p) else Find(b, p)
  {
    if a != [] {
      assert (a + b)[1..] == a[1..] + b;
      FindConcat(a[1..], b, p);
    } else {
      assert a + b == b;
    }
  }

  /** `s.map(f)` */
  function Map<T, U>(s: seq<T>, f: T -> U): (r: seq<U>)
    ensures |r| == |s|
    ensures forall i :: 0 <= i < |s| ==> r[i] == f(s[i])
  {
    seq(|s|, i requires 0 <= i < |s| => f(s[i]))
  }

  /** Filtering mapped values is mapping the elements whose image passes the filter. */
  lemma {:induction false} FilterMap<T(!new), U(!new)>(s: seq<T>, f: T -> U, p: U -> bool, q: T -> bool)
    requires forall x :: q(x) == p(f(x))
    ensures Filter(Map(s, f), p) == Map(Filter(s, q), f)
  {
    if s != [] {
      var m := Map(s, f);
      assert m[0] == f(s[0]) && m[1..] == Map(s[1..], f);
      FilterMap(s[1..], f, p, q);
      if q(s[0]) {
        var t := Filter(s[1..], q);
        assert Map([s[0]] + t, f) == [f(s[0])] + Map(t, f);
      }
    }
  }

  /** `s.filter(x => x !== undefined)`: the present values, in order. */
  function Defined<T(!new)>(s: seq<Option<T>>): (r: seq<T>)
    ensures |r| <= |s|
    ensures forall x :: x in r <==> Some(x) in s
    ensures |r| == |s| <==> forall i :: 0 <= i < |s| ==> s[i].Some?
    ensures |r| == |s| ==> forall i :: 0 <= i < |s| ==> r[i] == s[i].value
  {
    if s == [] then []
    else
      assert s == [s[0]] + s[1..];
      (if s[0].Some? then [s[0].value] else []) + Defined(s[1..])
  }

  /** The present values after mapping are exactly the values some element maps to. */
  lemma DefinedMapMembers<T, U(!new)>(s: seq<T>, f: T -> Option<U>)
    ensures forall y :: y in Defined(Map(s, f)) <==> exists i :: 0 <= i < |s| && f(s[i]) == Some(y)
  {
    var m := Map(s, f);
    forall y | y in Defined(m)
      ensures exists i :: 0 <= i < |s| && f(s[i]) == Some(y)
    {
      var i :| 0 <= i < |m| && m[i] == Some(y);
    }
    forall y, i | 0 <= i < |s| && f(s[i]) == Some(y)
      ensures y in Defined(m)
    {
      assert m[i] == Some(y);
    }
  }

  /** The position of the first occurrence of `x` in `s`. */
  ghost function IndexOf<T(!new)>(s: seq<T>, x: T): (i: nat)
    requires x in s
    ensures i < |s| && s[i] == x && x !in s[..i]
  {
    if s[0] == x then 0 else 1 + IndexOf(s[1..], x)
  }

  /** Appending elements does not move the first occurrence of an element already present. */
  lemma {:induction false} IndexOfInPrefix<T(!new)>(s: seq<T>, k: nat)
    requires k <= |s|
    ensures forall x :: x in s[..k] ==> IndexOf(s, x) == IndexOf(s[..k], x)
  {
    forall x | x in s[..k]
      ensures IndexOf(s, x) == IndexOf(s[..k], x)
    {
      var i := IndexOf(s[..k], x);
      assert s[..k][..i] == s[..i];
    }
  }

  /** In a sequence without repeats, the first two elements differ. */
  lemma FirstTwoDiffer<T>(r: seq<T>)
    requires |r| > 1 && forall i, j :: 0 <= i < j < |r| ==> r[i] != r[j]
    ensures r[0] != r[1]
  {
  }

  /** `[...new Set(s)]`: each distinct element once, in order of first occurrence. */
  function Distinct<T(==,!new)>(s: seq<T>): (r: seq<T>)
    ensures forall x :: x in r <==> x in s
    ensures forall i, j :: 0 <= i < j < |r| ==> r[i] != r[j]
    ensures forall i, j :: 0 <= i < j < |r| ==> IndexOf(s, r[i]) < IndexOf(s, r[j])
  {
    if s == [] then []
    else
      var init, last := s[..|s| - 1], s[|s| - 1];
      assert s == init + [last];
      var d := Distinct(init);
      IndexOfInPrefix(s, |s| - 1);
      assert last !in init ==> IndexOf(s, last) == |s| - 1;
      if last in d then d else d + [last]
  }

  /**
   * What `Array.prototype.sort` asks of a comparator (a "consistent comparator"):
   * swapping the arguments flips the sign, and "sorts no later than" (a
   * non-positive answer) is transitive.
   */
  ghost predicate ValidComparator<T(!new)>(cmp: (T, T) -> int) {
    && (forall a, b :: cmp(a, b) < 0 <==> cmp(b, a) > 0)
    && (forall a, b, c :: cmp(a, b) <= 0 && cmp(b, c) <= 0 ==> cmp(a, c) <= 0)
  }

  /** No element sorts after a later one. */
  ghost predicate SortedBy<T(!new)>(s: seq<T>, cmp: (T, T) -> int) {
    forall i, j :: 0 <= i < j < |s| ==> cmp(s[i], s[j]) <= 0
  }

  /** Inserts `x` before the first element it strictly precedes. */
  function Insert<T(!new)>(x: T, s: seq<T>, cmp: (T, T) -> int): (r: seq<T>)
    ensures |r| == |s| + 1
    ensures multiset(r) == multiset(s) + multiset{x}
  {
    if s == [] then [x]
    else if cmp(x, s[0]) < 0 then [x] + s
    else
      assert s == [s[0]] + s[1..];
      [s[0]] + Insert(x, s[1..], cmp)
  }

  /** `s.slice().sort(cmp)`: a permutation of `s`. */
  function SortBy<T(!new)>(s: seq<T>, cmp: (T, T) -> int): (r: seq<T>)
    ensures |r| == |s|
    ensures multiset(r) == multiset(s)
  {
    if s == [] then []
    else
      assert s == s[..|s| - 1] + [s[|s| - 1]];
      Insert(s[|s| - 1], SortBy(s[..|s| - 1], cmp), cmp)
  }

  lemma {:induction false} InsertSorted<T(!new)>(x: T, s: seq<T>, cmp: (T, T) -> int)
    requires ValidComparator(cmp) && SortedBy(s, cmp)
    ensures SortedBy(Insert(x, s, cmp), cmp)
  {
    if s != [] && cmp(x, s[0]) >= 0 {
      InsertSorted(x, s[1..], cmp);
      var r := Insert(x, s, cmp);
      assert r == [s[0]] + Insert(x, s[1..], cmp);
      forall j | 1 <= j < |r|
        ensures cmp(r[0], r[j]) <= 0
      {
        assert r[j] in multiset(Insert(x, s[1..], cmp));
        assert r[j] == x || r[j] in s[1..];
      }
    }
  }

  /** The result of `sort` is ordered by the comparator. */
  lemma {:induction false} SortBySorted<T(!new)>(s: seq<T>, cmp: (T, T) -> int)
    requires ValidComparator(cmp)
    ensures SortedBy(SortBy(s, cmp), cmp)
  {
    if s != [] {
      SortBySorted(s[..|s| - 1], cmp);
      InsertSorted(s[|s| - 1], SortBy(s[..|s| - 1], cmp), cmp);
    }
  }

  /** Every pair of elements satisfying `p` compares as equal: `p` picks out one class of ties. */
  ghost predicate AllTied<T(!new)>(p: T -> bool, cmp: (T, T) -> int) {
    forall a, b :: p(a) && p(b) ==> cmp(a, b) == 0
  }

  /** The elements that compare equal to `x`. */
  function TiedWith<T(!new)>(cmp: (T, T) -> int, x: T): T -> bool {
    y => cmp(y, x) == 0
  }

  lemma TiedWithIsTieClass<T(!new)>(cmp: (T, T) -> int, x: T)
    requires ValidComparator(cmp)
    ensures AllTied(TiedWith(cmp, x), cmp)
  {
    forall a, b | cmp(a, x) == 0 && cmp(b, x) == 0
      ensures cmp(a, b) == 0
    {
      assert cmp(x, b) == 0 && cmp(x, a) == 0;
    }
  }

  lemma FilterCons<T(!new)>(x: T, t: seq<T>, p: T -> bool)
    ensures Filter([x] + t, p) == (if p(x) then [x] else []) + Filter(t, p)
  {
    assert ([x] + t)[0] == x && ([x] + t)[1..] == t;
  }

  /** In a sorted sequence, an element strictly preceding the head strictly precedes every element. */
  lemma PrecedesAll<T(!new)>(x: T, s: seq<T>, cmp: (T, T) -> int)
    requires ValidComparator(cmp) && SortedBy(s, cmp)
    requires s != [] && cmp(x, s[0]) < 0
    ensures forall j :: 0 <= j < |s| ==> cmp(x, s[j]) < 0
  {
    forall j | 0 < j < |s|
      ensures cmp(x, s[j]) < 0
    {
      assert cmp(s[0], s[j]) <= 0;
    }
  }

  lemma SortedTail<T(!new)>(s: seq<T>, cmp: (T, T) -> int)
    requires s != [] && SortedBy(s, cmp)
    ensures SortedBy(s[1..], cmp)
  {
    forall i, j | 0 <= i < j < |s| - 1
      ensures cmp(s[1..][i], s[1..][j]) <= 0
    {
      assert s[1..][i] == s[i + 1] && s[1..][j] == s[j + 1];
    }
  }

  /** Putting `x` in front of elements it strictly precedes adds it after every element tied with it. */
  lemma FilterInsertFront<T(!new)>(x: T, s: seq<T>, cmp: (T, T) -> int, p: T -> bool)
    requires ValidComparator(cmp) && SortedBy(s, cmp) && AllTied(p, cmp)
    requires s != [] && cmp(x, s[0]) < 0
    ensures Filter([x] + s, p) == Filter(s, p) + (if p(x) then [x] else [])
  {
    FilterCons(x, s, p);
    if p(x) {
      PrecedesAll(x, s, cmp);
      forall y | y in s
        ensures !p(y)
      {
        var j :| 0 <= j < |s| && s[j] == y;
        assert cmp(x, y) < 0;
      }
      FilterMembers(s, p);
      assert Filter(s, p) == [];
    }
  }

  lemma {:induction false} FilterInsertTied<T(!new)>(x: T, s: seq<T>, cmp: (T, T) -> int, p: T -> bool)
    requires ValidComparator(cmp) && SortedBy(s, cmp) && AllTied(p, cmp)
    ensures Filter(Insert(x, s, cmp), p) == Filter(s, p) + (if p(x) then [x] else [])
  {
    if s == [] {
    } else if cmp(x, s[0]) < 0 {
      FilterInsertFront(x, s, cmp, p);
    } else {
      SortedTail(s, cmp);
      FilterInsertTied(x, s[1..], cmp, p);
      InsertPastHead(x, s, cmp);
      FilterConsBoth(s, Insert(x, s[1..], cmp), p, if p(x) then [x] else []);
    }
  }

  /** `x` goes past a head it does not strictly precede. */
  lemma InsertPastHead<T(!new)>(x: T, s: seq<T>, cmp: (T, T) -> int)
    requires s != [] && cmp(x, s[0]) >= 0
    ensures Insert(x, s, cmp) == [s[0]] + Insert(x, s[1..], cmp)
  {
  }

  /** Putting the head of `s` back in front of a sequence whose filter extends the tail's by `e`. */
  lemma FilterConsBoth<T(!new)>(s: seq<T>, t: seq<T>, p: T -> bool, e: seq<T>)
    requires s != [] && Filter(t, p) == Filter(s[1..], p) + e
    ensures Filter([s[0]] + t, p) == Filter(s, p) + e
  {
    var c := if p(s[0]) then [s[0]] else [];
    FilterCons(s[0], t, p);
    assert c + (Filter(s[1..], p) + e) == (c + Filter(s[1..], p)) + e;
  }

  /**
   * `sort` is stable: the elements of any one class of ties come out in the
   * order they went in.
   */
  lemma {:induction false} SortByStable<T(!new)>(s: seq<T>, cmp: (T, T) -> int, p: T -> bool)
    requires ValidComparator(cmp) && AllTied(p, cmp)
    ensures Filter(SortBy(s, cmp), p) == Filter(s, p)
  {
    if s != [] {
      var init := s[..|s| - 1];
      SortByStable(init, cmp, p);
      SortBySorted(init, cmp);
      FilterInsertTied(s[|s| - 1], SortBy(init, cmp), cmp, p);
      SortByStableStep(s, cmp, p);
    }
  }

  lemma InitLast<T>(s: seq<T>)
    requires s != []
    ensures s == s[..|s| - 1] + [s[|s| - 1]]
  {
  }

  /** The inductive step of `SortByStable`, once the last element's insertion is known to keep the order of ties. */
  lemma SortByStableStep<T(!new)>(s: seq<T>, cmp: (T, T) -> int, p: T -> bool)
    requires s != []
    requires Filter(SortBy(s[..|s| - 1], cmp), p) == Filter(s[..|s| - 1], p)
    requires Filter(Insert(s[|s| - 1], SortBy(s[..|s| - 1], cmp), cmp), p)
          == Filter(SortBy(s[..|s| - 1], cmp), p) + (if p(s[|s| - 1]) then [s[|s| - 1]] else [])
    ensures Filter(SortBy(s, cmp), p) == Filter(s, p)
  {
    var init, last := s[..|s| - 1], s[|s| - 1];
    var tail := if p(last) then [last] else [];
    InitLast(s);
    FilterConcat(init, [last], p);
    assert Filter([last], p) == tail by {
      assert [last][1..] == [];
    }
    calc {
      Filter(SortBy(s, cmp), p);
      Filter(Insert(last, SortBy(init, cmp), cmp), p);
      Filter(init, p) + tail;
      Filter(init + [last], p);
    }
  }

  lemma {:induction false} InsertAfterTies<T(!new)>(x: T, s: seq<T>, cmp: (T, T) -> int)
    requires forall y :: y in s ==> cmp(x, y) >= 0
    ensures Insert(x, s, cmp) == s + [x]
  {
    if s != [] {
      InsertAfterTies(x, s[1..], cmp);
    }
  }

  /** When every pair of elements ties, `sort` leaves the sequence as it was. */
  lemma {:induction false} SortByAllTied<T(!new)>(s: seq<T>, cmp: (T, T) -> int)
    requires forall a, b :: a in s && b in s ==> cmp(a, b) == 0
    ensures SortBy(s, cmp) == s
  {
    if s != [] {
      var init, last := s[..|s| - 1], s[|s| - 1];
      assert s == init + [last];
      SortByAllTied(init, cmp);
      InsertAfterTies(last, init, cmp);
    }
  }

  /** The comparator `(a, b) => -cmp(a, b)` of a descending sort. */
  function Negate<T(!new)>(cmp: (T, T) -> int): (T, T) -> int {
    (a, b) => -cmp(a, b)
  }

  lemma NegateValid<T(!new)>(cmp: (T, T) -> int)
    requires ValidComparator(cmp)
    ensures ValidComparator(Negate(cmp))
  {
    forall a, b, c | cmp(a, b) >= 0 && cmp(b, c) >= 0
      ensures cmp(a, c) >= 0
    {
      assert cmp(b, a) <= 0 && cmp(c, b) <= 0;
    }
  }

  function Reverse<T(!new)>(s: seq<T>): (r: seq<T>)
    ensures |r| == |s|
    ensures forall i :: 0 <= i < |s| ==> r[i] == s[|s| - 1 - i]
  {
    seq(|s|, i requires 0 <= i < |s| => s[|s| - 1 - i])
  }

  lemma {:induction false} ReverseMultiset<T(!new)>(s: seq<T>)
    ensures multiset(Reverse(s)) == multiset(s)
  {
    if s != [] {
      ReverseMultiset(s[1..]);
      assert Reverse(s) == Reverse(s[1..]) + [s[0]];
      assert s == [s[0]] + s[1..];
    }
  }

  /** Only equal values tie among the elements of `s`. */
  ghost predicate TiesOnlyEqual<T(!new)>(s: seq<T>, cmp: (T, T) -> int) {
    forall u, v :: u in s && v in s && cmp(u, v) == 0 ==> u == v
  }

  /** The head of a sorted sequence sorts no later than any of its elements. */
  lemma SortedHeadFirst<T(!new)>(s: seq<T>, cmp: (T, T) -> int, x: T)
    requires SortedBy(s, cmp) && x in s
    ensures x == s[0] || cmp(s[0], x) <= 0
  {
    var k :| 0 <= k < |s| && s[k] == x;
    if k > 0 {
      assert cmp(s[0], s[k]) <= 0;
    }
  }

  /** Two sorted arrangements of the same elements start with the same element, when only equal values tie. */
  lemma SortedSameHead<T(!new)>(a: seq<T>, b: seq<T>, cmp: (T, T) -> int)
    requires ValidComparator(cmp)
    requires multiset(a) == multiset(b) && a != []
    requires SortedBy(a, cmp) && SortedBy(b, cmp) && TiesOnlyEqual(a, cmp)
    ensures b != [] && a[0] == b[0]
  {
    assert a[0] in multiset(b);
    assert b[0] in multiset(a);
    SortedHeadFirst(a, cmp, b[0]);
    SortedHeadFirst(b, cmp, a[0]);
  }

  /** Without ties between different values, there is only one sorted arrangement. */
  lemma {:induction false} SortedUnique<T(!new)>(a: seq<T>, b: seq<T>, cmp: (T, T) -> int)
    requires ValidComparator(cmp)
    requires multiset(a) == multiset(b)
    requires SortedBy(a, cmp) && SortedBy(b, cmp) && TiesOnlyEqual(a, cmp)
    ensures a == b
  {
    if a == [] {
      assert |b| == |multiset(b)| == 0;
    } else {
      SortedSameHead(a, b, cmp);
      SameTails(a, b, cmp);
      SortedTail(a, cmp);
      SortedTail(b, cmp);
      SortedUnique(a[1..], b[1..], cmp);
      SameHeadAndTail(a, b);
    }
  }

  /** Sequences with the same head and the same tail are equal. */
  lemma SameHeadAndTail<T>(a: seq<T>, b: seq<T>)
    requires a != [] && b != [] && a[0] == b[0] && a[1..] == b[1..]
    ensures a == b
  {
    assert a == [a[0]] + a[1..] && b == [b[0]] + b[1..];
  }

  /** Removing a common head keeps two arrangements of the same elements arrangements of the same elements. */
  lemma SameTails<T(!new)>(a: seq<T>, b: seq<T>, cmp: (T, T) -> int)
    requires a != [] && b != [] && a[0] == b[0]
    requires multiset(a) == multiset(b) && TiesOnlyEqual(a, cmp)
    ensures multiset(a[1..]) == multiset(b[1..]) && TiesOnlyEqual(a[1..], cmp)
  {
    assert a == [a[0]] + a[1..] && b == [b[0]] + b[1..];
    assert multiset(a) == multiset{a[0]} + multiset(a[1..]);
    assert multiset(b) == multiset{a[0]} + multiset(b[1..]);
    assert multiset(a[1..]) == multiset(a) - multiset{a[0]};
    assert multiset(b[1..]) == multiset(b) - multiset{a[0]};
    forall u, v | u in a[1..] && v in a[1..] && cmp(u, v) == 0
      ensures u == v
    {
      assert u in a && v in a;
    }
  }

  /** Reversing an ascending arrangement gives a descending one. */
  lemma ReverseSorted<T(!new)>(s: seq<T>, cmp: (T, T) -> int)
    requires ValidComparator(cmp) && SortedBy(s, cmp)
    ensures SortedBy(Reverse(s), Negate(cmp))
  {
    var r := Reverse(s);
    forall i, j | 0 <= i < j < |r|
      ensures Negate(cmp)(r[i], r[j]) <= 0
    {
      assert cmp(s[|s| - 1 - j], s[|s| - 1 - i]) <= 0;
      assert cmp(r[i], r[j]) >= 0;
    }
  }

  /** The tie-free condition depends only on the elements, and is the same for the descending comparator. */
  lemma TiesOnlyEqualTransfer<T(!new)>(a: seq<T>, b: seq<T>, cmp: (T, T) -> int)
    requires multiset(a) == multiset(b) && TiesOnlyEqual(a, cmp)
    ensures TiesOnlyEqual(b, Negate(cmp))
  {
    forall u, v | u in b && v in b && Negate(cmp)(u, v) == 0
      ensures u == v
    {
      assert u in multiset(a) && v in multiset(a);
    }
  }

  /**
   * A descending sort is the reverse of the ascending one exactly when no
   * two different values tie: reversal would swap tied elements, which a
   * stable sort never does.
   */
  lemma DescendingIsReversedAscending<T(!new)>(s: seq<T>, cmp: (T, T) -> int)
    requires ValidComparator(cmp) && TiesOnlyEqual(s, cmp)
    ensures SortBy(s, Negate(cmp)) == Reverse(SortBy(s, cmp))
  {
    var asc, desc := SortBy(s, cmp), SortBy(s, Negate(cmp));
    NegateValid(cmp);
    SortBySorted(s, cmp);
    SortBySorted(s, Negate(cmp));
    ReverseSorted(asc, cmp);
    ReverseMultiset(asc);
    TiesOnlyEqualTransfer(s, desc, cmp);
    SortedUnique(desc, Reverse(asc), Negate(cmp));
  }
}
