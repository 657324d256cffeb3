/** Sequence utilities shared by the handlers: counting, filtering, flattening,
    de-duplication in insertion order (a JavaScript `Set` turned back into an array)
    and the stable sort of `Array.prototype.sort` under a comparator. */
module Seqs {

  function Count<T>(s: seq<T>, p: T -> bool): (n: nat)
    ensures n <= |s|
  {
    if s == [] then 0 else (if p(s[0]) then 1 else 0) + Count(s[1..], p)
  }

  lemma {:induction false} CountConcat<T>(a: seq<T>, b: seq<T>, p: T -> bool)
    ensures Count(a + b, p) == Count(a, p) + Count(b, p)
  {
    if a != [] {
      assert (a + b)[1..] == a[1..] + b;
      CountConcat(a[1..], b, p);
    } else {
      assert a + b == b;
    }
  }

  /** Two tests no element passes together count at most the whole sequence. */
  lemma {:induction false} CountDisjoint<T>(s: seq<T>, p: T -> bool, q: T -> bool)
    requires forall x :: !(p(x) && q(x))
    ensures Count(s, p) + Count(s, q) <= |s|
  {
    if s != [] {
      CountDisjoint(s[1..], p, q);
    }
  }

  function Filter<T>(s: seq<T>, p: T -> bool): (r: seq<T>)
    ensures |r| == Count(s, p)
    ensures forall i :: 0 <= i < |r| ==> p(r[i]) && r[i] in s
  {
    if s == [] then [] else (if p(s[0]) then [s[0]] else []) + Filter(s[1..], p)
  }

  /** `Filter` keeps exactly the elements that pass the test. */
  lemma {:induction false} FilterExactly<T>(s: seq<T>, p: T -> bool, x: T)
    ensures x in Filter(s, p) <==> x in s && p(x)
  {
    if s != [] {
      FilterExactly(s[1..], p, x);
      assert s == [s[0]] + s[1..];
    }
  }

  /** Filtering twice by the same test changes nothing more. */
  lemma {:induction false} FilterTwice<T>(s: seq<T>, p: T -> bool)
    ensures Filter(Filter(s, p), p) == Filter(s, p)
  {
    if s != [] {
      FilterTwice(s[1..], p);
      var head: seq<T> := if p(s[0]) then [s[0]] else [];
      FilterConcat(head, Filter(s[1..], p), p);
      if p(s[0]) {
        assert Filter([s[0]], p) == [s[0]] by {
          assert [s[0]][1..] == [];
        }
      }
    }
  }

  lemma {:induction false} FilterConcat<T>(a: seq<T>, b: seq<T>, p: T -> bool)
    ensures Filter(a + b, p) == Filter(a, p) + Filter(b, p)
  {
    if a != [] {
      assert (a + b)[1..] == a[1..] + b;
      FilterConcat(a[1..], b, p);
    } else {
      assert a + b == b;
    }
  }

  function Flatten<T>(ss: seq<seq<T>>): seq<T> {
    if ss == [] then [] else ss[0] + Flatten(ss[1..])
  }

  lemma {:induction false} FlattenAppend<T>(ss: seq<seq<T>>, t: seq<T>)
    ensures Flatten(ss + [t]) == Flatten(ss) + t
  {
    if ss != [] {
      assert (ss + [t])[1..] == ss[1..] + [t];
      FlattenAppend(ss[1..], t);
    } else {
      assert [t][1..] == [];
    }
  }

  lemma {:induction false} FlattenConcat<T>(a: seq<seq<T>>, b: seq<seq<T>>)
    ensures Flatten(a + b) == Flatten(a) + Flatten(b)
  {
    if a != [] {
      assert (a + b)[1..] == a[1..] + b;
      FlattenConcat(a[1..], b);
    } else {
      assert a + b == b;
    }
  }

  /** Moving part `b` from the parts still to come to the parts done. */
  lemma {:induction false} FlattenStep<T>(ss: seq<seq<T>>, b: nat)
    requires b < |ss|
    ensures Flatten(ss[..b + 1]) == Flatten(ss[..b]) + ss[b]
    ensures Flatten(ss[b..]) == ss[b] + Flatten(ss[b + 1..])
  {
    assert ss[..b + 1] == ss[..b] + [ss[b]];
    FlattenAppend(ss[..b], ss[b]);
    assert ss[b..][1..] == ss[b + 1..];
  }

  function SumReal(s: seq<real>): real {
    if s == [] then 0.0 else SumReal(s[..|s| - 1]) + s[|s| - 1]
  }

  lemma {:induction false} SumRealConcat(a: seq<real>, b: seq<real>)
    ensures SumReal(a + b) == SumReal(a) + SumReal(b)
    decreases |b|
  {
    if b == [] {
      assert a + b == a;
    } else {
      assert (a + b)[..|a + b| - 1] == a + b[..|b| - 1];
      SumRealConcat(a, b[..|b| - 1]);
    }
  }

  function SumInt(s: seq<int>): int {
    if s == [] then 0 else SumInt(s[..|s| - 1]) + s[|s| - 1]
  }

  /** Adding one more element to a prefix sum. */
  lemma {:induction false} SumIntStep(s: seq<int>, k: nat)
    requires k < |s|
    ensures SumInt(s[..k + 1]) == SumInt(s[..k]) + s[k]
  {
    assert s[..k + 1][..k] == s[..k];
  }

  predicate NoDuplicates<T(==)>(s: seq<T>) {
    forall i, j :: 0 <= i < j < |s| ==> s[i] != s[j]
  }

  /** Adding the elements of `s` one by one to an insertion-ordered set: an element
      already present is not added again. */
  function Dedup<T(==)>(s: seq<T>): (r: seq<T>)
    ensures |r| <= |s|
    ensures forall x :: x in r ==> x in s
  {
    if s == [] then []
    else
      var prefix := Dedup(s[..|s| - 1]);
      var last := s[|s| - 1];
      if last in prefix then prefix else prefix + [last]
  }

  /** The de-duplicated sequence holds each element of `s`, once. */
  lemma {:induction false} DedupMembers<T>(s: seq<T>)
    ensures NoDuplicates(Dedup(s))
    ensures forall x :: x in Dedup(s) <==> x in s
  {
    if s != [] {
      var front := s[..|s| - 1];
      DedupMembers(front);
      assert s == front + [s[|s| - 1]];
    }
  }

  /** One more element is added unless it is already there. */
  lemma {:induction false} DedupAppend<T>(s: seq<T>, x: T)
    ensures Dedup(s + [x]) == if x in Dedup(s) then Dedup(s) else Dedup(s) + [x]
  {
    assert (s + [x])[..|s|] == s;
  }

  /** Each element of the de-duplicated sequence stands where its first occurrence
      stands relative to the others. */
  lemma {:induction false} DedupFirstOccurrenceOrder<T>(s: seq<T>, i: nat, j: nat)
    requires i < j < |Dedup(s)|
    ensures FirstIndex(s, Dedup(s)[i]) < FirstIndex(s, Dedup(s)[j])
  {
    var prefix := Dedup(s[..|s| - 1]);
    var last := s[|s| - 1];
    var r := Dedup(s);
    DedupMembers(s[..|s| - 1]);
    if i < |prefix| && j < |prefix| {
      assert r[i] == prefix[i] && r[j] == prefix[j];
      DedupFirstOccurrenceOrder(s[..|s| - 1], i, j);
      FirstIndexPrefix(s, prefix[i]);
      FirstIndexPrefix(s, prefix[j]);
    } else {
      assert j == |prefix| && r[j] == last && last !in prefix;
      assert last !in s[..|s| - 1];
      FirstIndexPrefix(s, r[i]);
      FirstIndexLast(s);
    }
  }

  function FirstIndex<T(==)>(s: seq<T>, x: T): (k: nat)
    requires x in s
    ensures k < |s| && s[k] == x && x !in s[..k]
  {
    if s[0] == x then 0 else 1 + FirstIndex(s[1..], x)
  }

  lemma {:induction false} FirstIndexPrefix<T>(s: seq<T>, x: T)
    requires s != [] && x in s[..|s| - 1]
    ensures FirstIndex(s, x) == FirstIndex(s[..|s| - 1], x)
  {
    var p := s[..|s| - 1];
    var k := FirstIndex(p, x);
    var m := FirstIndex(s, x);
    assert forall t :: 0 <= t < |p| ==> p[t] == s[t];
    assert forall t :: 0 <= t < m ==> s[t] != x;
    assert forall t :: 0 <= t < k ==> p[t] != x;
  }

  lemma {:induction false} FirstIndexLast<T>(s: seq<T>)
    requires s != [] && s[|s| - 1] !in s[..|s| - 1]
    ensures FirstIndex(s, s[|s| - 1]) == |s| - 1
  {
    var p := s[..|s| - 1];
    assert forall t :: 0 <= t < |p| ==> p[t] == s[t];
  }

  /** `le` orders every pair and is transitive: what `a - b`-style comparators give. */
  ghost predicate TotalPreorder<T(!new)>(le: (T, T) -> bool) {
    && (forall a, b :: le(a, b) || le(b, a))
    && (forall a, b, c :: le(a, b) && le(b, c) ==> le(a, c))
  }

  predicate Sorted<T>(s: seq<T>, le: (T, T) -> bool) {
    forall i, j :: 0 <= i < j < |s| ==> le(s[i], s[j])
  }

  /** Places `x` before the first element it does not follow. */
  function Insert<T>(x: T, s: seq<T>, le: (T, T) -> bool): (r: seq<T>)
    ensures |r| == |s| + 1
  {
    if s == [] then [x]
    else if le(x, s[0]) then [x] + s
    else [s[0]] + Insert(x, s[1..], le)
  }

  /** Inserting adds exactly `x`. */
  lemma {:induction false} InsertMultiset<T>(x: T, s: seq<T>, le: (T, T) -> bool)
    ensures multiset(Insert(x, s, le)) == multiset(s) + multiset{x}
  {
    if s != [] && !le(x, s[0]) {
      InsertMultiset(x, s[1..], le);
      assert s == [s[0]] + s[1..];
    }
  }

  /** Inserting into a sorted sequence keeps it sorted. */
  lemma {:induction false} InsertSorted<T(!new)>(x: T, s: seq<T>, le: (T, T) -> bool)
    requires TotalPreorder(le) && Sorted(s, le)
    ensures Sorted(Insert(x, s, le), le)
  {
    if s == [] {
    } else if le(x, s[0]) {
      SortedBefore(x, s, le);
    } else {
      SortedTail(s, le);
      InsertSorted(x, s[1..], le);
      InsertMultiset(x, s[1..], le);
      SortedAfterHead(x, s, Insert(x, s[1..], le), le);
    }
  }

  /** `x` in front of a sorted `s` whose head it precedes. */
  lemma {:induction false} SortedBefore<T(!new)>(x: T, s: seq<T>, le: (T, T) -> bool)
    requires forall a, b, c :: le(a, b) && le(b, c) ==> le(a, c)
    requires Sorted(s, le) && s != [] && le(x, s[0])
    ensures Sorted([x] + s, le)
  {
    var r := [x] + s;
    forall i, j | 0 <= i < j < |r|
      ensures le(r[i], r[j])
    {
      if i == 0 && j > 1 {
        assert le(s[0], s[j - 1]);
      }
    }
  }

  /** The head of a sorted `s`, when `x` does not precede it, stays in front
      of the sorted insertion of `x` into the rest. */
  lemma {:induction false} SortedAfterHead<T>(x: T, s: seq<T>, tail: seq<T>, le: (T, T) -> bool)
    requires forall a, b :: le(a, b) || le(b, a)
    requires Sorted(s, le) && s != [] && !le(x, s[0])
    requires Sorted(tail, le) && multiset(tail) == multiset(s[1..]) + multiset{x}
    ensures Sorted([s[0]] + tail, le)
  {
    var t := s[1..];
    var r := [s[0]] + tail;
    assert le(s[0], x);
    forall j | 0 <= j < |tail|
      ensures le(s[0], tail[j])
    {
      assert tail[j] in multiset(tail);
      if tail[j] != x {
        assert tail[j] in multiset(t);
        var m :| 0 <= m < |t| && t[m] == tail[j];
        assert t[m] == s[m + 1];
      }
    }
    forall i, j | 0 <= i < j < |r|
      ensures le(r[i], r[j])
    {
      if i == 0 {
        assert r[j] == tail[j - 1];
      } else {
        assert r[i] == tail[i - 1] && r[j] == tail[j - 1];
      }
    }
  }

  /** A stable sort: `s` ordered by `le`, equivalent elements kept in their order in `s`. */
  function SortBy<T(!new)>(s: seq<T>, le: (T, T) -> bool): (r: seq<T>)
    requires TotalPreorder(le)
    ensures Sorted(r, le)
    ensures multiset(r) == multiset(s)
  {
    if s == [] then []
    else
      var t := SortBy(s[1..], le);
      InsertMultiset(s[0], t, le);
      InsertSorted(s[0], t, le);
      assert s == [s[0]] + s[1..];
      Insert(s[0], t, le)
  }

  /** Sorting what is already in order changes nothing. */
  lemma {:induction false} SortSorted<T(!new)>(s: seq<T>, le: (T, T) -> bool)
    requires TotalPreorder(le) && Sorted(s, le)
    ensures SortBy(s, le) == s
  {
    if s != [] {
      SortedTail(s, le);
      SortSorted(s[1..], le);
      InsertAtFront(s[0], s[1..], le);
      assert [s[0]] + s[1..] == s;
    }
  }

  /** The tail of a sorted sequence is sorted and follows its head. */
  lemma {:induction false} SortedTail<T>(s: seq<T>, le: (T, T) -> bool)
    requires Sorted(s, le) && s != []
    ensures Sorted(s[1..], le)
    ensures s[1..] == [] || le(s[0], s[1..][0])
  {
    var t := s[1..];
    forall i, j | 0 <= i < j < |t|
      ensures le(t[i], t[j])
    {
      assert t[i] == s[i + 1] && t[j] == s[j + 1];
    }
    if t != [] {
      assert t[0] == s[1];
    }
  }

  /** An element that precedes the head goes in front. */
  lemma {:induction false} InsertAtFront<T>(x: T, t: seq<T>, le: (T, T) -> bool)
    requires t == [] || le(x, t[0])
    ensures Insert(x, t, le) == [x] + t
  {
  }

  predicate Equivalent<T>(le: (T, T) -> bool, a: T, b: T) {
    le(a, b) && le(b, a)
  }

  /** The elements of `s` equivalent to `z`, in order. */
  function EquivalentsOf<T>(s: seq<T>, le: (T, T) -> bool, z: T): seq<T> {
    if s == [] then []
    else (if Equivalent(le, s[0], z) then [s[0]] else []) + EquivalentsOf(s[1..], le, z)
  }

  /** Sorting keeps the relative order of equivalent elements. */
  lemma {:induction false} SortStable<T(!new)>(s: seq<T>, le: (T, T) -> bool, z: T)
    requires TotalPreorder(le)
    ensures EquivalentsOf(SortBy(s, le), le, z) == EquivalentsOf(s, le, z)
  {
    if s != [] {
      var t := SortBy(s[1..], le);
      SortStable(s[1..], le, z);
      forall k | 0 <= k < |t|
        ensures Equivalent(le, s[0], z) && Equivalent(le, t[k], z) ==> le(s[0], t[k])
      {
        NotBothEquivalent(s[0], t[k], z, le);
      }
      InsertStable(s[0], t, le, z);
      assert [s[0]] + s[1..] == s;
      EquivalentsCons(s[0], s[1..], le, z);
    }
  }

  /** Inserting `x` puts it in front of the elements equivalent to `z` when it is one
      of them; `x` precedes every such element it meets. */
  lemma {:induction false} InsertStable<T>(x: T, s: seq<T>, le: (T, T) -> bool, z: T)
    requires forall k :: 0 <= k < |s| ==> (Equivalent(le, x, z) && Equivalent(le, s[k], z) ==> le(x, s[k]))
    ensures EquivalentsOf(Insert(x, s, le), le, z)
         == (if Equivalent(le, x, z) then [x] else []) + EquivalentsOf(s, le, z)
  {
    var ex: seq<T> := if Equivalent(le, x, z) then [x] else [];
    if s == [] {
      assert EquivalentsOf([x], le, z) == ex + EquivalentsOf([], le, z);
    } else if le(x, s[0]) {
      EquivalentsCons(x, s, le, z);
    } else {
      var t := s[1..];
      assert forall k :: 0 <= k < |t| ==> t[k] == s[k + 1];
      InsertStable(x, t, le, z);
      var tail := Insert(x, t, le);
      assert Insert(x, s, le) == [s[0]] + tail;
      EquivalentsCons(s[0], tail, le, z);
      EquivalentsCons(s[0], t, le, z);
      assert [s[0]] + t == s;
      var e0: seq<T> := if Equivalent(le, s[0], z) then [s[0]] else [];
      var rest := EquivalentsOf(t, le, z);
      assert e0 == [] || ex == [];
      assert e0 + (ex + rest) == ex + (e0 + rest);
    }
  }

  /** Two elements equivalent to `z` are ordered both ways. */
  lemma {:induction false} NotBothEquivalent<T(!new)>(x: T, y: T, z: T, le: (T, T) -> bool)
    requires TotalPreorder(le)
    ensures Equivalent(le, x, z) && Equivalent(le, y, z) ==> le(x, y)
  {
  }

  lemma {:induction false} EquivalentsCons<T>(y: T, t: seq<T>, le: (T, T) -> bool, z: T)
    ensures EquivalentsOf([y] + t, le, z) == (if Equivalent(le, y, z) then [y] else []) + EquivalentsOf(t, le, z)
  {
    assert ([y] + t)[1..] == t;
  }

  /** The last element after sorting is an element of `s` that every element precedes. */
  lemma {:induction false} SortLastIsGreatest<T(!new)>(s: seq<T>, le: (T, T) -> bool)
    requires TotalPreorder(le) && s != []
    ensures |SortBy(s, le)| == |s|
    ensures SortBy(s, le)[|s| - 1] in s
    ensures forall k :: 0 <= k < |s| ==> le(s[k], SortBy(s, le)[|s| - 1])
  {
    var r := SortBy(s, le);
    assert |r| == |s| by {
      assert |multiset(r)| == |multiset(s)|;
    }
    assert r[|s| - 1] in s by {
      assert r[|s| - 1] in multiset(r);
    }
    forall k | 0 <= k < |s|
      ensures le(s[k], r[|s| - 1])
    {
      assert s[k] in multiset(r) by {
        assert s[k] in multiset(s);
      }
      assert le(s[k], s[k]);
      SortedUpTo(r, le, s[k]);
    }
  }

  /** Every element of a sorted sequence precedes its last element. */
  lemma {:induction false} SortedUpTo<T>(r: seq<T>, le: (T, T) -> bool, x: T)
    requires Sorted(r, le) && x in r && le(x, x)
    ensures le(x, r[|r| - 1])
  {
    var m :| 0 <= m < |r| && r[m] == x;
    if m < |r| - 1 {
      assert le(r[m], r[|r| - 1]);
    }
  }

  /** The first element after sorting is the earliest element of `s` among those that
      are least under `le`. */
  lemma {:induction false} SortFirstIsEarliestLeast<T(!new)>(s: seq<T>, le: (T, T) -> bool)
    requires TotalPreorder(le) && s != []
    ensures var r := SortBy(s, le);
      && r != []
      && (forall k :: 0 <= k < |s| ==> le(r[0], s[k]))
      && EquivalentsOf(s, le, r[0]) != []
      && r[0] == EquivalentsOf(s, le, r[0])[0]
  {
    var r := SortBy(s, le);
    assert |r| == |multiset(r)| == |multiset(s)| == |s|;
    forall k | 0 <= k < |s|
      ensures le(r[0], s[k])
    {
      assert s[k] in multiset(s);
      var m :| 0 <= m < |r| && r[m] == s[k];
      if m > 0 {
        assert le(r[0], r[m]);
      }
    }
    SortStable(s, le, r[0]);
    assert r == [r[0]] + r[1..];
    assert EquivalentsOf(r, le, r[0])[0] == r[0];
  }

  /** Two equal elements at different places make two copies in the multiset. */
  lemma {:induction false} TwoCopies<T>(b: seq<T>, i: int, j: int)
    requires 0 <= i < j < |b|
    ensures b[i] == b[j] ==> multiset(b)[b[i]] >= 2
  {
    assert b == b[..j] + b[j..];
    assert b[..j][i] == b[i];
    assert b[j..][0] == b[j];
  }

  /** An element of a sequence without duplicates has one copy. */
  lemma {:induction false} OneCopy<T>(a: seq<T>, p: int)
    requires 0 <= p < |a| && NoDuplicates(a)
    ensures multiset(a)[a[p]] == 1
  {
    assert a == a[..p] + [a[p]] + a[p + 1..];
    var tail := a[p + 1..];
    assert a[p] !in tail by {
      forall t | 0 <= t < |tail|
        ensures tail[t] != a[p]
      {
        assert tail[t] == a[p + 1 + t];
      }
    }
  }

  /** A permutation of a sequence without duplicates has none either. */
  lemma {:induction false} PermutationNoDuplicates<T>(a: seq<T>, b: seq<T>)
    requires multiset(a) == multiset(b) && NoDuplicates(a)
    ensures NoDuplicates(b)
  {
    forall i, j | 0 <= i < j < |b|
      ensures b[i] != b[j]
    {
      assert b[i] in multiset(a);
      var p :| 0 <= p < |a| && a[p] == b[i];
      OneCopy(a, p);
      TwoCopies(b, i, j);
    }
  }

  /** The union of `f` over the elements of `s`. */
  function UnionOf<T, U>(s: seq<T>, f: T -> set<U>): set<U> {
    if s == [] then {} else UnionOf(s[..|s| - 1], f) + f(s[|s| - 1])
  }

  lemma {:induction false} UnionOfMeaning<T, U>(s: seq<T>, f: T -> set<U>, x: U)
    ensures x in UnionOf(s, f) <==> exists i :: 0 <= i < |s| && x in f(s[i])
  {
    if s != [] {
      var n := |s| - 1;
      var front := s[..n];
      UnionOfMeaning(front, f, x);
      if x in UnionOf(front, f) {
        var i :| 0 <= i < |front| && x in f(front[i]);
        assert s[i] == front[i];
      }
      if i :| 0 <= i < n && x in f(s[i]) {
        assert s[i] == front[i];
      }
    }
  }
}
