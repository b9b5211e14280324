/** Operations on document collections held as sequences in their natural
    (insertion) order: lookup by identity, filtering, sums, and the ordering
    a `.sort(...)` clause asks of the database. */
module Seqs {
  import opened Common

  // ---------------------------------------------------------------------
  // Lookup by identity

  /** The first position whose key is `k`, as `findById` finds a document. */
  function IndexOf<T>(s: seq<T>, key: T -> Id, k: Id): (r: Option<nat>)
    ensures r.Some? ==> r.value < |s| && key(s[r.value]) == k
    ensures r.Some? ==> forall j | 0 <= j < r.value :: key(s[j]) != k
    ensures r.None? <==> forall j | 0 <= j < |s| :: key(s[j]) != k
  {
    if s == [] then None
    else if key(s[0]) == k then Some(0)
    else match IndexOf(s[1..], key, k)
      case None => None
      case Some(j) => Some(j + 1)
  }

  /** The document whose key is `k`, if any. */
  function Lookup<T>(s: seq<T>, key: T -> Id, k: Id): (r: Option<T>)
    ensures r.Some? ==> r.value in s && key(r.value) == k
    ensures r.None? <==> forall j | 0 <= j < |s| :: key(s[j]) != k
  {
    match IndexOf(s, key, k)
    case None => None
    case Some(i) => Some(s[i])
  }

  /** No two documents share a key (the `_id` index). */
  ghost predicate DistinctKeys<T>(s: seq<T>, key: T -> Id)
  {
    forall i, j | 0 <= i < j < |s| :: key(s[i]) != key(s[j])
  }

  /** Every key is below `bound`, so `bound` is a fresh identity. */
  ghost predicate KeysBelow<T>(s: seq<T>, key: T -> Id, bound: nat)
  {
    forall i | 0 <= i < |s| :: key(s[i]) < bound
  }

  lemma IndexOfDistinct<T>(s: seq<T>, key: T -> Id, i: nat)
    requires DistinctKeys(s, key) && i < |s|
    ensures IndexOf(s, key, key(s[i])) == Some(i)
  {
  }

  /** Appending a document under the fresh identity keeps keys distinct and bounded. */
  lemma AppendFresh<T>(s: seq<T>, key: T -> Id, bound: nat, x: T)
    requires DistinctKeys(s, key) && KeysBelow(s, key, bound) && key(x) == bound
    ensures DistinctKeys(s + [x], key) && KeysBelow(s + [x], key, bound + 1)
  {
  }

  /** Replacing a document by one with the same key keeps the key properties. */
  lemma ReplaceSameKey<T>(s: seq<T>, key: T -> Id, bound: nat, i: nat, x: T)
    requires DistinctKeys(s, key) && KeysBelow(s, key, bound) && i < |s| && key(x) == key(s[i])
    ensures DistinctKeys(s[i := x], key) && KeysBelow(s[i := x], key, bound)
  {
  }

  /** The collection without position `i` (`deleteOne`). */
  function RemoveAt<T>(s: seq<T>, i: nat): (r: seq<T>)
    requires i < |s|
    ensures |r| == |s| - 1
    ensures forall j | 0 <= j < i :: r[j] == s[j]
    ensures forall j | i <= j < |r| :: r[j] == s[j + 1]
  {
    s[..i] + s[i + 1..]
  }

  lemma RemoveKeepsKeys<T>(s: seq<T>, key: T -> Id, bound: nat, i: nat)
    requires DistinctKeys(s, key) && KeysBelow(s, key, bound) && i < |s|
    ensures DistinctKeys(RemoveAt(s, i), key) && KeysBelow(RemoveAt(s, i), key, bound)
    ensures forall j | 0 <= j < |RemoveAt(s, i)| :: key(RemoveAt(s, i)[j]) != key(s[i])
  {
    var r := RemoveAt(s, i);
    forall j, l | 0 <= j < l < |r| ensures key(r[j]) != key(r[l]) {
      var j' := if j < i then j else j + 1;
      var l' := if l < i then l else l + 1;
      assert r[j] == s[j'] && r[l] == s[l'] && j' < l';
    }
  }

  // ---------------------------------------------------------------------
  // Filters and sums

  /** The documents satisfying `p`, in their original order (a `find(query)`). */
  function Filter<T(!new)>(s: seq<T>, p: T -> bool): (r: seq<T>)
    ensures |r| <= |s|
    ensures forall x :: x in r <==> x in s && p(x)
    ensures multiset(r) <= multiset(s)
  {
    if s == [] then []
    else
      assert s == [s[0]] + s[1..];
      (if p(s[0]) then [s[0]] else []) + Filter(s[1..], p)
  }

  /** A filter keeps every copy of a selected document and none of the others. */
  lemma {:induction false} FilterMultiplicity<T(!new)>(s: seq<T>, p: T -> bool)
    ensures forall x :: multiset(Filter(s, p))[x] == if p(x) then multiset(s)[x] else 0
  {
    if s != [] {
      FilterMultiplicity(s[1..], p);
      assert s == [s[0]] + s[1..];
      assert multiset(s) == multiset([s[0]]) + multiset(s[1..]);
    }
  }

  lemma {:induction false} FilterAppend<T(!new)>(s: seq<T>, t: seq<T>, p: T -> bool)
    ensures Filter(s + t, p) == Filter(s, p) + Filter(t, p)
  {
    if s == [] {
      assert s + t == t;
    } else {
      assert (s + t)[1..] == s[1..] + t;
      FilterAppend(s[1..], t, p);
    }
  }

  lemma FilterSingleton<T(!new)>(x: T, p: T -> bool)
    ensures Filter([x], p) == if p(x) then [x] else []
  {
    assert [x][1..] == [];
  }

  lemma FilterSnoc<T(!new)>(s: seq<T>, x: T, p: T -> bool)
    ensures Filter(s + [x], p) == Filter(s, p) + (if p(x) then [x] else [])
  {
    FilterAppend(s, [x], p);
    FilterSingleton(x, p);
  }

  /** Sum of `f` over the sequence (`reduce((sum, x) => sum + f(x), 0)`). */
  function SumBy<T>(s: seq<T>, f: T -> int): int
  {
    if s == [] then 0 else f(s[0]) + SumBy(s[1..], f)
  }

  /** Sum of `f` over the elements satisfying `p`, each other element counting 0. */
  function SumIf<T>(s: seq<T>, p: T -> bool, f: T -> int): int
  {
    if s == [] then 0 else (if p(s[0]) then f(s[0]) else 0) + SumIf(s[1..], p, f)
  }

  lemma {:induction false} SumAppend<T>(s: seq<T>, t: seq<T>, f: T -> int)
    ensures SumBy(s + t, f) == SumBy(s, f) + SumBy(t, f)
  {
    if s == [] {
      assert s + t == t;
    } else {
      assert (s + t)[1..] == s[1..] + t;
      SumAppend(s[1..], t, f);
    }
  }

  lemma {:induction false} SumIfAppend<T>(s: seq<T>, t: seq<T>, p: T -> bool, f: T -> int)
    ensures SumIf(s + t, p, f) == SumIf(s, p, f) + SumIf(t, p, f)
  {
    if s == [] {
      assert s + t == t;
    } else {
      assert (s + t)[1..] == s[1..] + t;
      SumIfAppend(s[1..], t, p, f);
    }
  }

  /** Summing over a filter is summing the masked values over everything. */
  lemma {:induction false} SumFilter<T(!new)>(s: seq<T>, p: T -> bool, f: T -> int)
    ensures SumBy(Filter(s, p), f) == SumIf(s, p, f)
  {
    if s != [] {
      SumFilter(s[1..], p, f);
      SumAppend(if p(s[0]) then [s[0]] else [], Filter(s[1..], p), f);
    }
  }

  /** `s.map(f)`. */
  function Map<T, U>(s: seq<T>, f: T -> U): (r: seq<U>)
    ensures |r| == |s| && forall i | 0 <= i < |s| :: r[i] == f(s[i])
  {
    if s == [] then [] else [f(s[0])] + Map(s[1..], f)
  }

  /** The collection in the reverse of its natural order (newest first). */
  function Reverse<T>(s: seq<T>): (r: seq<T>)
    ensures |r| == |s| && forall i | 0 <= i < |s| :: r[i] == s[|s| - 1 - i]
  {
    if s == [] then [] else Reverse(s[1..]) + [s[0]]
  }

  /** `r` lists the documents of `s` newest first: the same documents, each
      once, the last inserted at the head. */
  predicate NewestFirst<T(==)>(r: seq<T>, s: seq<T>)
  {
    |r| == |s| && forall i | 0 <= i < |r| :: r[i] == s[|s| - 1 - i]
  }

  lemma {:induction false} ReverseAppend<T>(s: seq<T>, t: seq<T>)
    ensures Reverse(s + t) == Reverse(t) + Reverse(s)
  {
    if s == [] {
      assert s + t == t;
    } else {
      assert (s + t)[1..] == s[1..] + t;
      ReverseAppend(s[1..], t);
    }
  }

  lemma ReverseMembers<T(!new)>(s: seq<T>)
    ensures forall x :: x in Reverse(s) <==> x in s
  {
    var r := Reverse(s);
    forall x | x in s ensures x in r {
      var i :| 0 <= i < |s| && s[i] == x;
      assert r[|s| - 1 - i] == x;
    }
  }

  // ---------------------------------------------------------------------
  // Ordering

  /** `le` is a total preorder: any two elements compare, and comparison chains. */
  ghost predicate TotalPreorder<T(!new)>(le: (T, T) -> bool)
  {
    && (forall a, b :: le(a, b) || le(b, a))
    && (forall a, b, c :: le(a, b) && le(b, c) ==> le(a, c))
  }

  ghost predicate SortedBy<T>(s: seq<T>, le: (T, T) -> bool)
  {
    forall i, j | 0 <= i < j < |s| :: le(s[i], s[j])
  }

  /** `x` placed before the first element it is `le` to (one step of an insertion sort). */
  function Insert<T>(x: T, s: seq<T>, le: (T, T) -> bool): (r: seq<T>)
    ensures multiset(r) == multiset(s) + multiset{x}
    ensures |r| == |s| + 1 && (r[0] == x || (s != [] && r[0] == s[0]))
  {
    if s == [] then [x]
    else if le(x, s[0]) then [x] + s
    else
      assert s == [s[0]] + s[1..];
      [s[0]] + Insert(x, s[1..], le)
  }

  lemma {:induction false} InsertSorted<T(!new)>(x: T, s: seq<T>, le: (T, T) -> bool)
    requires TotalPreorder(le) && SortedBy(s, le)
    ensures SortedBy(Insert(x, s, le), le)
  {
    var r := Insert(x, s, le);
    if s == [] {
    } else if le(x, s[0]) {
      forall i, j | 0 <= i < j < |r| ensures le(r[i], r[j]) {
        if i == 0 && j > 1 {
          assert r[j] == s[j - 1];
          assert le(s[0], s[j - 1]);
        }
      }
    } else {
      assert le(s[0], x);
      var t := s[1..];
      assert SortedBy(t, le) by {
        forall i, j | 0 <= i < j < |t| ensures le(t[i], t[j]) {
          assert t[i] == s[i + 1] && t[j] == s[j + 1];
        }
      }
      InsertSorted(x, t, le);
      var rest := Insert(x, t, le);
      assert le(s[0], rest[0]) by {
        if rest[0] != x { assert rest[0] == s[1]; }
      }
      forall i, j | 0 <= i < j < |r| ensures le(r[i], r[j]) {
        if i == 0 {
          if j > 1 { assert le(rest[0], rest[j - 1]); }
        }
      }
    }
  }

  /** The elements of `s` in ascending `le` order (`.sort(...)` on one key). */
  function SortBy<T(!new)>(s: seq<T>, le: (T, T) -> bool): (r: seq<T>)
    requires TotalPreorder(le)
    ensures multiset(r) == multiset(s)
    ensures SortedBy(r, le)
  {
    if s == [] then []
    else
      assert s == [s[0]] + s[1..];
      var rest := SortBy(s[1..], le);
      InsertSorted(s[0], rest, le);
      Insert(s[0], rest, le)
  }

  /** A sorted result holds exactly the documents of its input. */
  lemma SortByMembers<T(!new)>(s: seq<T>, le: (T, T) -> bool)
    requires TotalPreorder(le)
    ensures forall x :: x in SortBy(s, le) <==> x in s
  {
    var r := SortBy(s, le);
    forall x ensures x in r <==> x in s {
      assert x in r <==> x in multiset(r);
      assert x in s <==> x in multiset(s);
    }
  }
}
