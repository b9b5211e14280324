/** A running tally kept in a JavaScript object (`acc[key] = (acc[key] || 0) + d`),
    as it behaves for ordinary string keys: entries in first-insertion order,
    one per key. Integer-like keys and keys naming `Object.prototype`
    members behave otherwise in JavaScript and are not modelled. `TallyOf` folds a
    sequence into such a tally; `KeySum` is the independent per-key
    reference the fold is proved against. */
module Tallies {
  import opened Seqs

  datatype Entry<K> = Entry(key: K, value: int)

  predicate HasKey<K(==)>(t: seq<Entry<K>>, k: K)
  {
    exists i | 0 <= i < |t| :: t[i].key == k
  }

  predicate KeysDistinct<K(==)>(t: seq<Entry<K>>)
  {
    forall i, j | 0 <= i < j < |t| :: t[i].key != t[j].key
  }

  /** The sum of the tally's values (`Object.values(acc).reduce(+)`). */
  function EntryTotal<K>(t: seq<Entry<K>>): int
  {
    if t == [] then 0 else t[0].value + EntryTotal(t[1..])
  }

  /** The value held under `k`, 0 when the key is absent. */
  function ValueOf<K(==)>(t: seq<Entry<K>>, k: K): int
  {
    if t == [] then 0 else (if t[0].key == k then t[0].value else 0) + ValueOf(t[1..], k)
  }

  /** Adds `d` under `k`: in place when the key is present, as a new last
      entry otherwise. */
  function Bump<K(==)>(t: seq<Entry<K>>, k: K, d: int): (r: seq<Entry<K>>)
    ensures |r| == |t| || |r| == |t| + 1
  {
    if t == [] then [Entry(k, d)]
    else if t[0].key == k then [Entry(k, t[0].value + d)] + t[1..]
    else [t[0]] + Bump(t[1..], k, d)
  }

  lemma {:induction false} BumpTotal<K>(t: seq<Entry<K>>, k: K, d: int)
    ensures EntryTotal(Bump(t, k, d)) == EntryTotal(t) + d
  {
    if t != [] && t[0].key != k {
      BumpTotal(t[1..], k, d);
      assert ([t[0]] + Bump(t[1..], k, d))[1..] == Bump(t[1..], k, d);
    } else if t != [] {
      assert ([Entry(k, t[0].value + d)] + t[1..])[1..] == t[1..];
    }
  }

  lemma {:induction false} BumpValue<K>(t: seq<Entry<K>>, k: K, d: int, j: K)
    ensures ValueOf(Bump(t, k, d), j) == ValueOf(t, j) + (if j == k then d else 0)
  {
    if t != [] && t[0].key != k {
      BumpValue(t[1..], k, d, j);
      assert ([t[0]] + Bump(t[1..], k, d))[1..] == Bump(t[1..], k, d);
    } else if t != [] {
      assert ([Entry(k, t[0].value + d)] + t[1..])[1..] == t[1..];
    }
  }

  lemma {:induction false} BumpKeys<K>(t: seq<Entry<K>>, k: K, d: int)
    ensures forall j :: HasKey(Bump(t, k, d), j) <==> HasKey(t, j) || j == k
    ensures KeysDistinct(t) ==> KeysDistinct(Bump(t, k, d))
  {
    var r := Bump(t, k, d);
    if t == [] {
      assert r[0].key == k;
    } else if t[0].key == k {
      assert forall i | 0 <= i < |t| :: r[i].key == t[i].key;
    } else {
      BumpKeys(t[1..], k, d);
      var rest := Bump(t[1..], k, d);
      assert r == [t[0]] + rest;
      assert r[0].key == t[0].key;
      assert forall j :: HasKey(r, j) <==> j == t[0].key || HasKey(rest, j) by {
        forall j | HasKey(r, j) ensures j == t[0].key || HasKey(rest, j) {
          var i :| 0 <= i < |r| && r[i].key == j;
          if i > 0 { assert rest[i - 1].key == j; }
        }
        forall j | HasKey(rest, j) ensures HasKey(r, j) {
          var i :| 0 <= i < |rest| && rest[i].key == j;
          assert r[i + 1].key == j;
        }
      }
      assert forall j :: HasKey(t, j) <==> j == t[0].key || HasKey(t[1..], j) by {
        forall j | HasKey(t, j) ensures j == t[0].key || HasKey(t[1..], j) {
          var i :| 0 <= i < |t| && t[i].key == j;
          if i > 0 { assert t[1..][i - 1].key == j; }
        }
        assert HasKey(t, t[0].key);
        forall j | HasKey(t[1..], j) ensures HasKey(t, j) {
          var i :| 0 <= i < |t[1..]| && t[1..][i].key == j;
          assert t[i + 1].key == j;
        }
      }
      if KeysDistinct(t) {
        assert KeysDistinct(t[1..]) by {
          forall a, b | 0 <= a < b < |t[1..]| ensures t[1..][a].key != t[1..][b].key {
            assert t[1..][a] == t[a + 1] && t[1..][b] == t[b + 1];
          }
        }
        assert !HasKey(t[1..], t[0].key) by {
          forall i | 0 <= i < |t[1..]| ensures t[1..][i].key != t[0].key {
            assert t[1..][i] == t[i + 1];
          }
        }
        forall a, b | 0 <= a < b < |r| ensures r[a].key != r[b].key {
          if a == 0 {
            assert r[b] == rest[b - 1];
          } else {
            assert r[a] == rest[a - 1] && r[b] == rest[b - 1];
          }
        }
      }
    }
  }

  /** With one entry per key, the value under an entry's key is that entry's value. */
  lemma {:induction false} EntryValue<K>(t: seq<Entry<K>>, i: nat)
    requires KeysDistinct(t) && i < |t|
    ensures ValueOf(t, t[i].key) == t[i].value
  {
    if i == 0 {
      AbsentKeyHasNoValue(t[1..], t[0].key);
    } else {
      assert KeysDistinct(t[1..]) by {
        forall a, b | 0 <= a < b < |t[1..]| ensures t[1..][a].key != t[1..][b].key {
          assert t[1..][a] == t[a + 1] && t[1..][b] == t[b + 1];
        }
      }
      assert t[1..][i - 1] == t[i];
      EntryValue(t[1..], i - 1);
    }
  }

  lemma {:induction false} AbsentKeyHasNoValue<K>(t: seq<Entry<K>>, k: K)
    requires forall i | 0 <= i < |t| :: t[i].key != k
    ensures ValueOf(t, k) == 0
  {
    if t != [] {
      AbsentKeyHasNoValue(t[1..], k);
    }
  }

  // ---------------------------------------------------------------------
  // Folding a sequence into a tally

  /** The tally a `forEach` over `s` leaves, adding `val(x)` under `key(x)`. */
  function TallyOf<T, K(==)>(s: seq<T>, key: T -> K, val: T -> int): seq<Entry<K>>
  {
    if s == [] then [] else Bump(TallyOf(s[..|s| - 1], key, val), key(s[|s| - 1]), val(s[|s| - 1]))
  }

  /** The reference: the sum of `val` over the elements whose key is `k`. */
  function KeySum<T, K(==)>(s: seq<T>, key: T -> K, val: T -> int, k: K): int
  {
    if s == [] then 0
    else KeySum(s[..|s| - 1], key, val, k) + (if key(s[|s| - 1]) == k then val(s[|s| - 1]) else 0)
  }

  /** Some element of `s` has key `k`. */
  predicate Occurs<T, K(==)>(s: seq<T>, key: T -> K, k: K)
  {
    exists i | 0 <= i < |s| :: key(s[i]) == k
  }

  /** One more element is one more `Bump`. */
  lemma TallySnoc<T, K>(s: seq<T>, x: T, key: T -> K, val: T -> int)
    ensures TallyOf(s + [x], key, val) == Bump(TallyOf(s, key, val), key(x), val(x))
  {
    assert (s + [x])[..|s|] == s;
  }

  /** The tally's values add up to the sum over the whole sequence. */
  lemma {:induction false} TallyTotal<T, K>(s: seq<T>, key: T -> K, val: T -> int)
    ensures EntryTotal(TallyOf(s, key, val)) == SumBy(s, val)
  {
    if s != [] {
      var init := s[..|s| - 1];
      var x := s[|s| - 1];
      TallyTotal(init, key, val);
      BumpTotal(TallyOf(init, key, val), key(x), val(x));
      assert s == init + [x];
      SumAppend(init, [x], val);
      assert SumBy([x], val) == val(x) by { assert [x][1..] == []; }
    }
  }

  /** Under each key the tally holds the reference sum for that key. */
  lemma {:induction false} TallyValue<T, K>(s: seq<T>, key: T -> K, val: T -> int, k: K)
    ensures ValueOf(TallyOf(s, key, val), k) == KeySum(s, key, val, k)
  {
    if s != [] {
      var init := s[..|s| - 1];
      TallyValue(init, key, val, k);
      BumpValue(TallyOf(init, key, val), key(s[|s| - 1]), val(s[|s| - 1]), k);
    }
  }

  /** The tally has exactly one entry per key that occurs in the sequence. */
  lemma {:induction false} TallyKeys<T, K>(s: seq<T>, key: T -> K, val: T -> int)
    ensures KeysDistinct(TallyOf(s, key, val))
    ensures forall k :: HasKey(TallyOf(s, key, val), k) <==> Occurs(s, key, k)
  {
    if s != [] {
      var init := s[..|s| - 1];
      var x := s[|s| - 1];
      TallyKeys(init, key, val);
      BumpKeys(TallyOf(init, key, val), key(x), val(x));
      forall k ensures Occurs(s, key, k) <==> Occurs(init, key, k) || key(x) == k
      {
        if Occurs(s, key, k) {
          var i :| 0 <= i < |s| && key(s[i]) == k;
          if i < |init| { assert init[i] == s[i]; }
        }
        if Occurs(init, key, k) {
          var i :| 0 <= i < |init| && key(init[i]) == k;
          assert s[i] == init[i];
        }
        assert s[|s| - 1] == x;
      }
    }
  }

  /** A one per element count: with it a tally counts occurrences. */
  function CountOne<T>(x: T): int { 1 }

  lemma {:induction false} SumOfOnes<T>(s: seq<T>)
    ensures SumBy(s, CountOne) == |s|
  {
    if s != [] {
      SumOfOnes(s[1..]);
    }
  }
}
