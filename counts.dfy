/**
 * Counter dictionaries in insertion order.
 *
 * Both tools keep `key -> count` dictionaries and later sort them with
 * `sorted(d.items(), key=lambda item: item[1], reverse=True)`. Python's sort
 * is stable, so entries with equal counts come out in the order their keys
 * were first inserted; the model therefore keeps a dictionary as a sequence
 * of (key, count) pairs with distinct keys, in insertion order.
 */
module Counts {
  import opened Wrappers

  type Tally<K> = seq<(K, nat)>

  /** The keys, in insertion order. */
  function Keys<K>(c: Tally<K>): (ks: seq<K>)
    ensures |ks| == |c|
    ensures forall i :: 0 <= i < |c| ==> ks[i] == c[i].0
  {
    if |c| == 0 then [] else [c[0].0] + Keys(c[1..])
  }

  /** No key occurs twice, as in a dictionary. */
  predicate Distinct<K(==)>(c: Tally<K>)
  {
    forall i, j :: 0 <= i < j < |c| ==> c[i].0 != c[j].0
  }

  /** `d.get(k)`. */
  function Lookup<K(==)>(c: Tally<K>, k: K): (r: Option<nat>)
    ensures r.None? <==> k !in Keys(c)
  {
    if |c| == 0 then None
    else if c[0].0 == k then Some(c[0].1)
    else Lookup(c[1..], k)
  }

  /** The position of a present key. */
  function IndexIn<K(==)>(c: Tally<K>, k: K): (i: nat)
    requires k in Keys(c)
    ensures i < |c| && c[i].0 == k
    ensures forall j :: 0 <= j < i ==> c[j].0 != k
  {
    if c[0].0 == k then 0 else 1 + IndexIn(c[1..], k)
  }

  lemma {:induction false} FoundAt<K>(c: Tally<K>, k: K)
    requires k in Keys(c)
    ensures Lookup(c, k) == Some(c[IndexIn(c, k)].1)
  {
    if c[0].0 != k {
      FoundAt(c[1..], k);
    }
  }

  /** `d.get(k, 0)`. */
  function CountOf<K(==)>(c: Tally<K>, k: K): nat
  {
    match Lookup(c, k)
    case None => 0
    case Some(n) => n
  }

  /** `d[k] = v`: an existing key keeps its position, a new key goes last. */
  function Put<K(==)>(c: Tally<K>, k: K, v: nat): (r: Tally<K>)
    ensures k in Keys(c) ==> |r| == |c| && Keys(r) == Keys(c)
    ensures k !in Keys(c) ==> r == c + [(k, v)]
  {
    if |c| == 0 then [(k, v)]
    else if c[0].0 == k then [(k, v)] + c[1..]
    else
      var r := [c[0]] + Put(c[1..], k, v);
      assert Keys(r) == [c[0].0] + Keys(Put(c[1..], k, v));
      r
  }

  /** `d[k] += 1`, for a key that is present (otherwise Python raises KeyError). */
  function Increment<K(==)>(c: Tally<K>, k: K): Tally<K>
    requires k in Keys(c)
  {
    Put(c, k, CountOf(c, k) + 1)
  }

  /** `sum(d.values())`. */
  function Total<K>(c: Tally<K>): nat
  {
    if |c| == 0 then 0 else c[0].1 + Total(c[1..])
  }

  // ---------------------------------------------------------------------------
  // What a write changes
  // ---------------------------------------------------------------------------

  /** After `d[k] = v`, `k` maps to `v`, every other key keeps its count, and keys stay distinct. */
  lemma {:induction false} PutLookup<K>(c: Tally<K>, k: K, v: nat, k': K)
    ensures Lookup(Put(c, k, v), k') == if k' == k then Some(v) else Lookup(c, k')
  {
    if |c| > 0 && c[0].0 != k {
      PutLookup(c[1..], k, v, k');
      assert Put(c, k, v)[1..] == Put(c[1..], k, v);
    }
  }

  lemma PutCount<K>(c: Tally<K>, k: K, v: nat, k': K)
    ensures CountOf(Put(c, k, v), k') == if k' == k then v else CountOf(c, k')
  {
    PutLookup(c, k, v, k');
  }

  lemma {:induction false} PutDistinct<K>(c: Tally<K>, k: K, v: nat)
    requires Distinct(c)
    ensures Distinct(Put(c, k, v))
  {
    if |c| > 0 && c[0].0 != k {
      PutDistinct(c[1..], k, v);
      var r := Put(c, k, v);
      if k in Keys(c[1..]) {
        assert Keys(r[1..]) == Keys(c[1..]);
        forall j | 0 < j < |r| ensures r[0].0 != r[j].0 {
          assert r[j].0 == Keys(r[1..])[j - 1] == c[j].0;
        }
      } else {
        assert k !in Keys(c);
        assert r == c + [(k, v)];
      }
    } else if |c| > 0 {
      var r := Put(c, k, v);
      forall i, j | 0 <= i < j < |r| ensures r[i].0 != r[j].0 {
        assert r[j].0 == c[j].0;
        if i > 0 { assert r[i].0 == c[i].0; }
      }
    }
  }

  /** `d[k] = v` changes the sum by the difference between the new and the old count. */
  lemma {:induction false} PutTotal<K>(c: Tally<K>, k: K, v: nat)
    requires Distinct(c)
    ensures Total(Put(c, k, v)) + CountOf(c, k) == Total(c) + v
  {
    if |c| == 0 {
    } else if c[0].0 == k {
      assert k !in Keys(c[1..]);
    } else {
      PutTotal(c[1..], k, v);
      assert Put(c, k, v)[1..] == Put(c[1..], k, v);
    }
  }

  /** Everything `d[k] = v` does to a dictionary with distinct keys. */
  lemma PutEffect<K>(c: Tally<K>, k: K, v: nat)
    requires Distinct(c)
    ensures Distinct(Put(c, k, v))
    ensures forall k' :: CountOf(Put(c, k, v), k') == if k' == k then v else CountOf(c, k')
    ensures Total(Put(c, k, v)) + CountOf(c, k) == Total(c) + v
  {
    PutDistinct(c, k, v);
    PutTotal(c, k, v);
    forall k' ensures CountOf(Put(c, k, v), k') == if k' == k then v else CountOf(c, k') {
      PutCount(c, k, v, k');
    }
  }

  /** `d[k] = v` for a key already present, stated about a result `r` handed in by the caller. */
  lemma PutExisting<K>(c: Tally<K>, k: K, v: nat, r: Tally<K>)
    requires Distinct(c) && k in Keys(c) && r == Put(c, k, v)
    ensures Distinct(r) && Keys(r) == Keys(c)
    ensures CountOf(r, k) == v
    ensures forall k' :: k' != k ==> CountOf(r, k') == CountOf(c, k')
    ensures Total(r) + CountOf(c, k) == Total(c) + v
  {
    PutEffect(c, k, v);
  }

  /** `d[k] += 1`: the count of `k` and the sum both rise by one, nothing else changes. */
  lemma IncrementEffect<K>(c: Tally<K>, k: K)
    requires Distinct(c) && k in Keys(c)
    ensures Distinct(Increment(c, k)) && Keys(Increment(c, k)) == Keys(c)
    ensures CountOf(Increment(c, k), k) == CountOf(c, k) + 1
    ensures forall k' :: k' != k ==> CountOf(Increment(c, k), k') == CountOf(c, k')
    ensures Total(Increment(c, k)) == Total(c) + 1
  {
    PutExisting(c, k, CountOf(c, k) + 1, Increment(c, k));
  }

  /** `if d.get(k) is None: d[k] = 0`: adds the key if needed and changes no count. */
  function SetDefault<K(==)>(c: Tally<K>, k: K): (r: Tally<K>)
    ensures k in Keys(r)
  {
    if k in Keys(c) then c
    else
      var r := Put(c, k, 0);
      assert Keys(r)[|c|] == r[|c|].0 == k;
      r
  }

  lemma SetDefaultEffect<K>(c: Tally<K>, k: K)
    requires Distinct(c)
    ensures Distinct(SetDefault(c, k)) && k in Keys(SetDefault(c, k))
    ensures forall k' :: CountOf(SetDefault(c, k), k') == CountOf(c, k')
    ensures forall k' :: k' in Keys(SetDefault(c, k)) <==> k' == k || k' in Keys(c)
    ensures Total(SetDefault(c, k)) == Total(c)
  {
    if k !in Keys(c) {
      PutEffect(c, k, 0);
      assert Keys(c + [(k, 0)]) == Keys(c) + [k];
    }
  }

  /**
   * Counting one more occurrence of `k`: its count rises by one, and a key not
   * yet present is added last with count 1.
   */
  function Bump<K(==)>(c: Tally<K>, k: K): Tally<K>
  {
    if |c| == 0 then [(k, 1)]
    else if c[0].0 == k then [(k, c[0].1 + 1)] + c[1..]
    else [c[0]] + Bump(c[1..], k)
  }

  /** The source's two steps, `if d.get(k) is None: d[k] = 0` and `d[k] += 1`, are one Bump. */
  lemma {:induction false} BumpIsDefaultThenIncrement<K>(c: Tally<K>, k: K)
    ensures k in Keys(SetDefault(c, k))
    ensures Increment(SetDefault(c, k), k) == Bump(c, k)
  {
    if |c| > 0 && c[0].0 != k {
      assert c == [c[0]] + c[1..];
      SetDefaultCons(c[0], c[1..], k);
      BumpIsDefaultThenIncrement(c[1..], k);
      IncrementCons(c[0], SetDefault(c[1..], k), k);
    } else if |c| > 0 {
      assert Keys(c)[0] == k;
    }
  }

  lemma SetDefaultCons<K>(x: (K, nat), rest: Tally<K>, k: K)
    requires x.0 != k
    ensures SetDefault([x] + rest, k) == [x] + SetDefault(rest, k)
  {
    var c := [x] + rest;
    assert c[1..] == rest;
    assert Keys(c) == [x.0] + Keys(rest);
    if k !in Keys(rest) {
      assert c + [(k, 0)] == [x] + (rest + [(k, 0)]);
    }
  }

  lemma IncrementCons<K>(x: (K, nat), d: Tally<K>, k: K)
    requires x.0 != k && k in Keys(d)
    ensures k in Keys([x] + d)
    ensures Increment([x] + d, k) == [x] + Increment(d, k)
  {
    var c := [x] + d;
    assert c[1..] == d;
    assert Keys(c) == [x.0] + Keys(d);
    assert CountOf(c, k) == CountOf(d, k);
  }

  /** Everything one Bump does to a dictionary with distinct keys. */
  lemma BumpEffect<K>(c: Tally<K>, k: K)
    requires Distinct(c)
    ensures Distinct(Bump(c, k)) && k in Keys(Bump(c, k))
    ensures forall x :: CountOf(Bump(c, k), x) == CountOf(c, x) + (if x == k then 1 else 0)
    ensures Total(Bump(c, k)) == Total(c) + 1
  {
    BumpIsDefaultThenIncrement(c, k);
    SetDefaultEffect(c, k);
    IncrementEffect(SetDefault(c, k), k);
  }

  /** Bump adds its key and no other. */
  lemma BumpKeys<K>(c: Tally<K>, k: K)
    ensures forall x :: x in Keys(Bump(c, k)) <==> x == k || x in Keys(c)
  {
    BumpIsDefaultThenIncrement(c, k);
    SetDefaultKeys(c, k);
    PutKeys(SetDefault(c, k), k, CountOf(SetDefault(c, k), k) + 1);
  }

  lemma SetDefaultKeys<K>(c: Tally<K>, k: K)
    ensures forall x :: x in Keys(SetDefault(c, k)) <==> x == k || x in Keys(c)
  {
    if k !in Keys(c) {
      assert Keys(c + [(k, 0)]) == Keys(c) + [k];
    }
  }

  lemma PutKeys<K>(c: Tally<K>, k: K, v: nat)
    requires k in Keys(c)
    ensures Keys(Put(c, k, v)) == Keys(c)
  {
  }

  /** `d[k] = d.get(k, 0)` only adds a missing key, like setdefault. */
  lemma {:induction false} PutOwnCount<K>(c: Tally<K>, k: K)
    ensures Put(c, k, CountOf(c, k)) == SetDefault(c, k)
  {
    if |c| > 0 && c[0].0 != k {
      assert c == [c[0]] + c[1..];
      assert Keys(c) == [c[0].0] + Keys(c[1..]);
      assert CountOf(c, k) == CountOf(c[1..], k);
      PutOwnCount(c[1..], k);
      SetDefaultCons(c[0], c[1..], k);
    } else if |c| > 0 {
      assert Keys(c)[0] == k;
      assert c == [c[0]] + c[1..];
    }
  }

  /** Put adds its key and no other. */
  lemma PutKeysGrow<K>(c: Tally<K>, k: K, v: nat)
    ensures forall x :: x in Keys(Put(c, k, v)) <==> x == k || x in Keys(c)
  {
    if k !in Keys(c) {
      assert Keys(c + [(k, v)]) == Keys(c) + [k];
    }
  }

  /** Every present key has been counted at least once. */
  predicate AllPositive<K>(c: Tally<K>)
  {
    forall i :: 0 <= i < |c| ==> c[i].1 >= 1
  }

  /** In a dictionary with distinct keys, the count of an entry's key is that entry's count. */
  lemma {:induction false} EntryCount<K>(c: Tally<K>, i: nat)
    requires Distinct(c) && i < |c|
    ensures CountOf(c, c[i].0) == c[i].1
  {
    if i > 0 {
      assert c[0].0 != c[i].0;
      assert c[1..][i - 1] == c[i];
      EntryCount(c[1..], i - 1);
    }
  }

  /** Bump keeps every present count at least 1. */
  lemma {:induction false} BumpPositive<K>(c: Tally<K>, k: K)
    requires AllPositive(c)
    ensures AllPositive(Bump(c, k))
  {
    if |c| > 0 && c[0].0 != k {
      BumpPositive(c[1..], k);
      var r := Bump(c, k);
      forall i | 0 <= i < |r| ensures r[i].1 >= 1 {
        if i > 0 {
          assert r[i] == Bump(c[1..], k)[i - 1];
        }
      }
    } else if |c| > 0 {
      var r := Bump(c, k);
      forall i | 0 <= i < |r| ensures r[i].1 >= 1 {
        if i > 0 {
          assert r[i] == c[i];
        }
      }
    }
  }

  /** Setting a key to 0, then incrementing it once, is the same as counting it from zero. */
  lemma CountFromDefault<K>(c: Tally<K>, k: K)
    requires Distinct(c)
    ensures k in Keys(SetDefault(c, k))
    ensures CountOf(Increment(SetDefault(c, k), k), k) == CountOf(c, k) + 1
    ensures Total(Increment(SetDefault(c, k), k)) == Total(c) + 1
  {
    SetDefaultEffect(c, k);
    IncrementEffect(SetDefault(c, k), k);
  }

  // ---------------------------------------------------------------------------
  // sorted(d.items(), key=count, reverse=True)
  // ---------------------------------------------------------------------------

  /** Places `x` after every entry with a larger count and before the rest. */
  function InsertByCount<K(==)>(x: (K, nat), s: Tally<K>): (r: Tally<K>)
    ensures multiset(r) == multiset{x} + multiset(s)
    ensures |r| == |s| + 1
  {
    if |s| == 0 || s[0].1 <= x.1 then [x] + s
    else
      assert s == [s[0]] + s[1..];
      [s[0]] + InsertByCount(x, s[1..])
  }

  /** Python's stable descending sort on the count. */
  function SortByCount<K(==)>(c: Tally<K>): (r: Tally<K>)
    ensures multiset(r) == multiset(c) && |r| == |c|
  {
    if |c| == 0 then []
    else
      assert c == [c[0]] + c[1..];
      InsertByCount(c[0], SortByCount(c[1..]))
  }

  predicate NonIncreasing<K(==)>(s: Tally<K>)
  {
    forall i, j :: 0 <= i < j < |s| ==> s[i].1 >= s[j].1
  }

  /** The entries of `s` whose count is `v`, in their order in `s`. */
  function WithCount<K(==)>(s: Tally<K>, v: nat): Tally<K>
  {
    if |s| == 0 then [] else (if s[0].1 == v then [s[0]] else []) + WithCount(s[1..], v)
  }

  lemma {:induction false} InsertKeepsOrder<K>(x: (K, nat), s: Tally<K>)
    requires NonIncreasing(s)
    ensures NonIncreasing(InsertByCount(x, s))
  {
    if |s| > 0 && s[0].1 > x.1 {
      InsertKeepsOrder(x, s[1..]);
      var r := InsertByCount(x, s);
      forall j | 0 < j < |r| ensures r[0].1 >= r[j].1 {
        assert r[j] in multiset(r[1..]);
        assert r[j] == x || r[j] in multiset(s[1..]);
        if r[j] != x {
          var k :| 0 <= k < |s[1..]| && s[1..][k] == r[j];
          assert s[0].1 >= s[k + 1].1;
        }
      }
    }
  }

  /** Inserting into a sorted sequence puts `x` ahead of every equal-count entry. */
  lemma {:induction false} InsertWithCount<K>(x: (K, nat), s: Tally<K>, v: nat)
    requires NonIncreasing(s)
    ensures WithCount(InsertByCount(x, s), v) == if x.1 == v then [x] + WithCount(s, v) else WithCount(s, v)
  {
    if |s| > 0 && s[0].1 > x.1 {
      InsertWithCount(x, s[1..], v);
      assert InsertByCount(x, s)[1..] == InsertByCount(x, s[1..]);
      if x.1 == v {
        assert s[0].1 != v;
      }
    } else {
      assert ([x] + s)[1..] == s;
    }
  }

  /** The result is ordered by non-increasing count. */
  lemma {:induction false} SortedByCount<K>(c: Tally<K>)
    ensures NonIncreasing(SortByCount(c))
  {
    if |c| > 0 {
      SortedByCount(c[1..]);
      InsertKeepsOrder(c[0], SortByCount(c[1..]));
    }
  }

  /** Stability: entries with equal counts keep their insertion order. */
  lemma {:induction false} SortIsStable<K>(c: Tally<K>, v: nat)
    ensures WithCount(SortByCount(c), v) == WithCount(c, v)
  {
    if |c| > 0 {
      SortIsStable(c[1..], v);
      SortedByCount(c[1..]);
      InsertWithCount(c[0], SortByCount(c[1..]), v);
    }
  }

  /** The set of keys. */
  ghost function KeySet<K>(c: Tally<K>): set<K>
  {
    set i | 0 <= i < |c| :: c[i].0
  }

  lemma {:induction false} InsertKeys<K>(x: (K, nat), s: Tally<K>)
    ensures KeySet(InsertByCount(x, s)) == {x.0} + KeySet(s)
  {
    if |s| > 0 && s[0].1 > x.1 {
      InsertKeys(x, s[1..]);
      var r := InsertByCount(x, s);
      assert r == [s[0]] + InsertByCount(x, s[1..]);
      ConsKeys(s[0], InsertByCount(x, s[1..]));
      ConsKeys(s[0], s[1..]);
      assert [s[0]] + s[1..] == s;
    } else {
      ConsKeys(x, s);
    }
  }

  lemma ConsKeys<K>(x: (K, nat), s: Tally<K>)
    ensures KeySet([x] + s) == {x.0} + KeySet(s)
  {
    var r := [x] + s;
    forall y | y in KeySet(s) ensures y in KeySet(r) {
      var i :| 0 <= i < |s| && s[i].0 == y;
      assert r[i + 1].0 == y;
    }
    forall y | y in KeySet(r) ensures y == x.0 || y in KeySet(s) {
      var i :| 0 <= i < |r| && r[i].0 == y;
      if i > 0 {
        assert s[i - 1].0 == y;
      }
    }
    assert r[0].0 == x.0;
  }

  lemma {:induction false} InsertDistinct<K>(x: (K, nat), s: Tally<K>)
    requires Distinct(s) && x.0 !in KeySet(s)
    ensures Distinct(InsertByCount(x, s))
  {
    if |s| > 0 && s[0].1 > x.1 {
      InsertDistinct(x, s[1..]);
      InsertKeys(x, s[1..]);
      ConsKeys(s[0], s[1..]);
      assert [s[0]] + s[1..] == s;
      var t := InsertByCount(x, s[1..]);
      assert s[0].0 !in KeySet(s[1..]);
      assert s[0].0 !in KeySet(t);
      ConsDistinct(s[0], t);
    } else {
      ConsDistinct(x, s);
    }
  }

  lemma ConsDistinct<K>(x: (K, nat), s: Tally<K>)
    requires Distinct(s) && x.0 !in KeySet(s)
    ensures Distinct([x] + s)
  {
    var r := [x] + s;
    forall i, j | 0 <= i < j < |r| ensures r[i].0 != r[j].0 {
      assert r[j] == s[j - 1];
      if i > 0 {
        assert r[i] == s[i - 1];
      }
    }
  }

  /** Sorting keeps the key set and keeps the keys distinct. */
  lemma {:induction false} SortKeepsDistinct<K>(c: Tally<K>)
    requires Distinct(c)
    ensures KeySet(SortByCount(c)) == KeySet(c)
    ensures Distinct(SortByCount(c))
  {
    if |c| > 0 {
      assert Distinct(c[1..]);
      SortKeepsDistinct(c[1..]);
      InsertKeys(c[0], SortByCount(c[1..]));
      ConsKeys(c[0], c[1..]);
      assert [c[0]] + c[1..] == c;
      assert c[0].0 !in KeySet(c[1..]);
      InsertDistinct(c[0], SortByCount(c[1..]));
    }
  }
}
