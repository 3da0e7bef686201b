/**
 * The values both forecasting strategies work on: yearly (year, value) series,
 * country records, the record store, and the handful of facts about sums and
 * minima that the strategies share.
 *
 * A Python dict keyed by year or by country name is modelled as a sequence of
 * (key, value) pairs in the dict's insertion order; `Lookup` is `d[key]`, with
 * `None` standing for the KeyError a missing key raises.
 */
module Data {

  datatype Option<T> = None | Some(value: T)

  /** One (year, value) pair of a yearly series. */
  type YearValue = (int, real)

  /** A country record of the store: population and the GDP-per-capita and CO2 series. */
  datatype Country = Country(
    name: string,
    code: string,
    population: int,
    gdpYearly: seq<YearValue>,
    co2Yearly: seq<YearValue>)

  /** The record store, country name to record, in the store's iteration order. */
  type Store = seq<(string, Country)>

  /** No key occurs twice: what a Python dict guarantees. */
  predicate DistinctKeys<K(==), V>(entries: seq<(K, V)>)
  {
    forall i, j :: 0 <= i < j < |entries| ==> entries[i].0 != entries[j].0
  }

  /** `d[key]` on a dict given by its entries; `None` is the KeyError. */
  function Lookup<K(==), V>(entries: seq<(K, V)>, key: K): Option<V>
  {
    if |entries| == 0 then None
    else if entries[0].0 == key then Some(entries[0].1)
    else Lookup(entries[1..], key)
  }

  /** The lookup succeeds exactly for a key that occurs, and finds a value stored with it. */
  lemma {:induction false} LookupFinds<K, V>(entries: seq<(K, V)>, key: K)
    ensures Lookup(entries, key).Some? <==> exists i :: 0 <= i < |entries| && entries[i].0 == key
    ensures Lookup(entries, key).Some? ==>
      exists i :: 0 <= i < |entries| && entries[i].0 == key && entries[i].1 == Lookup(entries, key).value
  {
    if |entries| > 0 && entries[0].0 != key {
      LookupFinds(entries[1..], key);
      assert forall i :: 1 <= i < |entries| ==> entries[i] == entries[1..][i - 1];
    }
  }

  /** In a dict, the value found for a key is the one stored with it. */
  lemma {:induction false} LookupDistinct<K, V>(entries: seq<(K, V)>, key: K, i: int)
    requires DistinctKeys(entries)
    requires 0 <= i < |entries| && entries[i].0 == key
    ensures Lookup(entries, key) == Some(entries[i].1)
  {
    if i > 0 {
      assert entries[0].0 != key;
      assert DistinctKeys(entries[1..]) by {
        forall a, b | 0 <= a < b < |entries[1..]|
          ensures entries[1..][a].0 != entries[1..][b].0
        {
          assert entries[1..][a] == entries[a + 1] && entries[1..][b] == entries[b + 1];
        }
      }
      LookupDistinct(entries[1..], key, i - 1);
    }
  }

  /** The values of a series, years dropped. */
  function Values(s: seq<YearValue>): (r: seq<real>)
    ensures |r| == |s|
    ensures forall i :: 0 <= i < |s| ==> r[i] == s[i].1
  {
    seq(|s|, i requires 0 <= i < |s| => s[i].1)
  }

  function Abs(x: real): real
  {
    if x < 0.0 then -x else x
  }

  /** Python's `sum`: the values added left to right, starting from 0. */
  function Sum(s: seq<real>): real
  {
    if |s| == 0 then 0.0 else Sum(s[..|s| - 1]) + s[|s| - 1]
  }

  /** Sum of a list grown by one element, the step of every accumulating loop. */
  lemma SumAppend(s: seq<real>, x: real)
    ensures Sum(s + [x]) == Sum(s) + x
  {
    assert (s + [x])[..|s|] == s;
  }

  /** Elementwise bounds on a list give bounds on its sum. */
  lemma {:induction false} SumWithin(s: seq<real>, lo: real, hi: real)
    requires forall i :: 0 <= i < |s| ==> lo <= s[i] <= hi
    ensures lo * |s| as real <= Sum(s) <= hi * |s| as real
  {
    if |s| > 0 {
      SumWithin(s[..|s| - 1], lo, hi);
    }
  }

  /** Strict elementwise bounds on a non-empty list give strict bounds on its sum. */
  lemma {:induction false} SumStrictlyWithin(s: seq<real>, lo: real, hi: real)
    requires |s| > 0
    requires forall i :: 0 <= i < |s| ==> lo < s[i] < hi
    ensures lo * |s| as real < Sum(s) < hi * |s| as real
  {
    if |s| > 1 {
      SumStrictlyWithin(s[..|s| - 1], lo, hi);
    }
  }

  lemma MulMonotone(a: real, b: real, c: real)
    requires a <= b && 0.0 <= c
    ensures a * c <= b * c
  {
  }

  /** A lower bound on x that holds after scaling by a positive t holds of x / t. */
  lemma DivAtLeast(x: real, t: real, lo: real)
    requires t > 0.0 && lo * t <= x
    ensures lo <= x / t
  {
  }

  /** An upper bound on x that holds after scaling by a positive t holds of x / t. */
  lemma DivAtMost(x: real, t: real, hi: real)
    requires t > 0.0 && x <= hi * t
    ensures x / t <= hi
  {
  }

  /** Python's `min` on a non-empty list of numbers. */
  function Minimum(s: seq<real>): (m: real)
    requires |s| > 0
    ensures m in s
    ensures forall i :: 0 <= i < |s| ==> m <= s[i]
  {
    if |s| == 1 then s[0]
    else
      var rest := Minimum(s[1..]);
      assert forall i :: 1 <= i < |s| ==> s[i] == s[1..][i - 1];
      if s[0] <= rest then s[0] else rest
  }

  /** Python's `max` on a non-empty list of numbers. */
  function Maximum(s: seq<real>): (m: real)
    requires |s| > 0
    ensures m in s
    ensures forall i :: 0 <= i < |s| ==> s[i] <= m
  {
    if |s| == 1 then s[0]
    else
      var rest := Maximum(s[1..]);
      assert forall i :: 1 <= i < |s| ==> s[i] == s[1..][i - 1];
      if rest <= s[0] then s[0] else rest
  }

  /** `[i for i, v in enumerate(s) if v == x][0]`: the first position holding `x`. */
  function FirstIndexOf(s: seq<real>, x: real): (k: nat)
    requires x in s
    ensures k < |s| && s[k] == x
    ensures forall j :: 0 <= j < k ==> s[j] != x
  {
    if s[0] == x then 0
    else
      assert x in s[1..];
      1 + FirstIndexOf(s[1..], x)
  }

  /** Position `k` holds a least element of `s` and no earlier position does. */
  predicate IsFirstMinimum(s: seq<real>, k: int)
  {
    0 <= k < |s| &&
    (forall j :: 0 <= j < |s| ==> s[k] <= s[j]) &&
    (forall j :: 0 <= j < k ==> s[k] < s[j])
  }

  /**
   * The source's "take the minimum, then the first entry equal to it": the
   * first position of a least element.
   */
  function FirstMinimumIndex(s: seq<real>): (k: nat)
    requires |s| > 0
    ensures IsFirstMinimum(s, k)
  {
    FirstIndexOf(s, Minimum(s))
  }

  /** At most one position is the first minimum: the tie-break is deterministic. */
  lemma FirstMinimumUnique(s: seq<real>, a: int, b: int)
    requires IsFirstMinimum(s, a) && IsFirstMinimum(s, b)
    ensures a == b
  {
    assert s[a] == s[b];
  }

  /**
   * The start index Python uses for `l[start:]` on a list of the given length:
   * a negative start counts from the end, and the result is clamped to the list.
   */
  function SliceStart(length: nat, start: int): (r: nat)
    ensures r <= length
    ensures 0 <= start <= length ==> r == start
    ensures 0 <= length + start < length ==> r == length + start
    ensures length + start < 0 ==> r == 0
    ensures start > length ==> r == length
  {
    if start < 0 then (if length + start < 0 then 0 else length + start)
    else if start > length then length
    else start
  }
}
