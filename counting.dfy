/**
 Counting over sequences: how often a value occurs, the distinct values in
 first-seen order, and sums of per-key counts. The spider's histograms are
 instances of these definitions.
 */
module Counting {

  /** No value occurs twice in `s`. */
  predicate Distinct<T(==)>(s: seq<T>)
  {
    forall i, j :: 0 <= i < j < |s| ==> s[i] != s[j]
  }

  /** Number of positions of `xs` that hold `x`. */
  function Occurrences<T(==)>(xs: seq<T>, x: T): (n: nat)
    ensures n <= |xs|
  {
    if xs == [] then 0
    else Occurrences(xs[..|xs| - 1], x) + (if xs[|xs| - 1] == x then 1 else 0)
  }

  /** A value occurs a positive number of times exactly when it is in the sequence. */
  lemma {:induction false} OccursIffIn<T>(xs: seq<T>, x: T)
    ensures Occurrences(xs, x) > 0 <==> x in xs
  {
    if xs != [] {
      var init := xs[..|xs| - 1];
      assert xs == init + [xs[|xs| - 1]];
      OccursIffIn(init, x);
    }
  }

  /** The sum, over the entries of `keys`, of how often each occurs in `xs`. */
  function SumOccurrences<T(==)>(keys: seq<T>, xs: seq<T>): nat
  {
    if keys == [] then 0
    else SumOccurrences(keys[..|keys| - 1], xs) + Occurrences(xs, keys[|keys| - 1])
  }

  /** The sum of the values `m` gives the entries of `keys`, in order. */
  function SumValues<K>(keys: seq<K>, m: map<K, nat>): nat
    requires forall k :: k in keys ==> k in m
  {
    if keys == [] then 0
    else SumValues(keys[..|keys| - 1], m) + m[keys[|keys| - 1]]
  }

  /** The distinct values of `xs`, each once, in the order of their first occurrence. */
  function FirstSeen<T(==, !new)>(xs: seq<T>): (keys: seq<T>)
    ensures Distinct(keys)
    ensures forall x :: x in keys <==> x in xs
  {
    if xs == [] then []
    else
      var init, last := xs[..|xs| - 1], xs[|xs| - 1];
      assert xs == init + [last];
      var seen := FirstSeen(init);
      if last in seen then seen else seen + [last]
  }

  /** Appending one value to `xs` adds, to the sum over `keys`, the number of times that value is a key. */
  lemma {:induction false} SumOccurrencesAppend<T>(keys: seq<T>, xs: seq<T>, y: T)
    ensures SumOccurrences(keys, xs + [y]) == SumOccurrences(keys, xs) + Occurrences(keys, y)
  {
    assert (xs + [y])[..|xs|] == xs;
    if keys != [] {
      SumOccurrencesAppend(keys[..|keys| - 1], xs, y);
    }
  }

  /** Nothing occurs in the empty sequence, whatever the keys. */
  lemma {:induction false} SumOccurrencesOfEmpty<T>(keys: seq<T>)
    ensures SumOccurrences(keys, []) == 0
  {
    if keys != [] {
      SumOccurrencesOfEmpty(keys[..|keys| - 1]);
    }
  }

  /** A key of a duplicate-free sequence occurs there exactly once. */
  lemma {:induction false} OccursOnce<T>(keys: seq<T>, y: T)
    requires Distinct(keys)
    requires y in keys
    ensures Occurrences(keys, y) == 1
  {
    var init := keys[..|keys| - 1];
    assert keys == init + [keys[|keys| - 1]];
    if keys[|keys| - 1] == y {
      assert y !in init;
      OccursIffIn(init, y);
    } else {
      OccursOnce(init, y);
    }
  }

  /**
   When `keys` lists every value of `xs` exactly once, the per-key counts
   add up to the length of `xs`: a histogram over a partition loses and
   duplicates nothing.
   */
  lemma {:induction false} CountsPartition<T>(keys: seq<T>, xs: seq<T>)
    requires Distinct(keys)
    requires forall x :: x in xs ==> x in keys
    ensures SumOccurrences(keys, xs) == |xs|
  {
    if xs == [] {
      SumOccurrencesOfEmpty(keys);
    } else {
      var init, last := xs[..|xs| - 1], xs[|xs| - 1];
      assert xs == init + [last];
      CountsPartition(keys, init);
      SumOccurrencesAppend(keys, init, last);
      OccursOnce(keys, last);
    }
  }

  /** A map that holds, for every key, its count in `xs` sums to the same total as the counts. */
  lemma {:induction false} SumValuesOfCounts<T>(keys: seq<T>, m: map<T, nat>, xs: seq<T>)
    requires forall k :: k in keys ==> k in m && m[k] == Occurrences(xs, k)
    ensures SumValues(keys, m) == SumOccurrences(keys, xs)
  {
    if keys != [] {
      SumValuesOfCounts(keys[..|keys| - 1], m, xs);
    }
  }

  /**
   Changing the value of one key of a duplicate-free key list changes the sum
   by exactly the difference: the key is counted once, every other key as before.
   */
  lemma {:induction false} SumValuesUpdate<K>(keys: seq<K>, m: map<K, nat>, k: K, v: nat)
    requires Distinct(keys)
    requires forall x :: x in keys ==> x in m
    requires k in keys
    ensures SumValues(keys, m[k := v]) + m[k] == SumValues(keys, m) + v
  {
    var init, last := keys[..|keys| - 1], keys[|keys| - 1];
    assert keys == init + [last];
    if last == k {
      assert k !in init;
      SumValuesUnchanged(init, m, k, v);
    } else {
      SumValuesUpdate(init, m, k, v);
    }
  }

  /** Changing the value of a key that is not listed leaves the sum as it was. */
  lemma {:induction false} SumValuesUnchanged<K>(keys: seq<K>, m: map<K, nat>, k: K, v: nat)
    requires forall x :: x in keys ==> x in m
    requires k !in keys
    ensures SumValues(keys, m[k := v]) == SumValues(keys, m)
  {
    if keys != [] {
      var init := keys[..|keys| - 1];
      assert keys == init + [keys[|keys| - 1]];
      SumValuesUnchanged(init, m, k, v);
    }
  }

  /** The values of `s`, as a set. */
  function Elements<T>(s: seq<T>): set<T>
  {
    set x | x in s
  }

  /**
   A sequence has at most as many distinct values as entries, and exactly as
   many when no value occurs twice.
   */
  lemma {:induction false} ElementsOfDistinct<T>(s: seq<T>)
    ensures |Elements(s)| <= |s|
    ensures |Elements(s)| == |s| <==> Distinct(s)
  {
    if s != [] {
      var init, last := s[..|s| - 1], s[|s| - 1];
      assert s == init + [last];
      ElementsOfDistinct(init);
      assert Elements(s) == Elements(init) + {last};
      if last in init {
        var i :| 0 <= i < |init| && init[i] == last;
        assert s[i] == s[|s| - 1];
        assert Elements(s) == Elements(init);
      } else {
        assert last !in Elements(init);
        if Distinct(init) {
          forall i, j | 0 <= i < j < |s| ensures s[i] != s[j] {
            if j == |s| - 1 {
              assert s[i] == init[i];
            } else {
              assert s[i] == init[i] && s[j] == init[j];
            }
          }
        } else {
          var i, j :| 0 <= i < j < |init| && init[i] == init[j];
          assert s[i] == s[j];
        }
      }
    }
  }

  /** Wherever a later entry of `keys` occurs in `xs`, every earlier entry has occurred before it. */
  predicate InFirstSeenOrder<T(==, !new)>(keys: seq<T>, xs: seq<T>)
  {
    forall i, j, k :: 0 <= i < j < |keys| && 0 <= k < |xs| && xs[k] == keys[j] ==> keys[i] in xs[..k]
  }

  /**
   The keys of `FirstSeen(xs)` come in the order of first occurrence: wherever
   a later key occurs in `xs`, every earlier key has already occurred before it.
   */
  lemma {:induction false} FirstSeenOrder<T(!new)>(xs: seq<T>)
    ensures InFirstSeenOrder(FirstSeen(xs), xs)
  {
    if xs != [] {
      var init, last := xs[..|xs| - 1], xs[|xs| - 1];
      assert xs == init + [last];
      FirstSeenOrder(init);
      var seen, keys := FirstSeen(init), FirstSeen(xs);
      forall i, j, k | 0 <= i < j < |keys| && 0 <= k < |xs| && xs[k] == keys[j]
        ensures keys[i] in xs[..k]
      {
        assert keys[i] == seen[i];
        if k < |init| {
          assert xs[..k] == init[..k];
          assert init[k] == keys[j];
          assert keys[j] == seen[j];
        } else {
          assert xs[..k] == init;
        }
      }
    }
  }
}
