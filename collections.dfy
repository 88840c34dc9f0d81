/**
 * Order-preserving de-duplication, as `[...new Set(xs)]` and the insertion
 * order of a JavaScript object's keys produce it, and facts about updating
 * a dictionary one key at a time.
 */
module Collections {

  /** The distinct elements of `xs` in order of first occurrence. */
  function Distinct<T(==)>(xs: seq<T>): seq<T>
  {
    if |xs| == 0 then []
    else
      var prefix := Distinct(xs[..|xs| - 1]);
      if xs[|xs| - 1] in prefix then prefix else prefix + [xs[|xs| - 1]]
  }

  predicate NoDuplicates<T(==)>(s: seq<T>)
  {
    forall i, j :: 0 <= i < j < |s| ==> s[i] != s[j]
  }

  lemma {:induction false} DistinctElements<T>(xs: seq<T>)
    ensures forall x :: x in Distinct(xs) <==> x in xs
  {
    if |xs| > 0 {
      DistinctElements(xs[..|xs| - 1]);
      assert xs == xs[..|xs| - 1] + [xs[|xs| - 1]];
    }
  }

  lemma {:induction false} DistinctHasNoDuplicates<T>(xs: seq<T>)
    ensures NoDuplicates(Distinct(xs))
  {
    if |xs| > 0 {
      DistinctHasNoDuplicates(xs[..|xs| - 1]);
    }
  }

  /** The first element of the de-duplicated list is the first element of the list. */
  lemma {:induction false} DistinctStartsWithFirst<T>(xs: seq<T>)
    requires |xs| > 0
    ensures |Distinct(xs)| > 0 && Distinct(xs)[0] == xs[0]
  {
    if |xs| > 1 {
      DistinctStartsWithFirst(xs[..|xs| - 1]);
    }
  }

  /** A map equals an update of another when it has that key's value, at most that one key more, and every other entry. */
  lemma MapUpdated<K, V>(m2: map<K, V>, m: map<K, V>, k: K, v: V)
    requires forall k' :: k' in m2 <==> k' in m || k' == k
    requires k in m2 && m2[k] == v
    requires forall k' :: k' in m2 && k' != k ==> k' in m && m2[k'] == m[k']
    ensures m2 == m[k := v]
  {
  }

  /** Setting a key overwrites whatever an earlier update put there. */
  lemma MapOverwritten<K, V>(m: map<K, V>, k: K, m1: map<K, V>, v: V)
    requires forall k' :: k' in m1 <==> k' in m || k' == k
    requires forall k' :: k' in m && k' != k ==> m1[k'] == m[k']
    ensures m1[k := v] == m[k := v]
  {
  }

  /** A sequence is its part before `k`, its element at `k` and its part after `k`. */
  lemma SplitAround<T>(s: seq<T>, k: nat)
    requires k < |s|
    ensures s == s[..k] + [s[k]] + s[k + 1..]
  {
  }

  /** A non-empty sequence is its first element followed by the rest. */
  lemma SplitFirst<T>(s: seq<T>)
    requires |s| > 0
    ensures s == [s[0]] + s[1..]
  {
  }

  /** The prefix one element longer is the prefix with that element appended. */
  lemma PrefixSnoc<T>(s: seq<T>, i: nat)
    requires i < |s|
    ensures s[..i + 1] == s[..i] + [s[i]]
  {
  }

  /** The prefix as long as the sequence is the sequence. */
  lemma PrefixWhole<T>(s: seq<T>)
    ensures s[..|s|] == s
  {
  }
}
