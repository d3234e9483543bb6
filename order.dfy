/** Construction of a session's play order: the identity array of pool
    indices, shuffled in place by Fisher-Yates, then cut to at most
    TARGET_ROUNDS entries.

    The random swap partner of each step is not modelled as randomness: it is
    an input `draws`, where `draws[i]` is the partner chosen for position `i`.
    Every property below holds for EVERY sequence of draws in range, so it
    holds whatever the random source returns. */
module Order {

  /** Number of rounds a session plays when the pool is large enough. */
  const TARGET_ROUNDS: nat := 10

  /** Rounds in a session over a pool of `poolLength` questions:
      the smaller of TARGET_ROUNDS and the pool length. */
  function TotalRounds(poolLength: nat): (r: nat)
    ensures r <= TARGET_ROUNDS && r <= poolLength
    ensures r == TARGET_ROUNDS || r == poolLength
  {
    if poolLength < TARGET_ROUNDS then poolLength else TARGET_ROUNDS
  }

  /** The identity array 0, 1, ..., n - 1. */
  function Identity(n: nat): (r: seq<nat>)
    ensures |r| == n
    ensures forall k | 0 <= k < n :: r[k] == k
  {
    seq(n, k => k)
  }

  /** No value occurs twice in `s`. */
  ghost predicate Distinct(s: seq<nat>) {
    forall a, b | 0 <= a < b < |s| :: s[a] != s[b]
  }

  /** Every entry of `s` is an index into a pool of `n` questions. */
  ghost predicate Below(s: seq<nat>, n: nat) {
    forall k | 0 <= k < |s| :: s[k] < n
  }

  /** `s` is a rearrangement of 0, 1, ..., n - 1. */
  ghost predicate IsPermutationOfRange(s: seq<nat>, n: nat) {
    && |s| == n
    && multiset(s) == multiset(Identity(n))
    && Distinct(s)
    && Below(s, n)
  }

  /** The swap partners a shuffle of `n` indices may use: the step for
      position i (from n - 1 down to 1) picks a partner j with 0 <= j <= i.
      `draws[0]` is never used. */
  ghost predicate ValidDraws(draws: seq<nat>, n: nat) {
    |draws| == n && forall i | 0 < i < n :: draws[i] <= i
  }

  /** The identity array is itself a permutation of 0..n-1. */
  lemma IdentityIsPermutation(n: nat)
    ensures IsPermutationOfRange(Identity(n), n)
  {
  }

  /** Exchange of the entries at positions i and j. */
  function Swap(s: seq<nat>, i: nat, j: nat): (r: seq<nat>)
    requires i < |s| && j < |s|
    ensures |r| == |s| && r[i] == s[j] && r[j] == s[i]
    ensures forall k | 0 <= k < |s| && k != i && k != j :: r[k] == s[k]
  {
    s[i := s[j]][j := s[i]]
  }

  /** A swap only rearranges: the multiset of entries is kept. */
  lemma SwapPermutes(s: seq<nat>, i: nat, j: nat)
    requires i < |s| && j < |s|
    ensures multiset(Swap(s, i, j)) == multiset(s)
  {
  }

  /** The index array after the shuffle steps for positions i, i - 1, ..., 1
      have been applied to `s`, each step swapping position k with draws[k]. */
  function ShuffleDown(s: seq<nat>, draws: seq<nat>, i: int): seq<nat>
    requires i < |s| && i < |draws|
    requires forall k | 0 < k <= i :: draws[k] <= k
    decreases i
  {
    if i <= 0 then s else ShuffleDown(Swap(s, i, draws[i]), draws, i - 1)
  }

  /** The shuffle steps only rearrange: length and multiset are kept. */
  lemma {:induction false} ShuffleDownPermutes(s: seq<nat>, draws: seq<nat>, i: int)
    requires i < |s| && i < |draws|
    requires forall k | 0 < k <= i :: draws[k] <= k
    ensures |ShuffleDown(s, draws, i)| == |s|
    ensures multiset(ShuffleDown(s, draws, i)) == multiset(s)
    decreases i
  {
    if i > 0 {
      var swapped := Swap(s, i, draws[i]);
      SwapPermutes(s, i, draws[i]);
      ShuffleDownPermutes(swapped, draws, i - 1);
      ShuffleDownStep(s, draws, i);
    }
  }

  /** One shuffle step: position i is swapped with draws[i] first. */
  lemma ShuffleDownStep(s: seq<nat>, draws: seq<nat>, i: nat)
    requires 0 < i < |s| && i < |draws|
    requires forall k | 0 < k <= i :: draws[k] <= k
    ensures ShuffleDown(s, draws, i) == ShuffleDown(Swap(s, i, draws[i]), draws, i - 1)
  {
  }

  /** A swap of two positions never creates a duplicate. */
  lemma SwapKeepsDistinct(s: seq<nat>, i: nat, j: nat)
    requires i < |s| && j < |s| && Distinct(s)
    ensures Distinct(Swap(s, i, j))
  {
  }

  /** The shuffle steps keep a duplicate-free array duplicate-free. */
  lemma {:induction false} ShuffleDownKeepsDistinct(s: seq<nat>, draws: seq<nat>, i: int)
    requires i < |s| && i < |draws|
    requires forall k | 0 < k <= i :: draws[k] <= k
    requires Distinct(s)
    ensures Distinct(ShuffleDown(s, draws, i))
    decreases i
  {
    if i > 0 {
      var swapped := Swap(s, i, draws[i]);
      SwapKeepsDistinct(s, i, draws[i]);
      ShuffleDownKeepsDistinct(swapped, draws, i - 1);
      ShuffleDownStep(s, draws, i);
    }
  }

  /** Entries of `r` lie below `n` when `r` holds the same multiset as an
      array whose entries do. */
  lemma SameMultisetKeepsBelow(s: seq<nat>, r: seq<nat>, n: nat)
    requires multiset(r) == multiset(s) && Below(s, n)
    ensures Below(r, n)
  {
    forall k | 0 <= k < |r| ensures r[k] < n {
      assert r[k] in multiset(r);
      assert r[k] in s;
    }
  }

  /** The whole shuffle of the identity array of length n, as the loop from
      position n - 1 down to 1 computes it; a permutation of 0..n-1 for every
      choice of draws. */
  function Shuffle(n: nat, draws: seq<nat>): (r: seq<nat>)
    requires ValidDraws(draws, n)
    ensures IsPermutationOfRange(r, n)
  {
    var id := Identity(n);
    IdentityIsPermutation(n);
    ShuffleDownPermutes(id, draws, n - 1);
    ShuffleDownKeepsDistinct(id, draws, n - 1);
    SameMultisetKeepsBelow(id, ShuffleDown(id, draws, n - 1), n);
    ShuffleDown(id, draws, n - 1)
  }

  /** Two arrays with the same multiset that agree from position m on have
      the same multiset of their first m entries. */
  lemma SameTailSamePrefix(s: seq<nat>, t: seq<nat>, m: nat)
    requires m <= |s| == |t| && multiset(t) == multiset(s)
    requires forall k | m <= k < |s| :: t[k] == s[k]
    ensures multiset(t[..m]) == multiset(s[..m])
  {
    assert s == s[..m] + s[m..] && t == t[..m] + t[m..];
    assert t[m..] == s[m..];
    assert multiset(s) == multiset(s[..m]) + multiset(s[m..]);
    assert multiset(t) == multiset(t[..m]) + multiset(s[m..]);
    assert multiset(t[..m]) == multiset(t) - multiset(s[m..]);
    assert multiset(s[..m]) == multiset(s) - multiset(s[m..]);
  }

  /** The entry `t` wants at position i sits at some position j <= i of `s`
      when both hold the same multiset and already agree above i. */
  lemma FindSource(s: seq<nat>, t: seq<nat>, i: nat) returns (j: nat)
    requires i < |s| == |t| && multiset(t) == multiset(s)
    requires forall k | i < k < |s| :: t[k] == s[k]
    ensures j <= i && s[j] == t[i]
  {
    SameTailSamePrefix(s, t, i + 1);
    assert t[i] in multiset(t[..i + 1]);
    assert t[i] in s[..i + 1];
    j :| 0 <= j <= i && s[j] == t[i];
  }

  /** Two arrays with the same multiset that agree from position 1 on are
      equal. */
  lemma SameTailIsSame(s: seq<nat>, t: seq<nat>)
    requires 0 < |s| == |t| && multiset(t) == multiset(s)
    requires forall k | 0 < k < |s| :: t[k] == s[k]
    ensures t == s
  {
    SameTailSamePrefix(s, t, 1);
    assert t[..1] == [t[0]] && s[..1] == [s[0]];
    assert t[0] in multiset(s[..1]);
  }

  /** Swapping into position i the entry `t` wants there extends the part
      where the two arrays agree down to position i. */
  lemma SwapIntoPlace(s: seq<nat>, t: seq<nat>, i: nat, j: nat)
    requires j <= i < |s| == |t| && s[j] == t[i]
    requires forall k | i < k < |s| :: t[k] == s[k]
    ensures forall k | i <= k < |s| :: t[k] == Swap(s, i, j)[k]
  {
  }

  /** Conversely, the steps for positions i, ..., 1 can turn `s` into any
      rearrangement `t` that agrees with it above position i: some choice of
      the draws at positions 1..i reaches it, whatever the draws above i. */
  lemma {:induction false} ShuffleDownReaches(s: seq<nat>, t: seq<nat>, i: nat, fixed: seq<nat>)
    returns (draws: seq<nat>)
    requires i < |s| == |t| == |fixed|
    requires multiset(t) == multiset(s)
    requires forall k | i < k < |s| :: t[k] == s[k]
    ensures |draws| == |fixed|
    ensures forall k | i < k < |fixed| :: draws[k] == fixed[k]
    ensures forall k | 0 < k <= i :: draws[k] <= k
    ensures ShuffleDown(s, draws, i) == t
    decreases i
  {
    if i == 0 {
      SameTailIsSame(s, t);
      draws := fixed;
    } else {
      var j := FindSource(s, t, i);
      var s' := Swap(s, i, j);
      SwapPermutes(s, i, j);
      SwapIntoPlace(s, t, i, j);
      draws := ShuffleDownReaches(s', t, i - 1, fixed[i := j]);
      assert draws[i] == j;
      assert forall k | 0 < k <= i :: draws[k] <= k;
      ShuffleDownStep(s, draws, i);
    }
  }

  /** Every rearrangement of 0..n-1 is the shuffle for some choice of draws:
      together with the ensures of Shuffle, the shuffles of n indices are
      exactly the permutations of 0..n-1. */
  lemma EveryPermutationIsReachable(p: seq<nat>, n: nat) returns (draws: seq<nat>)
    requires |p| == n && multiset(p) == multiset(Identity(n))
    ensures ValidDraws(draws, n) && Shuffle(n, draws) == p
  {
    if n == 0 {
      draws := [];
    } else {
      var id := Identity(n);
      draws := ShuffleDownReaches(id, p, n - 1, id);
    }
  }

  /** The first `k` entries of a rearrangement of 0..n-1 are distinct pool
      indices, each taken from 0..n-1 at most once. */
  lemma PrefixOfPermutation(p: seq<nat>, n: nat, k: nat)
    requires IsPermutationOfRange(p, n) && k <= n
    ensures |p[..k]| == k && Distinct(p[..k]) && Below(p[..k], n)
    ensures multiset(p[..k]) <= multiset(Identity(n))
  {
    assert p == p[..k] + p[k..];
    assert multiset(p) == multiset(p[..k]) + multiset(p[k..]);
  }

  /** The play order of a session over `n` questions: the shuffled indices
      cut to TotalRounds(n) entries. */
  function PlayOrder(n: nat, draws: seq<nat>): (order: seq<nat>)
    requires ValidDraws(draws, n)
    ensures |order| == TotalRounds(n)
    ensures Distinct(order) && Below(order, n)
    ensures multiset(order) <= multiset(Identity(n))
  {
    var p := Shuffle(n, draws);
    PrefixOfPermutation(p, n, TotalRounds(n));
    p[..TotalRounds(n)]
  }

  /** The identity array followed by the in-place Fisher-Yates loop, with
      `draws[i]` as the partner of position i. */
  method ShuffleIndices(n: nat, draws: seq<nat>) returns (indices: seq<nat>)
    requires ValidDraws(draws, n)
    ensures indices == Shuffle(n, draws)
    ensures IsPermutationOfRange(indices, n)
  {
    var a := new nat[n](k => k);
    assert a[..] == Identity(n);
    var i: int := n - 1;
    while i > 0
      invariant -1 <= i < n
      invariant ShuffleDown(a[..], draws, i) == Shuffle(n, draws)
    {
      var j := draws[i];
      a[i], a[j] := a[j], a[i];
      i := i - 1;
    }
    indices := a[..];
  }
}
