/**
 * The array helpers experiments use to randomise stimuli: drawing elements with
 * replacement and a Fisher–Yates shuffle. `Math.random()` is a parameter: a sequence
 * of draws, each in [0, 1), consumed one per loop iteration.
 */
module Arrays {

  /** Every draw is a value `Math.random()` can return. */
  predicate Draws(random: seq<real>)
  {
    forall k :: 0 <= k < |random| ==> 0.0 <= random[k] < 1.0
  }

  /** `Math.floor(r * bound)`: an index below bound. */
  function RandomIndex(r: real, bound: nat): (j: nat)
    requires 0.0 <= r < 1.0 && bound > 0
    ensures j < bound
  {
    var x := r * bound as real;
    assert 0.0 <= x < bound as real by {
      assert x < 1.0 * bound as real;
    }
    x.Floor
  }

  /** Exchanging the elements at i and j. */
  function Swap<T>(s: seq<T>, i: nat, j: nat): (r: seq<T>)
    requires i < |s| && j < |s|
    ensures |r| == |s| && r[i] == s[j] && r[j] == s[i]
  {
    s[i := s[j]][j := s[i]]
  }

  lemma SwapPermutes<T>(s: seq<T>, i: nat, j: nat)
    requires i < |s| && j < |s|
    ensures multiset(Swap(s, i, j)) == multiset(s)
  {
  }

  /**
   * The first k steps of the shuffle: step m (from 1) exchanges position |s| - m with the
   * index drawn from draw m - 1. The result is a permutation of s.
   */
  function ShuffleSteps<T>(s: seq<T>, random: seq<real>, k: nat): (r: seq<T>)
    requires k <= |s| && k <= |random| && Draws(random)
    ensures |r| == |s|
  {
    if k == 0 then s
    else
      var i := |s| - k;
      Swap(ShuffleSteps(s, random, k - 1), i, RandomIndex(random[k - 1], i + 1))
  }

  /** Every step exchanges two elements, so the steps together only reorder s. */
  lemma {:induction false} ShuffleStepsPermutes<T>(s: seq<T>, random: seq<real>, k: nat)
    requires k <= |s| && k <= |random| && Draws(random)
    ensures multiset(ShuffleSteps(s, random, k)) == multiset(s)
  {
    if k > 0 {
      var i := |s| - k;
      var prev := ShuffleSteps(s, random, k - 1);
      var r := Swap(prev, i, RandomIndex(random[k - 1], i + 1));
      assert ShuffleSteps(s, random, k) == r;
      ShuffleStepsPermutes(s, random, k - 1);
      SwapPermutes(prev, i, RandomIndex(random[k - 1], i + 1));
    }
  }

  /** The whole shuffle: one step per position, from the last to the first. */
  function Shuffled<T>(s: seq<T>, random: seq<real>): (r: seq<T>)
    requires |s| <= |random| && Draws(random)
    ensures |r| == |s| && multiset(r) == multiset(s)
    ensures forall k :: 0 <= k < |r| ==> r[k] in s
  {
    ShuffleStepsPermutes(s, random, |s|);
    var r := ShuffleSteps(s, random, |s|);
    assert forall k :: 0 <= k < |r| ==> r[k] in multiset(r);
    r
  }

  /** Positions already visited are never touched again: the last position is fixed by the first step. */
  lemma {:induction false} ShuffleStepsKeepsTail<T>(s: seq<T>, random: seq<real>, k: nat, m: nat)
    requires m <= k <= |s| && k <= |random| && Draws(random)
    ensures ShuffleSteps(s, random, k)[|s| - m..] == ShuffleSteps(s, random, m)[|s| - m..]
  {
    if k > m {
      ShuffleStepsKeepsTail(s, random, k - 1, m);
      var prev := ShuffleSteps(s, random, k - 1);
      var i := |s| - k;
      var r := Swap(prev, i, RandomIndex(random[k - 1], i + 1));
      assert ShuffleSteps(s, random, k) == r;
      assert r[|s| - m..] == prev[|s| - m..] by {
        forall t | |s| - m <= t < |s|
          ensures r[t] == prev[t]
        {
        }
      }
    }
  }

  /** A draw that always picks the current position leaves the array as it was. */
  lemma {:induction false} ShuffleStepsIdentity<T>(s: seq<T>, random: seq<real>, k: nat)
    requires k <= |s| && k <= |random| && Draws(random)
    requires forall m :: 0 <= m < k ==> RandomIndex(random[m], |s| - m) == |s| - 1 - m
    ensures ShuffleSteps(s, random, k) == s
  {
    if k > 0 {
      ShuffleStepsIdentity(s, random, k - 1);
    }
  }

  /**
   * `sample(array, n)`: n draws with replacement, the element at `floor(r * length)`
   * for each draw r; an empty array gives [] whatever n is.
   */
  method Sample<T>(a: array<T>, n: int, random: seq<real>) returns (result: seq<T>)
    requires Draws(random) && (a.Length > 0 ==> n <= |random|)
    ensures a.Length == 0 ==> result == []
    ensures a.Length > 0 ==> |result| == if n < 0 then 0 else n
    ensures a.Length > 0 ==> forall k :: 0 <= k < |result| ==> result[k] == a[RandomIndex(random[k], a.Length)]
    ensures forall k :: 0 <= k < |result| ==> result[k] in a[..]
  {
    result := [];
    if a.Length == 0 {
      return;
    }
    var i := 0;
    while i < n
      invariant 0 <= i && (n >= 0 ==> i <= n) && (n < 0 ==> i == 0)
      invariant |result| == i
      invariant forall k :: 0 <= k < i ==> result[k] == a[RandomIndex(random[k], a.Length)]
    {
      var randomIndex := RandomIndex(random[i], a.Length);
      result := result + [a[randomIndex]];
      i := i + 1;
    }
  }

  /** `shuffle(array)`: a shuffled copy; the input array is left as it was. */
  method Shuffle<T>(a: array<T>, random: seq<real>) returns (result: array<T>)
    requires a.Length <= |random| && Draws(random)
    ensures fresh(result)
    ensures result[..] == Shuffled(a[..], random)
  {
    result := new T[a.Length](i requires 0 <= i < a.Length reads a => a[i]);
    assert result[..] == a[..];
    FisherYates(result, random);
  }

  /** The Fisher–Yates loop: positions from the last down to the first, each exchanged with a drawn index. */
  method FisherYates<T>(a: array<T>, random: seq<real>)
    requires a.Length <= |random| && Draws(random)
    modifies a
    ensures a[..] == Shuffled(old(a[..]), random)
  {
    ghost var s := a[..];
    for i := a.Length downto 0
      invariant a[..] == ShuffleSteps(s, random, a.Length - i)
    {
      var j := RandomIndex(random[a.Length - 1 - i], i + 1);
      a[i], a[j] := a[j], a[i];
    }
  }
}
