/** `shuffleArray`: a Fisher-Yates shuffle of a copy of the input. The index
    chosen at each step comes from a supplied sample instead of `Math.random()`. */
module Shuffle {
  import opened Sampling

  /** `[s[i], s[j]] = [s[j], s[i]]`. */
  function SwapAt<T>(s: seq<T>, i: int, j: int): (r: seq<T>)
    requires 0 <= i < |s| && 0 <= j < |s|
    ensures |r| == |s| && r[i] == s[j] && r[j] == s[i]
    ensures forall k :: 0 <= k < |s| && k != i && k != j ==> r[k] == s[k]
    ensures multiset(r) == multiset(s)
  {
    s[i := s[j]][j := s[i]]
  }

  /** The shuffle's steps for positions `i` down to 1, step `i` swapping position
      `i` with `j = floor(u * (i + 1))` for the next sample `u`. */
  function FisherYates<T>(s: seq<T>, i: int, samples: seq<real>): (r: seq<T>)
    requires i < |s| && i <= |samples|
    requires forall u :: u in samples ==> IsSample(u)
    ensures |r| == |s| && multiset(r) == multiset(s)
    decreases i
  {
    if i <= 0 then s
    else
      assert samples[0] in samples;
      assert forall u :: u in samples[1..] ==> u in samples;
      FisherYates(SwapAt(s, i, Scale(samples[0], i + 1)), i - 1, samples[1..])
  }

  /** `shuffleArray(array)`: copies the input into a fresh array and swaps in
      place from the last position down to the second. The result is the
      `FisherYates` order of the input, a rearrangement of it; the input, a value
      here, cannot change. */
  method ShuffleArray<T>(items: seq<T>, samples: seq<real>) returns (shuffled: seq<T>)
    requires |items| - 1 <= |samples|
    requires forall u :: u in samples ==> IsSample(u)
    ensures shuffled == FisherYates(items, |items| - 1, samples)
    ensures |shuffled| == |items| && multiset(shuffled) == multiset(items)
  {
    var a := new T[|items|](k requires 0 <= k < |items| => items[k]);
    var i := |items| - 1;
    var used := 0;
    assert a[..] == items;
    while i > 0
      invariant -1 <= i < |items| && used == |items| - 1 - i && 0 <= used <= |samples|
      invariant forall u :: u in samples[used..] ==> u in samples
      invariant FisherYates(a[..], i, samples[used..]) == FisherYates(items, |items| - 1, samples)
    {
      assert samples[used..][0] == samples[used] && samples[used..][1..] == samples[used + 1..];
      var j := Scale(samples[used], i + 1);
      ghost var before := a[..];
      a[i], a[j] := a[j], a[i];
      assert a[..] == SwapAt(before, i, j);
      i, used := i - 1, used + 1;
    }
    shuffled := a[..];
  }
}
