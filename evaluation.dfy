/**
 * The padding step of `eval()`: the solvers' progress lists (number of
 * assigned variables after each backtracking call) are brought to a common
 * length so that they can be plotted against the same x axis.
 */
module Evaluation {
  import opened Wrappers

  /** The value appended to a shorter progress list: a finished board has all 81 variables assigned. */
  const Filled := 81

  /** The exception the padding step can raise. */
  datatype EvalError =
    | EmptyMax   // ValueError: `max()` of an empty sequence, when there are no progress lists

  /** A solver's `progress` list, which the padding loop appends to in place. */
  class Progress {
    var samples: seq<int>

    constructor (samples: seq<int>)
      ensures this.samples == samples
    {
      this.samples := samples;
    }
  }

  /** `max(len(p) for p in progresses)` */
  function MaxLength(ps: seq<seq<int>>): (n: nat)
    requires |ps| > 0
    ensures forall i :: 0 <= i < |ps| ==> |ps[i]| <= n
    ensures exists i :: 0 <= i < |ps| && |ps[i]| == n
  {
    if |ps| == 1 then |ps[0]|
    else
      var front := MaxLength(ps[..|ps| - 1]);
      assert forall i :: 0 <= i < |ps| - 1 ==> ps[..|ps| - 1][i] == ps[i];
      if |ps[|ps| - 1]| > front then |ps[|ps| - 1]| else front
  }

  /** `while len(p) < n: p.append(81)`, on values. */
  function Padded(p: seq<int>, n: nat): (q: seq<int>)
    ensures |q| == if |p| >= n then |p| else n
    ensures p <= q
    ensures forall j :: |p| <= j < |q| ==> q[j] == Filled
  {
    if |p| >= n then p else p + seq(n - |p|, _ => Filled)
  }

  /** Every list padded to the length of the longest. */
  function PadAll(ps: seq<seq<int>>): (qs: seq<seq<int>>)
    requires |ps| > 0
    ensures |qs| == |ps|
    ensures forall i :: 0 <= i < |ps| ==> |qs[i]| == MaxLength(ps) && ps[i] <= qs[i]
    ensures forall i, j :: 0 <= i < |ps| && |ps[i]| <= j < |qs[i]| ==> qs[i][j] == Filled
  {
    seq(|ps|, i requires 0 <= i < |ps| => Padded(ps[i], MaxLength(ps)))
  }

  /** The current contents of the lists, in order. */
  function Snapshot(ps: seq<Progress>): (s: seq<seq<int>>)
    reads set p | p in ps
    ensures |s| == |ps|
  {
    seq(|ps|, i reads set p | p in ps requires 0 <= i < |ps| => ps[i].samples)
  }

  /** Appends 81 to `p` until it is `n` long. */
  method PadTo(p: Progress, n: nat)
    modifies p
    ensures p.samples == Padded(old(p.samples), n)
  {
    while |p.samples| < n
      invariant |old(p.samples)| <= |p.samples|
      invariant |old(p.samples)| < n ==> |p.samples| <= n
      invariant |old(p.samples)| >= n ==> p.samples == old(p.samples)
      invariant p.samples == old(p.samples) + seq(|p.samples| - |old(p.samples)|, _ => Filled)
      decreases n - |p.samples|
    {
      p.samples := p.samples + [Filled];
    }
  }

  /** `max(len(p) for p in progresses)`, one list at a time. */
  method LongestLength(ps: seq<Progress>) returns (n: nat)
    requires |ps| > 0
    ensures n == MaxLength(Snapshot(ps))
  {
    ghost var lists := Snapshot(ps);
    n := |ps[0].samples|;
    assert lists[..1] == [lists[0]];
    for i := 1 to |ps|
      invariant n == MaxLength(lists[..i])
    {
      assert lists[..i + 1][..i] == lists[..i];
      if |ps[i].samples| > n {
        n := |ps[i].samples|;
      }
    }
    assert lists[..|ps|] == lists;
  }

  /** The `for p in progresses` loop: pads every list to `n` in place; a list met twice is padded once. */
  method PadEach(ps: seq<Progress>, n: nat)
    modifies set p | p in ps
    ensures forall k :: 0 <= k < |ps| ==> ps[k].samples == Padded(old(ps[k].samples), n)
  {
    ghost var before := Snapshot(ps);
    for i := 0 to |ps|
      invariant forall k :: 0 <= k < |ps| ==> ps[k].samples == before[k] || ps[k].samples == Padded(before[k], n)
      invariant forall k :: 0 <= k < i ==> ps[k].samples == Padded(before[k], n)
    {
      PaddedTwice(before[i], n);
      PadTo(ps[i], n);
    }
  }

  /**
   * Lines 25-28 of `eval()`: the longest length, found by `max` (which raises
   * ValueError on an empty list), then every list padded to it in place. The
   * same list may appear more than once.
   */
  method PadProgresses(ps: seq<Progress>) returns (xLength: Result<nat, EvalError>)
    modifies set p | p in ps
    ensures |ps| == 0 ==> xLength == Failure(EmptyMax)
    ensures |ps| > 0 ==> xLength == Success(MaxLength(old(Snapshot(ps))))
    ensures |ps| > 0 ==> Snapshot(ps) == PadAll(old(Snapshot(ps)))
  {
    if |ps| == 0 {
      return Failure(EmptyMax);
    }
    var longest := LongestLength(ps);
    PadEach(ps, longest);
    return Success(longest);
  }

  /** Padding an already padded list changes nothing. */
  lemma PaddedTwice(p: seq<int>, n: nat)
    ensures Padded(Padded(p, n), n) == Padded(p, n)
  {
  }

  /** A list that was already the longest is left as it was. */
  lemma PadAllKeepsLongest(ps: seq<seq<int>>, i: nat)
    requires i < |ps| && |ps[i]| == MaxLength(ps)
    ensures PadAll(ps)[i] == ps[i]
  {
  }

  /** Padding twice is the same as padding once. */
  lemma PadAllIdempotent(ps: seq<seq<int>>)
    requires |ps| > 0
    ensures PadAll(PadAll(ps)) == PadAll(ps)
  {
    var padded := PadAll(ps);
    assert MaxLength(padded) == MaxLength(ps);
  }

  /** Counts of assigned variables stay within 0..81 after padding. */
  lemma PadAllBounded(ps: seq<seq<int>>)
    requires |ps| > 0
    requires forall i, j :: 0 <= i < |ps| && 0 <= j < |ps[i]| ==> 0 <= ps[i][j] <= 81
    ensures forall i, j :: 0 <= i < |ps| && 0 <= j < |PadAll(ps)[i]| ==> 0 <= PadAll(ps)[i][j] <= 81
  {
  }
}
