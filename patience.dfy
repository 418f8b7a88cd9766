/** The early-stopping rule of the training loop.

    After every epoch the newest validation loss is appended to the history
    of epoch losses. The loop then stops when some loss in the "patience
    window" is at most the newest one. The window is the history without its
    last `patience + 1` entries. An empty window stands for the sentinel `inf`,
    which is never at most a finite loss.

    Losses are abstract ordered values: only `min` and `<=` are applied to
    them, so they are modelled as integers. */
module Patience {

  /** The minimum of a window, or the `inf` sentinel when the window is empty. */
  datatype Bound = Finite(value: int) | Infinity

  /** The comparison `bound <= loss` for a finite loss: `inf <= loss` is false. */
  predicate AtMost(b: Bound, loss: int) {
    b.Finite? && b.value <= loss
  }

  /** The index at which Python's `s[:stop]` ends on a list of length `n`:
      a negative stop counts from the end, and either kind is clamped to `0..n`. */
  function SliceStop(n: nat, stop: int): (k: nat)
    ensures k <= n
  {
    if stop < 0 then (if n + stop < 0 then 0 else n + stop)
    else if stop < n then stop
    else n
  }

  /** `history[:-(patience + 1)]`, a prefix of the history. */
  function Window(history: seq<int>, patience: int): (w: seq<int>)
    ensures w <= history
  {
    history[..SliceStop(|history|, -(patience + 1))]
  }

  /** With a non-negative patience the window drops exactly the last
      `patience + 1` losses, so it never holds the newest one; patience -1
      leaves it empty, and a patience below -1 keeps the first
      `-(patience + 1)` losses. */
  lemma WindowShape(history: seq<int>, patience: int)
    ensures patience >= 0 ==>
      |Window(history, patience)| == if |history| > patience + 1 then |history| - (patience + 1) else 0
    ensures patience >= -1 && |history| > 0 ==> |Window(history, patience)| < |history|
    ensures patience == -1 ==> Window(history, patience) == []
    ensures patience <= -2 ==>
      |Window(history, patience)| == if |history| < -(patience + 1) then |history| else -(patience + 1)
  {
  }

  /** Python's `min` of a non-empty list. */
  function MinOf(s: seq<int>): (m: int)
    requires |s| > 0
    ensures m in s
    ensures forall x :: x in s ==> m <= x
  {
    if |s| == 1 then s[0]
    else
      var rest := MinOf(s[1..]);
      assert forall x :: x in s ==> x == s[0] || x in s[1..];
      if s[0] <= rest then s[0] else rest
  }

  /** `min(window)` when the window is non-empty, `inf` otherwise: finite
      exactly when the window is non-empty, and then an element of the window
      and at most every element. */
  function WindowMin(w: seq<int>): (b: Bound)
    ensures b.Finite? <==> w != []
    ensures b.Finite? ==> b.value in w && forall x :: x in w ==> b.value <= x
  {
    if w != [] then Finite(MinOf(w)) else Infinity
  }

  /** The stop decision taken after an epoch whose loss is the last entry of
      `history`. An empty window never stops training. */
  predicate ShouldStop(history: seq<int>, patience: int)
    requires |history| > 0
    ensures ShouldStop(history, patience) ==> Window(history, patience) != []
  {
    AtMost(WindowMin(Window(history, patience)), history[|history| - 1])
  }

  /** With a non-negative patience, training stops exactly when one of the
      losses older than the last `patience + 1` epochs is at most the newest. */
  lemma StopIff(history: seq<int>, patience: int)
    requires |history| > 0 && patience >= 0
    ensures ShouldStop(history, patience) <==>
      exists j :: 0 <= j < |history| - (patience + 1) && history[j] <= history[|history| - 1]
  {
    var w := Window(history, patience);
    var last := history[|history| - 1];
    WindowShape(history, patience);
    if ShouldStop(history, patience) {
      var m := WindowMin(w).value;
      var j :| 0 <= j < |w| && w[j] == m;
      assert history[j] <= last;
    }
    if j :| 0 <= j < |history| - (patience + 1) && history[j] <= last {
      assert w[j] in w;
    }
  }

  /** Fewer than `patience + 2` recorded losses leave the window empty, so no
      finite loss stops training. */
  lemma ShortHistoryNeverStops(history: seq<int>, patience: int)
    requires |history| > 0 && patience >= 0
    requires |history| < patience + 2
    ensures !ShouldStop(history, patience)
  {
    WindowShape(history, patience);
  }

  /** A tie with a loss in the window stops training. */
  lemma TieStops(history: seq<int>, patience: int, j: int)
    requires |history| > 0 && patience >= 0
    requires 0 <= j < |history| - (patience + 1)
    requires history[j] == history[|history| - 1]
    ensures ShouldStop(history, patience)
  {
    StopIff(history, patience);
  }

  /** With patience 0, training goes on only while the newest loss is strictly
      lower than every earlier one. */
  lemma ZeroPatience(history: seq<int>)
    requires |history| > 0
    ensures !ShouldStop(history, 0) <==>
      forall j :: 0 <= j < |history| - 1 ==> history[|history| - 1] < history[j]
  {
    StopIff(history, 0);
  }

  /** A larger patience never stops earlier: whatever stops with patience
      `p + 1` also stops with patience `p`. */
  lemma MorePatienceStopsNoSooner(history: seq<int>, patience: int)
    requires |history| > 0 && patience >= 0
    requires ShouldStop(history, patience + 1)
    ensures ShouldStop(history, patience)
  {
    StopIff(history, patience + 1);
    StopIff(history, patience);
  }

  /** Negative patience values, which the loop does not reject: with -1 the
      window is always empty and training never stops early; below -1 the
      window keeps a prefix of the history, and once that prefix reaches the
      newest loss the loop stops after every epoch. */
  lemma NegativePatience(history: seq<int>, patience: int)
    requires |history| > 0 && patience < 0
    ensures patience == -1 ==> !ShouldStop(history, patience)
    ensures patience <= -2 && |history| <= -(patience + 1) ==> ShouldStop(history, patience)
  {
    WindowShape(history, patience);
    if patience <= -2 && |history| <= -(patience + 1) {
      var w := Window(history, patience);
      assert w == history;
      assert history[|history| - 1] in w;
    }
  }
}
