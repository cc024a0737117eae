/**
 * The p-value demo: a grid of twenty simulated experiments, none of which
 * tests a real effect.  Each run draws one p-value per cell and flags the
 * cells below 0.05 as false positives; two running totals count the runs and
 * the false positives since the last reset.
 */
module PValue {

  const GridSize: nat := 20

  /** The significance threshold. */
  const Threshold: real := 0.05

  /** A grid cell: not yet run, or resolved with its drawn p-value. */
  datatype Cell = Idle | Significant(p: real) | NotSignificant(p: real)

  predicate Flagged(p: real) {
    p < Threshold
  }

  /** How a cell shows the p-value drawn for it. */
  function Resolved(p: real): (c: Cell)
    ensures c.Significant? <==> Flagged(p)
    ensures !c.Idle? && c.p == p
  {
    if p < Threshold then Significant(p) else NotSignificant(p)
  }

  /** The number of draws below the threshold: at most one per draw. */
  function CountFlagged(draws: seq<real>): (c: nat)
    ensures c <= |draws|
  {
    if |draws| == 0 then 0
    else CountFlagged(draws[..|draws| - 1]) + (if Flagged(draws[|draws| - 1]) then 1 else 0)
  }

  /** The false positives of a list of runs, added up. */
  function TotalFlagged(runs: seq<seq<real>>): nat {
    if |runs| == 0 then 0 else TotalFlagged(runs[..|runs| - 1]) + CountFlagged(runs[|runs| - 1])
  }

  /** All draws of a list of runs, in order. */
  function Flatten(runs: seq<seq<real>>): seq<real> {
    if |runs| == 0 then [] else Flatten(runs[..|runs| - 1]) + runs[|runs| - 1]
  }

  /** Counting false positives splits over a concatenation of draws. */
  lemma {:induction false} FlaggedAppend(a: seq<real>, b: seq<real>)
    ensures CountFlagged(a + b) == CountFlagged(a) + CountFlagged(b)
  {
    if |b| == 0 {
      assert a + b == a;
    } else {
      var b' := b[..|b| - 1];
      assert (a + b)[..|a + b| - 1] == a + b';
      FlaggedAppend(a, b');
    }
  }

  /**
   * The running total is the number of flagged draws among all the draws
   * since the last reset, whichever runs they came from.
   */
  lemma {:induction false} TotalIsFlatCount(runs: seq<seq<real>>)
    ensures TotalFlagged(runs) == CountFlagged(Flatten(runs))
  {
    if |runs| > 0 {
      var n := |runs| - 1;
      TotalIsFlatCount(runs[..n]);
      FlaggedAppend(Flatten(runs[..n]), runs[n]);
    }
  }

  /** Never more false positives than twenty per run. */
  lemma {:induction false} TotalAtMostGrid(runs: seq<seq<real>>)
    requires forall k :: 0 <= k < |runs| ==> |runs[k]| == GridSize
    ensures TotalFlagged(runs) <= GridSize * |runs|
  {
    if |runs| > 0 {
      var n := |runs| - 1;
      TotalAtMostGrid(runs[..n]);
    }
  }

  class PValueDemo {
    const cells: array<Cell>
    var totalRuns: nat
    var totalFalsePositives: nat
    /** The draws of every run since the last reset. */
    ghost var runs: seq<seq<real>>

    ghost predicate Valid()
      reads this
    {
      && cells.Length == GridSize
      && (forall k :: 0 <= k < |runs| ==> |runs[k]| == GridSize)
      && totalRuns == |runs|
      && totalFalsePositives == TotalFlagged(runs)
    }

    /** A fresh grid of idle cells with both totals at zero. */
    constructor ()
      ensures Valid() && fresh(cells)
      ensures forall k :: 0 <= k < cells.Length ==> cells[k] == Idle
      ensures runs == [] && totalRuns == 0 && totalFalsePositives == 0
    {
      cells := new Cell[GridSize](_ => Idle);
      totalRuns, totalFalsePositives := 0, 0;
      runs := [];
    }

    /** The reset button: every cell idle again and both totals zero. */
    method ResetGrid()
      requires Valid()
      modifies this, cells
      ensures Valid()
      ensures forall k :: 0 <= k < cells.Length ==> cells[k] == Idle
      ensures runs == [] && totalRuns == 0 && totalFalsePositives == 0
    {
      var i := 0;
      while i < cells.Length
        invariant i <= cells.Length
        invariant forall k :: 0 <= k < i ==> cells[k] == Idle
      {
        cells[i] := Idle;
        i := i + 1;
      }
      totalRuns, totalFalsePositives := 0, 0;
      runs := [];
    }

    /**
     * The run button with `draws` as the p-values drawn for the twenty
     * cells: each cell shows its own draw, and the run's count of false
     * positives comes from these draws alone.
     */
    method RunExperiment(draws: seq<real>) returns (falsePositives: nat)
      requires Valid() && |draws| == GridSize
      modifies this, cells
      ensures Valid() && runs == old(runs) + [draws]
      ensures falsePositives == CountFlagged(draws) && falsePositives <= GridSize
      ensures totalRuns == old(totalRuns) + 1
      ensures totalFalsePositives == old(totalFalsePositives) + falsePositives
      ensures forall k :: 0 <= k < cells.Length ==> cells[k] == Resolved(draws[k])
    {
      falsePositives := 0;
      var i := 0;
      while i < cells.Length
        invariant i <= cells.Length
        invariant falsePositives == CountFlagged(draws[..i])
        invariant forall k :: 0 <= k < i ==> cells[k] == Resolved(draws[k])
        modifies cells
      {
        var pValue := draws[i];
        var passed := pValue < Threshold;
        cells[i] := if passed then Significant(pValue) else NotSignificant(pValue);
        assert draws[..i + 1][..i] == draws[..i];
        if passed {
          falsePositives := falsePositives + 1;
        }
        i := i + 1;
      }
      assert draws[..i] == draws;
      totalRuns := totalRuns + 1;
      totalFalsePositives := totalFalsePositives + falsePositives;
      assert (runs + [draws])[..|runs|] == runs;
      runs := runs + [draws];
    }
  }
}
