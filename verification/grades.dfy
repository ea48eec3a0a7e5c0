/**
 * Grade averages: the class average over the stored grades and the manual
 * weighted-average calculator. Values are exact reals standing in for the
 * JavaScript numbers; a field that `parseFloat` rejects is `None`.
 */
module Grades {
  import opened Wrappers

  /** Sum of the values, folded from the left as the `forEach` loop does. */
  function Sum(values: seq<real>): real
    decreases |values|
  {
    if |values| == 0 then 0.0 else Sum(values[..|values| - 1]) + values[|values| - 1]
  }

  /** `cargarNotasEscolares`: no average when there are no grades (the empty-state
      message is shown instead), otherwise the arithmetic mean. */
  function ClassAverage(values: seq<real>): (avg: Option<real>)
    ensures avg.None? <==> |values| == 0
    ensures avg.Some? ==> avg.value * |values| as real == Sum(values)
  {
    if |values| == 0 then None else Some(Sum(values) / |values| as real)
  }

  /** Every value lies in `[lo, hi]`. */
  ghost predicate Within(values: seq<real>, lo: real, hi: real) {
    forall k :: 0 <= k < |values| ==> lo <= values[k] <= hi
  }

  lemma {:induction false} SumBounds(values: seq<real>, lo: real, hi: real)
    requires Within(values, lo, hi)
    ensures lo * |values| as real <= Sum(values) <= hi * |values| as real
    decreases |values|
  {
    if |values| > 0 {
      var init := values[..|values| - 1];
      assert Within(init, lo, hi);
      SumBounds(init, lo, hi);
    }
  }

  /** The class average lies between the lowest and the highest grade. */
  lemma ClassAverageBetween(values: seq<real>, lo: real, hi: real)
    requires Within(values, lo, hi)
    ensures ClassAverage(values).Some? ==> lo <= ClassAverage(values).value <= hi
  {
    if |values| > 0 {
      SumBounds(values, lo, hi);
      var n := |values| as real;
      var avg := ClassAverage(values).value;
      assert avg * n == Sum(values);
      assert lo * n <= avg * n <= hi * n;
    }
  }

  /** Reference values: grades 4 and 6 average 5, a single 7 averages 7. */
  lemma ClassAverageExamples()
    ensures ClassAverage([]) == None
    ensures ClassAverage([4.0, 6.0]) == Some(5.0)
    ensures ClassAverage([7.0]) == Some(7.0)
  {
  }

  /** One row of the manual calculator: the parsed grade and weight (percent). */
  datatype ManualRow = ManualRow(value: Option<real>, weight: Option<real>)

  /** A row takes part in the average only if both fields parse. */
  predicate Counts(row: ManualRow) {
    row.value.Some? && row.weight.Some?
  }

  /** The (grade, weight) pairs of the rows that count, in order. */
  function Counted(rows: seq<ManualRow>): (pairs: seq<(real, real)>)
    ensures |pairs| <= |rows|
    decreases |rows|
  {
    if |rows| == 0 then []
    else
      var last := rows[|rows| - 1];
      Counted(rows[..|rows| - 1]) + (if Counts(last) then [(last.value.value, last.weight.value)] else [])
  }

  /** Sum of `grade * (weight / 100)`. */
  function WeightedSum(pairs: seq<(real, real)>): real
    decreases |pairs|
  {
    if |pairs| == 0 then 0.0
    else
      var last := pairs[|pairs| - 1];
      WeightedSum(pairs[..|pairs| - 1]) + last.0 * (last.1 / 100.0)
  }

  /** Sum of the weights. */
  function TotalWeight(pairs: seq<(real, real)>): real
    decreases |pairs|
  {
    if |pairs| == 0 then 0.0 else TotalWeight(pairs[..|pairs| - 1]) + pairs[|pairs| - 1].1
  }

  /** The warning is raised when weights were entered but do not add up to 100. */
  predicate WeightWarning(total: real) {
    total != 100.0 && total > 0.0
  }

  /** `calcularMediaManual`: walks the rows once, adding up the weighted grade
      and the weight of every row whose two fields parse. */
  method ManualAverage(rows: seq<ManualRow>) returns (average: real, totalWeight: real, warn: bool)
    ensures average == WeightedSum(Counted(rows))
    ensures totalWeight == TotalWeight(Counted(rows))
    ensures warn <==> totalWeight != 100.0 && totalWeight > 0.0
  {
    average, totalWeight := 0.0, 0.0;
    var i := 0;
    while i < |rows|
      invariant 0 <= i <= |rows|
      invariant average == WeightedSum(Counted(rows[..i]))
      invariant totalWeight == TotalWeight(Counted(rows[..i]))
    {
      var row := rows[i];
      assert rows[..i + 1][..i] == rows[..i];
      if row.value.Some? && row.weight.Some? {
        var n, p := row.value.value, row.weight.value;
        ghost var before := Counted(rows[..i]);
        assert Counted(rows[..i + 1]) == before + [(n, p)];
        assert (before + [(n, p)])[..|before|] == before;
        average := average + n * (p / 100.0);
        totalWeight := totalWeight + p;
      } else {
        assert Counted(rows[..i + 1]) == Counted(rows[..i]);
      }
      i := i + 1;
    }
    assert rows[..|rows|] == rows;
    warn := WeightWarning(totalWeight);
  }

  lemma {:induction false} CountedAppend(a: seq<ManualRow>, b: seq<ManualRow>)
    ensures Counted(a + b) == Counted(a) + Counted(b)
    decreases |b|
  {
    if |b| == 0 {
      assert a + b == a;
    } else {
      var b' := b[..|b| - 1];
      assert (a + b)[..|a + b| - 1] == a + b';
      assert (a + b)[|a + b| - 1] == b[|b| - 1];
      CountedAppend(a, b');
    }
  }

  /** A row whose grade or weight does not parse has no effect on the result. */
  lemma IgnoredRow(before: seq<ManualRow>, row: ManualRow, after: seq<ManualRow>)
    requires !Counts(row)
    ensures Counted(before + [row] + after) == Counted(before + after)
  {
    CountedAppend(before + [row], after);
    CountedAppend(before, [row]);
    CountedAppend(before, after);
    assert [row][..0] == [];
  }

  lemma {:induction false} WeightedSumBounds(pairs: seq<(real, real)>, lo: real, hi: real)
    requires forall k :: 0 <= k < |pairs| ==> lo <= pairs[k].0 <= hi && pairs[k].1 >= 0.0
    ensures lo * TotalWeight(pairs) / 100.0 <= WeightedSum(pairs) <= hi * TotalWeight(pairs) / 100.0
    decreases |pairs|
  {
    if |pairs| > 0 {
      var init, last := pairs[..|pairs| - 1], pairs[|pairs| - 1];
      WeightedSumBounds(init, lo, hi);
      var w := last.1 / 100.0;
      assert w >= 0.0;
      assert (last.0 - lo) * w >= 0.0;
      assert (hi - last.0) * w >= 0.0;
    }
  }

  /** With valid weights adding up to 100, the weighted average lies between the
      lowest and the highest grade that counted. */
  lemma WeightedAverageBetween(rows: seq<ManualRow>, lo: real, hi: real)
    requires forall k :: 0 <= k < |Counted(rows)| ==>
      lo <= Counted(rows)[k].0 <= hi && Counted(rows)[k].1 >= 0.0
    requires TotalWeight(Counted(rows)) == 100.0
    ensures lo <= WeightedSum(Counted(rows)) <= hi
  {
    WeightedSumBounds(Counted(rows), lo, hi);
  }

  /** Reference value: 8 and 6 at 50% each give 7, with no warning. */
  lemma ManualExampleEven()
    ensures
      var rows := [ManualRow(Some(8.0), Some(50.0)), ManualRow(Some(6.0), Some(50.0))];
      WeightedSum(Counted(rows)) == 7.0 && !WeightWarning(TotalWeight(Counted(rows)))
  {
    var r1, r2 := ManualRow(Some(8.0), Some(50.0)), ManualRow(Some(6.0), Some(50.0));
    assert [r1, r2][..1] == [r1];
    assert [r1][..0] == [];
    var pairs: seq<(real, real)> := [(8.0, 50.0), (6.0, 50.0)];
    assert Counted([r1, r2]) == pairs;
    assert pairs[..1] == [(8.0, 50.0)];
    assert |pairs[..1][..0]| == 0;
  }

  /** Reference value: when the second grade does not parse only 8 at 50% counts,
      giving 4, and the weight warning is raised. */
  lemma ManualExampleUnparsed()
    ensures
      var rows := [ManualRow(Some(8.0), Some(50.0)), ManualRow(None, Some(50.0))];
      WeightedSum(Counted(rows)) == 4.0 && WeightWarning(TotalWeight(Counted(rows)))
  {
  }
}
