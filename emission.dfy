/**
 * Sheets are generators: they yield one row after the other, and a row
 * that raises ends the sheet. `EmitRows` is that behaviour for one row
 * function applied to a sequence of records.
 */
module Emission {
  import opened Wrappers
  import opened Cells

  /**
   * What a sheet produced: its rows, and the error that ended it early, if
   * one did (the rows are then those produced before the error).
   */
  datatype Output = Output(rows: seq<Row>, failure: Option<ExportError>)

  lemma AppendAssoc<T>(a: seq<T>, b: seq<T>, c: seq<T>)
    ensures a + (b + c) == (a + b) + c
  {
  }

  /** The rows `make` yields for `xs`, in order, up to the first one that raises. */
  function EmitRows<X>(make: X -> Result<Row, ExportError>, xs: seq<X>): (out: Output)
    ensures |out.rows| <= |xs|
  {
    if xs == [] then Output([], None)
    else
      match make(xs[0])
      case Err(e) => Output([], Some(e))
      case Ok(row) =>
        var rest := EmitRows(make, xs[1..]);
        Output([row] + rest.rows, rest.failure)
  }

  /** The rows yielded are the rows of the first records, in order. */
  lemma {:induction false} EmitPrefix<X>(make: X -> Result<Row, ExportError>, xs: seq<X>)
    ensures forall i :: 0 <= i < |EmitRows(make, xs).rows| ==> make(xs[i]) == Ok(EmitRows(make, xs).rows[i])
  {
    if xs != [] && make(xs[0]).Ok? {
      EmitPrefix(make, xs[1..]);
      var rest := EmitRows(make, xs[1..]).rows;
      forall i | 0 <= i < |rest| + 1 ensures make(xs[i]) == Ok(([make(xs[0]).value] + rest)[i]) {
        if i > 0 { assert xs[i] == xs[1..][i - 1]; }
      }
    }
  }

  /**
   * The output fails exactly when it stops short of the records, and then
   * with the error of the first record it could not yield.
   */
  lemma {:induction false} EmitFailure<X>(make: X -> Result<Row, ExportError>, xs: seq<X>)
    ensures var out := EmitRows(make, xs);
            (out.failure.None? <==> |out.rows| == |xs|) &&
            (|out.rows| < |xs| ==> make(xs[|out.rows|]).Err? && out.failure == Some(make(xs[|out.rows|]).error))
  {
    if xs != [] && make(xs[0]).Ok? {
      EmitFailure(make, xs[1..]);
      var n := |EmitRows(make, xs[1..]).rows|;
      if n < |xs| - 1 {
        assert xs[n + 1] == xs[1..][n];
      }
    }
  }

  /**
   * Yielding for `a + b` yields for `a` and, when no record of `a` raised,
   * goes on with `b`; an error in `a` ends the output there.
   */
  lemma {:induction false} EmitAppend<X>(make: X -> Result<Row, ExportError>, a: seq<X>, b: seq<X>)
    ensures EmitRows(make, a + b) ==
              if EmitRows(make, a).failure.None?
              then Output(EmitRows(make, a).rows + EmitRows(make, b).rows, EmitRows(make, b).failure)
              else EmitRows(make, a)
  {
    if a == [] {
      assert a + b == b;
    } else {
      assert (a + b)[0] == a[0] && (a + b)[1..] == a[1..] + b;
      match make(a[0]) {
        case Err(e) =>
        case Ok(row) =>
          EmitAppend(make, a[1..], b);
          AppendAssoc([row], EmitRows(make, a[1..]).rows, EmitRows(make, b).rows);
      }
    }
  }

  /** The whole output once `rows` have been yielded and the records from `j` on are still to come. */
  ghost function EmitFrom<X>(make: X -> Result<Row, ExportError>, rows: seq<Row>, xs: seq<X>, j: nat): Output
    requires j <= |xs|
  {
    var e := EmitRows(make, xs[j..]);
    Output(rows + e.rows, e.failure)
  }

  /**
   * Record `j` either raises, which ends the output with what has been
   * yielded, or yields its row and hands over to record `j + 1`.
   */
  lemma EmitFromStep<X>(make: X -> Result<Row, ExportError>, rows: seq<Row>, xs: seq<X>, j: nat)
    requires j < |xs|
    ensures EmitFrom(make, rows, xs, j) ==
              match make(xs[j])
              case Err(e) => Output(rows, Some(e))
              case Ok(row) => EmitFrom(make, rows + [row], xs, j + 1)
  {
    assert xs[j..][0] == xs[j] && xs[j..][1..] == xs[j + 1..];
    match make(xs[j]) {
      case Err(e) =>
        assert rows + [] == rows;
      case Ok(row) =>
        AppendAssoc(rows, [row], EmitRows(make, xs[j + 1..]).rows);
    }
  }

  /** Before anything is yielded the output is all to come; after the last record it is what was yielded. */
  lemma EmitFromEnds<X>(make: X -> Result<Row, ExportError>, rows: seq<Row>, xs: seq<X>)
    ensures EmitFrom(make, [], xs, 0) == EmitRows(make, xs)
    ensures EmitFrom(make, rows, xs, |xs|) == Output(rows, None)
  {
    assert xs[0..] == xs && xs[|xs|..] == [];
    assert rows + [] == rows;
  }
}
