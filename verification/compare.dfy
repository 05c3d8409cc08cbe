/**
 * The comparison loop of `main`: the tests present in both runs are visited in
 * ascending name order, a test with no samples on either side is skipped, the unit
 * policy decides the direction, and one output row is produced per remaining test.
 * An unknown unit stops the run; the rows written before it stay written.
 */
module Compare {
  import opened Wrappers
  import opened ExtReal
  import opened Stats
  import opened Units
  import opened Classify
  import opened Aggregate

  /** The fields of one CSV row that the model computes. */
  datatype Row = Row(
    testName: string,
    units: string,
    summary: Label,
    diffPercentage: Ext,
    meanBaseline: real,
    meanActual: real,
    significant: bool,
    countBaseline: nat,
    countActual: nat)

  /** The rows of a run that completed, or of one stopped by an unknown unit. */
  datatype Outcome = Completed(rows: seq<Row>) | Aborted(rows: seq<Row>, error: UnitError)

  /**
   * Python's `<` on strings: character by character (Unicode scalar values), a proper
   * prefix first. A narrow Python 2 build compares UTF-16 code units instead, which
   * orders characters beyond U+FFFF differently; the model does not follow that.
   */
  predicate StrLess(a: string, b: string) {
    if |a| == 0 then |b| > 0
    else if |b| == 0 then false
    else if a[0] != b[0] then a[0] < b[0]
    else StrLess(a[1..], b[1..])
  }

  /** Strictly ascending, hence without duplicates. */
  predicate Sorted(s: seq<string>) {
    forall i, j :: 0 <= i < j < |s| ==> StrLess(s[i], s[j])
  }

  lemma {:induction false} StrLessIrreflexive(a: string)
    ensures !StrLess(a, a)
  {
    if |a| > 0 {
      StrLessIrreflexive(a[1..]);
    }
  }

  lemma {:induction false} StrLessTransitive(a: string, b: string, c: string)
    requires StrLess(a, b) && StrLess(b, c)
    ensures StrLess(a, c)
  {
    if |a| > 0 && |b| > 0 && |c| > 0 && a[0] == b[0] && b[0] == c[0] {
      StrLessTransitive(a[1..], b[1..], c[1..]);
    }
  }

  lemma {:induction false} StrLessTotal(a: string, b: string)
    ensures a == b || StrLess(a, b) || StrLess(b, a)
    ensures !(StrLess(a, b) && StrLess(b, a))
  {
    if |a| > 0 && |b| > 0 && a[0] == b[0] {
      StrLessTotal(a[1..], b[1..]);
      if a[1..] == b[1..] {
        assert a == [a[0]] + a[1..] && b == [b[0]] + b[1..];
      }
    }
  }

  /** Inserts a new name into a sorted sequence, keeping it sorted. */
  function Insert(s: seq<string>, x: string): (r: seq<string>)
    requires Sorted(s) && x !in s
    ensures Sorted(r)
    ensures forall y :: y in r <==> y in s || y == x
    ensures |r| == |s| + 1
  {
    if |s| == 0 then [x]
    else if StrLess(x, s[0]) then
      assert Sorted([x] + s) by {
        forall j | 0 < j < |s| + 1 ensures StrLess(x, ([x] + s)[j]) {
          if j > 1 {
            StrLessTransitive(x, s[0], s[j - 1]);
          }
        }
      }
      [x] + s
    else
      var rest := Insert(s[1..], x);
      assert StrLess(s[0], x) by {
        StrLessTotal(x, s[0]);
      }
      assert Sorted([s[0]] + rest) by {
        forall y | y in rest ensures StrLess(s[0], y) {
          if y != x {
            var k :| 1 <= k < |s| && s[k] == y;
          }
        }
        forall i, j | 0 <= i < j < |rest| + 1 ensures StrLess(([s[0]] + rest)[i], ([s[0]] + rest)[j]) {
          if i == 0 {
            assert rest[j - 1] in rest;
          }
        }
      }
      [s[0]] + rest
  }

  /** `sorted(set(baseline) & set(actual))`: the tests of both runs in ascending order. */
  method SortedCommonTests(baseline: map<string, Entry>, actual: map<string, Entry>) returns (tests: seq<string>)
    ensures Sorted(tests)
    ensures forall t :: t in tests <==> t in baseline && t in actual
  {
    var remaining := baseline.Keys * actual.Keys;
    tests := [];
    while remaining != {}
      invariant Sorted(tests)
      invariant remaining <= baseline.Keys * actual.Keys
      invariant forall t :: t in tests <==> t in baseline && t in actual && t !in remaining
      decreases |remaining|
    {
      var t :| t in remaining;
      tests := Insert(tests, t);
      remaining := remaining - {t};
    }
  }

  /**
   * The diff column: the change of the mean in percent of the baseline mean, negated
   * when smaller is better, and `+inf` for a zero baseline mean.
   */
  function ReportedDiffPercentage(meanBaseline: real, meanActual: real, biggerIsBetter: bool): Ext {
    var diff := meanActual - meanBaseline;
    var directed := if !biggerIsBetter then -diff else diff;
    if meanBaseline == 0.0 then PosInf else Fin(100.0 * directed / Abs(meanBaseline))
  }

  /** The row of one compared test. */
  function MakeRow(name: string, baseline: Entry, actual: Entry, biggerIsBetter: bool): Row
    requires |baseline.values| > 0 && |actual.values| > 0
  {
    var a, b := baseline.values, actual.values;
    var (summary, significant) := Summary(a, b, biggerIsBetter);
    Row(name, baseline.units, summary, ReportedDiffPercentage(Mean(a), Mean(b), biggerIsBetter),
        Mean(a), Mean(b), significant, |a|, |b|)
  }

  /** A test present in both runs with samples on both sides: one the loop does not skip. */
  predicate Compared(name: string, baseline: map<string, Entry>, actual: map<string, Entry>) {
    name in baseline && name in actual && |baseline[name].values| > 0 && |actual[name].values| > 0
  }

  /** The loop body over the sorted tests. */
  function CompareTests(tests: seq<string>, baseline: map<string, Entry>, actual: map<string, Entry>): Outcome
    requires forall t :: t in tests ==> t in baseline && t in actual
    decreases |tests|
  {
    if |tests| == 0 then Completed([])
    else
      var name := tests[0];
      var a, b := baseline[name].values, actual[name].values;
      if |a| == 0 || |b| == 0 then CompareTests(tests[1..], baseline, actual)
      else
        match LookupBiggerIsBetter(baseline[name].units)
        case Err(e) => Aborted([], e)
        case Ok(biggerIsBetter) =>
          var row := MakeRow(name, baseline[name], actual[name], biggerIsBetter);
          match CompareTests(tests[1..], baseline, actual)
          case Completed(rows) => Completed([row] + rows)
          case Aborted(rows, e) => Aborted([row] + rows, e)
  }

  /** The tests the loop does not skip, in visiting order. */
  function Selected(tests: seq<string>, baseline: map<string, Entry>, actual: map<string, Entry>): (r: seq<string>)
    ensures forall t :: t in r <==> t in tests && Compared(t, baseline, actual)
    ensures Sorted(tests) ==> Sorted(r)
    decreases |tests|
  {
    if |tests| == 0 then []
    else
      var rest := Selected(tests[1..], baseline, actual);
      if Compared(tests[0], baseline, actual) then
        assert Sorted(tests) ==> Sorted([tests[0]] + rest) by {
          if Sorted(tests) {
            forall i, j | 0 <= i < j < |rest| + 1 ensures StrLess(([tests[0]] + rest)[i], ([tests[0]] + rest)[j]) {
              if i == 0 {
                assert rest[j - 1] in tests[1..];
              }
            }
          }
        }
        [tests[0]] + rest
      else rest
  }

  /** The row the loop writes for test `name`, once its unit is known. */
  predicate RowFor(row: Row, name: string, baseline: map<string, Entry>, actual: map<string, Entry>)
    requires Compared(name, baseline, actual)
  {
    && LookupBiggerIsBetter(baseline[name].units).Ok?
    && row == MakeRow(name, baseline[name], actual[name], LookupBiggerIsBetter(baseline[name].units).value)
  }

  /** A test without samples on both sides is skipped: no row and no unit lookup. */
  lemma CompareTestsSkip(tests: seq<string>, baseline: map<string, Entry>, actual: map<string, Entry>)
    requires forall t :: t in tests ==> t in baseline && t in actual
    requires |tests| > 0 && !Compared(tests[0], baseline, actual)
    ensures CompareTests(tests, baseline, actual) == CompareTests(tests[1..], baseline, actual)
    ensures Selected(tests, baseline, actual) == Selected(tests[1..], baseline, actual)
  {
  }

  /**
   * A test with samples on both sides either stops the loop on its unit, with no rows,
   * or gets its row in front of the rows of the tests after it.
   */
  lemma CompareTestsVisit(tests: seq<string>, baseline: map<string, Entry>, actual: map<string, Entry>)
    requires forall t :: t in tests ==> t in baseline && t in actual
    requires |tests| > 0 && Compared(tests[0], baseline, actual)
    ensures Selected(tests, baseline, actual) == [tests[0]] + Selected(tests[1..], baseline, actual)
    ensures var out, units := CompareTests(tests, baseline, actual), baseline[tests[0]].units;
            LookupBiggerIsBetter(units).Err? ==> out == Aborted([], LookupBiggerIsBetter(units).error)
    ensures var out, rest := CompareTests(tests, baseline, actual), CompareTests(tests[1..], baseline, actual);
            LookupBiggerIsBetter(baseline[tests[0]].units).Ok? ==>
              && |out.rows| == |rest.rows| + 1
              && RowFor(out.rows[0], tests[0], baseline, actual)
              && out.rows[1..] == rest.rows
              && out.Completed? == rest.Completed?
              && (out.Aborted? ==> out.error == rest.error)
  {
  }

  /**
   * The loop writes at most one row per selected test; it completes with a row for each
   * of them, or stops, with its error, on the unit of the first selected test without a row.
   */
  lemma {:induction false} CompareTestsCount(tests: seq<string>, baseline: map<string, Entry>, actual: map<string, Entry>)
    requires forall t :: t in tests ==> t in baseline && t in actual
    ensures var out, sel := CompareTests(tests, baseline, actual), Selected(tests, baseline, actual);
            && |out.rows| <= |sel|
            && (out.Completed? ==> |out.rows| == |sel|)
            && (out.Aborted? ==> |out.rows| < |sel| &&
                                 LookupBiggerIsBetter(baseline[sel[|out.rows|]].units) == Err(out.error))
    decreases |tests|
  {
    if |tests| > 0 {
      CompareTestsCount(tests[1..], baseline, actual);
      if !Compared(tests[0], baseline, actual) {
        CompareTestsSkip(tests, baseline, actual);
      } else {
        CompareTestsVisit(tests, baseline, actual);
      }
    }
  }

  /** Row `i` is the row of test `names[i]`, for every row. */
  predicate RowsFor(rows: seq<Row>, names: seq<string>, baseline: map<string, Entry>, actual: map<string, Entry>) {
    && |rows| <= |names|
    && forall i :: 0 <= i < |rows| ==> Compared(names[i], baseline, actual) && RowFor(rows[i], names[i], baseline, actual)
  }

  lemma RowsForCons(row: Row, rows: seq<Row>, name: string, names: seq<string>,
                    baseline: map<string, Entry>, actual: map<string, Entry>)
    requires Compared(name, baseline, actual) && RowFor(row, name, baseline, actual)
    requires RowsFor(rows, names, baseline, actual)
    ensures RowsFor([row] + rows, [name] + names, baseline, actual)
  {
  }

  /** The row in position `i` is the row of the `i`-th selected test. */
  lemma {:induction false} CompareTestsOrder(tests: seq<string>, baseline: map<string, Entry>, actual: map<string, Entry>)
    requires forall t :: t in tests ==> t in baseline && t in actual
    ensures RowsFor(CompareTests(tests, baseline, actual).rows, Selected(tests, baseline, actual), baseline, actual)
    decreases |tests|
  {
    if |tests| > 0 {
      CompareTestsOrder(tests[1..], baseline, actual);
      if !Compared(tests[0], baseline, actual) {
        CompareTestsSkip(tests, baseline, actual);
      } else {
        CompareTestsVisit(tests, baseline, actual);
        var out, rest := CompareTests(tests, baseline, actual), CompareTests(tests[1..], baseline, actual);
        if LookupBiggerIsBetter(baseline[tests[0]].units).Ok? {
          assert out.rows == [out.rows[0]] + rest.rows;
          RowsForCons(out.rows[0], rest.rows, tests[0], Selected(tests[1..], baseline, actual), baseline, actual);
        }
      }
    }
  }

  /**
   * The loop writes one row per selected test in order until the first selected test
   * whose unit is unknown; it then stops with that unit's error. It completes exactly
   * when no selected test has an unknown unit.
   */
  lemma CompareTestsRows(tests: seq<string>, baseline: map<string, Entry>, actual: map<string, Entry>)
    requires forall t :: t in tests ==> t in baseline && t in actual
    ensures var out, sel := CompareTests(tests, baseline, actual), Selected(tests, baseline, actual);
            && |out.rows| <= |sel|
            && (forall i :: 0 <= i < |out.rows| ==> RowFor(out.rows[i], sel[i], baseline, actual))
            && (out.Completed? ==> |out.rows| == |sel|)
            && (out.Aborted? ==> |out.rows| < |sel| &&
                                 LookupBiggerIsBetter(baseline[sel[|out.rows|]].units) == Err(out.error))
  {
    CompareTestsCount(tests, baseline, actual);
    CompareTestsOrder(tests, baseline, actual);
  }

  function Names(rows: seq<Row>): (r: seq<string>)
    ensures |r| == |rows|
    ensures forall i :: 0 <= i < |rows| ==> r[i] == rows[i].testName
  {
    if |rows| == 0 then [] else [rows[0].testName] + Names(rows[1..])
  }

  /** A stopped run has rows for exactly the selected tests before the one that failed. */
  lemma AbortedPrefix(sel: seq<string>, names: seq<string>, baseline: map<string, Entry>, actual: map<string, Entry>)
    requires Sorted(sel) && |names| < |sel| && names == sel[..|names|]
    requires forall t :: t in sel <==> Compared(t, baseline, actual)
    ensures forall u :: u in names <==> Compared(u, baseline, actual) && StrLess(u, sel[|names|])
  {
    var t := sel[|names|];
    forall u ensures u in names <==> Compared(u, baseline, actual) && StrLess(u, t) {
      if u in names {
        var i :| 0 <= i < |names| && names[i] == u;
        assert sel[i] == u;
      } else if Compared(u, baseline, actual) && StrLess(u, t) {
        var j :| 0 <= j < |sel| && sel[j] == u;
        if j > |names| {
          StrLessTotal(u, t);
        } else if j == |names| {
          StrLessIrreflexive(u);
        }
      }
    }
  }

  /** Rows matched position by position with test names carry those names, in that order. */
  lemma RowsForNames(rows: seq<Row>, names: seq<string>, baseline: map<string, Entry>, actual: map<string, Entry>)
    requires RowsFor(rows, names, baseline, actual)
    ensures Names(rows) == names[..|rows|]
  {
    forall i | 0 <= i < |rows| ensures Names(rows)[i] == names[i] {
      RowForName(rows[i], names[i], baseline, actual);
    }
  }

  /** Each such row is the row of the test it names. */
  lemma RowsForOwnNames(rows: seq<Row>, names: seq<string>, baseline: map<string, Entry>, actual: map<string, Entry>)
    requires RowsFor(rows, names, baseline, actual)
    ensures forall i :: 0 <= i < |rows| ==>
              Compared(rows[i].testName, baseline, actual) && RowFor(rows[i], rows[i].testName, baseline, actual)
  {
    forall i | 0 <= i < |rows|
      ensures Compared(rows[i].testName, baseline, actual) && RowFor(rows[i], rows[i].testName, baseline, actual)
    {
      RowForName(rows[i], names[i], baseline, actual);
    }
  }

  /** The row of a test carries that test's name. */
  lemma RowForName(row: Row, name: string, baseline: map<string, Entry>, actual: map<string, Entry>)
    requires Compared(name, baseline, actual) && RowFor(row, name, baseline, actual)
    ensures row.testName == name
  {
  }

  /**
   * The comparison loop of `main`. The rows come in strictly ascending test-name order,
   * each for a test present in both runs with samples on both sides, with the summary of
   * its two series. A completed run has a row for every such test; a stopped run has
   * failed on the unit of such a test, and has rows for exactly those before it.
   */
  method CompareRuns(baseline: map<string, Entry>, actual: map<string, Entry>) returns (out: Outcome)
    ensures Sorted(Names(out.rows))
    ensures forall i :: 0 <= i < |out.rows| ==>
              && Compared(out.rows[i].testName, baseline, actual)
              && RowFor(out.rows[i], out.rows[i].testName, baseline, actual)
    ensures out.Completed? ==> forall t :: Compared(t, baseline, actual) ==> t in Names(out.rows)
    ensures out.Aborted? ==>
              exists t :: && Compared(t, baseline, actual)
                          && LookupBiggerIsBetter(baseline[t].units) == Err(out.error)
                          && (forall u :: u in Names(out.rows) <==> Compared(u, baseline, actual) && StrLess(u, t))
  {
    var tests := SortedCommonTests(baseline, actual);
    out := CompareTests(tests, baseline, actual);
    CompareTestsCount(tests, baseline, actual);
    CompareTestsOrder(tests, baseline, actual);
    var sel := Selected(tests, baseline, actual);
    RowsForNames(out.rows, sel, baseline, actual);
    RowsForOwnNames(out.rows, sel, baseline, actual);
    var names := Names(out.rows);
    assert Sorted(names) by {
      assert names == sel[..|out.rows|];
    }
    assert forall t :: t in sel <==> Compared(t, baseline, actual);
    if out.Completed? {
      assert names == sel;
    } else {
      AbortedPrefix(sel, names, baseline, actual);
      assert Compared(sel[|names|], baseline, actual);
    }
  }

  /**
   * The diff column reads as an improvement measure: it is `+inf` exactly for a zero
   * baseline mean, and otherwise positive exactly when the change goes the way the unit
   * calls better, zero exactly when the means agree, and as large in magnitude as the
   * percentage the summary is classified on.
   */
  lemma ReportedDiffMeaning(meanBaseline: real, meanActual: real, biggerIsBetter: bool)
    ensures ReportedDiffPercentage(meanBaseline, meanActual, biggerIsBetter).PosInf? <==> meanBaseline == 0.0
    ensures meanBaseline != 0.0 ==>
              (ReportedDiffPercentage(meanBaseline, meanActual, biggerIsBetter).r > 0.0 <==>
               Improves(meanBaseline, meanActual, biggerIsBetter))
    ensures meanBaseline != 0.0 ==>
              (ReportedDiffPercentage(meanBaseline, meanActual, biggerIsBetter).r == 0.0 <==> meanActual == meanBaseline)
    ensures AbsExt(ReportedDiffPercentage(meanBaseline, meanActual, biggerIsBetter)) ==
            AbsExt(DiffPercentage(meanBaseline, meanActual))
  {
  }

  /**
   * A GOOD row reports an improvement of at least 1% (or `+inf`); a BAD row with a
   * non-zero baseline mean reports a change of at least 1% the wrong way.
   */
  lemma GoodAndBadRows(name: string, baseline: Entry, actual: Entry, biggerIsBetter: bool)
    requires |baseline.values| > 0 && |actual.values| > 0
    ensures var row := MakeRow(name, baseline, actual, biggerIsBetter);
            row.summary == Good ==> row.diffPercentage.PosInf? || row.diffPercentage.r >= 1.0
    ensures var row := MakeRow(name, baseline, actual, biggerIsBetter);
            row.summary == Bad && row.meanBaseline != 0.0 ==> row.diffPercentage.Fin? && row.diffPercentage.r <= -1.0
  {
    var ma, mb := Mean(baseline.values), Mean(actual.values);
    ReportedDiffMeaning(ma, mb, biggerIsBetter);
  }
}
