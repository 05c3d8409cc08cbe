/**
 * The constant table `t_distribution` of two-tailed 95% Student's t critical values and
 * its lookup `t_dist`. Index `n` of the table is a number of degrees of freedom; indices
 * 0 and 1 hold the `None` sentinel, and the numbers start at index 2.
 */
module TDist {
  import opened Wrappers

  /** `count` consecutive table entries equal to `value`. */
  datatype Run = Run(value: real, count: nat)

  /**
   * The numeric entries of the table, from index 2 on, as runs of equal values in table
   * order: 12.71 at index 2, 4.30 at index 3, ..., 314 entries of 1.97, and a final 1.96.
   */
  const Runs: seq<Run> := [
    Run(12.71, 1), Run(4.30, 1), Run(3.18, 1), Run(2.78, 1), Run(2.57, 1),
    Run(2.45, 1), Run(2.36, 1), Run(2.31, 1), Run(2.26, 1), Run(2.23, 1),
    Run(2.20, 1), Run(2.18, 1), Run(2.16, 1), Run(2.14, 1), Run(2.13, 1),
    Run(2.12, 1), Run(2.11, 1), Run(2.10, 1), Run(2.09, 2), Run(2.08, 1),
    Run(2.07, 2), Run(2.06, 3), Run(2.05, 3), Run(2.04, 3), Run(2.03, 5),
    Run(2.02, 7), Run(2.01, 9), Run(2.00, 15), Run(1.99, 27), Run(1.98, 63),
    Run(1.97, 314), Run(1.96, 1)
  ]

  /** The number of sentinel entries in front of the numbers. */
  const Sentinels: nat := 2

  /** The asymptotic critical value returned past the end of the table. */
  const Asymptotic: real := 1.96

  /** The number of entries the runs from index `k` on spell out. */
  function Total(rs: seq<Run>, k: nat): nat
    decreases |rs| - k
  {
    if k >= |rs| then 0 else rs[k].count + Total(rs, k + 1)
  }

  /** Entry `i` of the sequence the runs from index `k` on spell out. */
  function Entry(rs: seq<Run>, k: nat, i: nat): real
    requires i < Total(rs, k)
    decreases |rs| - k
  {
    if i < rs[k].count then rs[k].value else Entry(rs, k + 1, i - rs[k].count)
  }

  /** `len(t_distribution)`. */
  function TableLength(): nat {
    Sentinels + Total(Runs, 0)
  }

  /** `t_distribution[n]`. */
  function Table(n: nat): Option<real>
    requires n < TableLength()
  {
    if n < Sentinels then None else Some(Entry(Runs, 0, n - Sentinels))
  }

  /** `t_dist(n)`: the entry at `n`, or the asymptotic value at or past the end of the table. */
  function CriticalValue(n: nat): Option<real> {
    if n >= TableLength() then Some(Asymptotic) else Table(n)
  }

  /** Every run is non-empty and no lower than `lo`, and each is strictly below its predecessor. */
  predicate WellFormed(rs: seq<Run>, lo: real) {
    && (forall i :: 0 <= i < |rs| ==> rs[i].count > 0 && rs[i].value >= lo)
    && (forall i :: 0 <= i < |rs| - 1 ==> rs[i + 1].value < rs[i].value)
  }

  /** The entries spelled out from run `k` on lie between `lo` and the value of run `k`. */
  lemma {:induction false} EntryBounds(rs: seq<Run>, lo: real, k: nat, i: nat)
    requires WellFormed(rs, lo) && i < Total(rs, k)
    ensures lo <= Entry(rs, k, i) <= rs[k].value
    decreases |rs| - k
  {
    if i >= rs[k].count {
      EntryBounds(rs, lo, k + 1, i - rs[k].count);
    }
  }

  /** The entries spelled out by well-formed runs never increase with the index. */
  lemma {:induction false} EntryNonIncreasing(rs: seq<Run>, lo: real, k: nat, i: nat, j: nat)
    requires WellFormed(rs, lo) && i <= j < Total(rs, k)
    ensures Entry(rs, k, j) <= Entry(rs, k, i)
    decreases |rs| - k
  {
    var c := rs[k].count;
    if i >= c {
      EntryNonIncreasing(rs, lo, k + 1, i - c, j - c);
    } else if j >= c {
      EntryBounds(rs, lo, k + 1, j - c);
    }
  }

  /** The last entry spelled out by non-empty runs is the value of the last run. */
  lemma {:induction false} EntryLast(rs: seq<Run>, lo: real, k: nat)
    requires WellFormed(rs, lo) && k < |rs|
    ensures Total(rs, k) > 0 && Entry(rs, k, Total(rs, k) - 1) == rs[|rs| - 1].value
    decreases |rs| - k
  {
    if k + 1 < |rs| {
      EntryLast(rs, lo, k + 1);
    }
  }

  lemma RunsBounded()
    ensures forall i :: 0 <= i < |Runs| ==> Runs[i].count > 0 && Runs[i].value >= Asymptotic
  {
  }

  lemma RunsDescending()
    ensures forall i :: 0 <= i < |Runs| - 1 ==> Runs[i + 1].value < Runs[i].value
  {
  }

  /** The runs of the table are well formed above 1.96, led by 12.71 and closed by 1.96. */
  lemma RunsWellFormed()
    ensures WellFormed(Runs, Asymptotic)
    ensures |Runs| > 0 && Runs[0].value == 12.71 && Runs[|Runs| - 1].value == Asymptotic
  {
    RunsBounded();
    RunsDescending();
  }

  /** The entries spelled out by well-formed runs, taken together. */
  lemma EntriesShape(rs: seq<Run>, lo: real)
    requires WellFormed(rs, lo) && |rs| > 0
    ensures forall i :: 0 <= i < Total(rs, 0) ==> lo <= Entry(rs, 0, i) <= rs[0].value
    ensures forall i, j :: 0 <= i <= j < Total(rs, 0) ==> Entry(rs, 0, j) <= Entry(rs, 0, i)
    ensures Total(rs, 0) > 0 && Entry(rs, 0, Total(rs, 0) - 1) == rs[|rs| - 1].value
  {
    forall i | 0 <= i < Total(rs, 0) ensures lo <= Entry(rs, 0, i) <= rs[0].value {
      EntryBounds(rs, lo, 0, i);
    }
    forall i, j | 0 <= i <= j < Total(rs, 0) ensures Entry(rs, 0, j) <= Entry(rs, 0, i) {
      EntryNonIncreasing(rs, lo, 0, i, j);
    }
    EntryLast(rs, lo, 0);
  }

  lemma RunsTotal()
    ensures Total(Runs, 0) == 473
  {
    assert Total(Runs, 31) == 1;
    assert Total(Runs, 30) == 315;
    assert Total(Runs, 29) == 378;
    assert Total(Runs, 28) == 405;
    assert Total(Runs, 27) == 420;
    assert Total(Runs, 26) == 429;
    assert Total(Runs, 25) == 436;
    assert Total(Runs, 24) == 441;
    assert Total(Runs, 23) == 444;
    assert Total(Runs, 22) == 447;
    assert Total(Runs, 21) == 450;
    assert Total(Runs, 20) == 452;
    assert Total(Runs, 19) == 453;
    assert Total(Runs, 18) == 455;
    assert Total(Runs, 17) == 456;
    assert Total(Runs, 16) == 457;
    assert Total(Runs, 15) == 458;
    assert Total(Runs, 14) == 459;
    assert Total(Runs, 13) == 460;
    assert Total(Runs, 12) == 461;
    assert Total(Runs, 11) == 462;
    assert Total(Runs, 10) == 463;
    assert Total(Runs, 9) == 464;
    assert Total(Runs, 8) == 465;
    assert Total(Runs, 7) == 466;
    assert Total(Runs, 6) == 467;
    assert Total(Runs, 5) == 468;
    assert Total(Runs, 4) == 469;
    assert Total(Runs, 3) == 470;
    assert Total(Runs, 2) == 471;
    assert Total(Runs, 1) == 472;
    assert Total(Runs, 0) == 473;
  }

  /**
   * The table has 475 entries: the `None` sentinels at 0 and 1, then numbers between
   * 1.96 and 12.71 that never increase with the index, the last of which is exactly 1.96.
   */
  lemma TableShape()
    ensures TableLength() == 475
    ensures Table(0) == None && Table(1) == None
    ensures forall i :: 2 <= i < TableLength() ==> Table(i).Some? && Asymptotic <= Table(i).value <= 12.71
    ensures forall i, j :: 2 <= i <= j < TableLength() ==> Table(j).value <= Table(i).value
    ensures Table(TableLength() - 1) == Some(Asymptotic)
  {
    RunsTotal();
    RunsWellFormed();
    EntriesShape(Runs, Asymptotic);
    assert forall i :: 2 <= i < TableLength() ==> Table(i) == Some(Entry(Runs, 0, i - 2));
  }

  /**
   * `t_dist(n)` is `None` exactly below index 2; from there on it is a critical value
   * between 1.96 and 12.71 that does not grow with `n`, and exactly 1.96 from the last
   * table index on.
   */
  lemma CriticalValueShape(n: nat, m: nat)
    ensures n < 2 <==> CriticalValue(n).None?
    ensures n >= 2 ==> Asymptotic <= CriticalValue(n).value <= 12.71
    ensures n >= TableLength() - 1 ==> CriticalValue(n) == Some(Asymptotic)
    ensures 2 <= n <= m ==> CriticalValue(m).value <= CriticalValue(n).value
  {
    TableShape();
  }
}
