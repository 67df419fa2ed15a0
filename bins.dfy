/**
 * The nearest-bin scan that turns one amplicon length into a repeat label
 * (the `for i in range(16)` / `for i in range(26)` loops of both scripts),
 * and what it computes on an ascending table.
 */
module Bins {
  import opened Wrappers
  import opened Tally

  /**
   * One locus column of a reference table: the amplicon length of each
   * row (`df[loci][i]`) and the label the scan appends for that row.
   */
  datatype Table = Table(bins: seq<int>, labels: seq<int>) {
    predicate Valid() {
      |bins| == |labels| && |bins| >= 1
    }
  }

  /** A standard table, whose rows are labelled by their position `i`. */
  function Indexed(bins: seq<int>): (t: Table)
    ensures t.bins == bins && |t.labels| == |bins|
    ensures forall i :: 0 <= i < |bins| ==> t.labels[i] == i
  {
    Table(bins, seq(|bins|, i => i))
  }

  predicate Ascending(bins: seq<int>) {
    forall i, j :: 0 <= i < j < |bins| ==> bins[i] < bins[j]
  }

  /** `abs(a - b)`. */
  function Dist(a: int, b: int): nat {
    if a >= b then a - b else b - a
  }

  /** The first row at or after `from` whose length exceeds `amp` (where the scan breaks). */
  function FirstAbove(bins: seq<int>, amp: int, from: nat): (r: Option<nat>)
    ensures r.Some? ==> from <= r.value < |bins| && amp < bins[r.value]
    ensures r.Some? ==> forall j :: from <= j < r.value ==> bins[j] <= amp
    ensures r.None? ==> forall j :: from <= j < |bins| ==> bins[j] <= amp
    decreases |bins| - from
  {
    if from >= |bins| then None
    else if amp < bins[from] then Some(from)
    else FirstAbove(bins, amp, from + 1)
  }

  /**
   * The labels the scan appends for one length: a `0` when the length is
   * below the first row (that branch does not `break`), then, at the first
   * row `i > 0` above the length, the label of row `i` when it is strictly
   * closer and of row `i-1` otherwise.
   */
  function ScanLabels(t: Table, amp: int): seq<int>
    requires t.Valid()
  {
    (if amp < t.bins[0] then [0] else [])
    + match FirstAbove(t.bins, amp, 1)
      case None => []
      case Some(i) =>
        [if Dist(amp, t.bins[i - 1]) > Dist(amp, t.bins[i]) then t.labels[i] else t.labels[i - 1]]
  }

  /** The scan loop of MIRUReader.py and MIRUFinder.py, for one table. */
  method Scan(t: Table, amp: int) returns (appended: seq<int>)
    requires t.Valid()
    ensures appended == ScanLabels(t, amp)
  {
    appended := [];
    var i := 0;
    while i < |t.bins|
      invariant 0 <= i <= |t.bins|
      invariant appended == (if i > 0 && amp < t.bins[0] then [0] else [])
      invariant forall j :: 1 <= j < i ==> t.bins[j] <= amp
    {
      if amp < t.bins[i] {
        if i != 0 {
          var first := t.bins[i - 1];
          var second := t.bins[i];
          if Dist(amp, first) > Dist(amp, second) {
            appended := appended + [t.labels[i]];
          } else {
            appended := appended + [t.labels[i - 1]];
          }
          assert FirstAbove(t.bins, amp, 1) == Some(i);
          return;
        } else {
          appended := appended + [0];
        }
      }
      i := i + 1;
    }
    assert FirstAbove(t.bins, amp, 1).None?;
  }

  /** Distance from the length to every row, the key of the nearest-row search. */
  function Distances(bins: seq<int>, amp: int): (d: seq<int>)
    ensures |d| == |bins| && forall i :: 0 <= i < |bins| ==> d[i] == Dist(amp, bins[i])
  {
    seq(|bins|, i requires 0 <= i < |bins| => Dist(amp, bins[i]))
  }

  /** The reference answer: the row nearest to the length, the lowest such row on a tie. */
  function Nearest(bins: seq<int>, amp: int): (k: nat)
    requires bins != []
    ensures k < |bins|
    ensures forall j :: 0 <= j < |bins| ==> Dist(amp, bins[k]) <= Dist(amp, bins[j])
    ensures forall j :: 0 <= j < k ==> Dist(amp, bins[j]) > Dist(amp, bins[k])
  {
    ArgMin(Distances(bins, amp))
  }

  /**
   * Within the table's range the scan appends exactly one label: that of
   * the nearest row, the lower row when two rows are equally near.
   */
  lemma ScanIsNearest(t: Table, amp: int)
    requires t.Valid() && Ascending(t.bins)
    requires t.bins[0] <= amp < t.bins[|t.bins| - 1]
    ensures ScanLabels(t, amp) == [t.labels[Nearest(t.bins, amp)]]
  {
    var b := t.bins;
    var i := FirstAbove(b, amp, 1).value;
    var k := Nearest(b, amp);
    assert b[i - 1] <= amp;
    if Dist(amp, b[i - 1]) > Dist(amp, b[i]) {
      assert k == i;
    } else {
      assert k == i - 1;
    }
  }

  /** A length below the first row appends two labels: `0`, then the first row's label. */
  lemma ScanBelowFirst(t: Table, amp: int)
    requires t.Valid() && Ascending(t.bins) && |t.bins| >= 2
    requires amp < t.bins[0]
    ensures ScanLabels(t, amp) == [0, t.labels[0]]
  {
    assert FirstAbove(t.bins, amp, 1) == Some(1);
  }

  /** A length at or past the last row appends nothing. */
  lemma ScanFromLast(t: Table, amp: int)
    requires t.Valid() && Ascending(t.bins)
    requires t.bins[|t.bins| - 1] <= amp
    ensures ScanLabels(t, amp) == []
  {
    assert forall j :: 1 <= j < |t.bins| ==> t.bins[j] <= amp;
  }

  /** A length equal to a row other than the last appends that row's label. */
  lemma ScanExactRow(t: Table, amp: int, j: nat)
    requires t.Valid() && Ascending(t.bins)
    requires j < |t.bins| - 1 && amp == t.bins[j]
    ensures ScanLabels(t, amp) == [t.labels[j]]
  {
    ScanIsNearest(t, amp);
    var k := Nearest(t.bins, amp);
    assert Dist(amp, t.bins[k]) == 0;
  }

  /** A length exactly halfway between rows `j-1` and `j` takes the lower row's label. */
  lemma ScanMidpoint(t: Table, amp: int, j: nat)
    requires t.Valid() && Ascending(t.bins)
    requires 1 <= j < |t.bins| && t.bins[j - 1] < amp < t.bins[j]
    requires amp - t.bins[j - 1] == t.bins[j] - amp
    ensures ScanLabels(t, amp) == [t.labels[j - 1]]
  {
    assert FirstAbove(t.bins, amp, 1) == Some(j) by {
      if j > 1 {
        assert FirstAbove(t.bins, amp, 1).value >= j;
      }
    }
  }

  /** On a standard table, a longer length never gets a smaller repeat number. */
  lemma {:induction false} ScanMonotone(bins: seq<int>, a1: int, a2: int)
    requires |bins| >= 1 && Ascending(bins)
    requires bins[0] <= a1 <= a2 < bins[|bins| - 1]
    ensures |ScanLabels(Indexed(bins), a1)| == 1 && |ScanLabels(Indexed(bins), a2)| == 1
    ensures ScanLabels(Indexed(bins), a1)[0] <= ScanLabels(Indexed(bins), a2)[0]
  {
    var t := Indexed(bins);
    var i1 := FirstAbove(bins, a1, 1).value;
    var i2 := FirstAbove(bins, a2, 1).value;
    assert i1 <= i2;
    assert bins[i1 - 1] <= a1 && bins[i2 - 1] <= a2;
  }
}
