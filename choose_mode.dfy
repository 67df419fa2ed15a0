/**
 * The `chooseMode` tie-break of both scripts: among the labels that tie
 * for the highest count, prefer the one whose amplimers carry the fewest
 * primer mismatches in total. MIRUReader.py and MIRUFinder.py differ in
 * what they return when two mismatch sums are equal.
 */
module ChooseMode {
  import opened Text
  import opened Tally
  import opened Report

  /** `name + '_' + str(k)`: the `lookup` key of the `k`-th amplimer of a locus. */
  function RecordKey(name: string, k: nat): string {
    name + "_" + NatToString(k)
  }

  /** The `lookup` keys containing `name`; `x` in `chooseMode` is their number. */
  function KeysNaming(table: map<string, seq<Cell>>, name: string): set<string> {
    set k | k in table && Contains(k, name)
  }

  /**
   * The records `name_1` … `name_x` exist and each has a mismatch total
   * and a second cell; otherwise `chooseMode` raises `KeyError` or
   * `IndexError` (a length equal to the last bin leaves a one-cell record).
   */
  predicate RecordsUpTo(table: map<string, seq<Cell>>, name: string, x: nat) {
    forall k :: 1 <= k <= x ==>
      RecordKey(name, k) in table && |table[RecordKey(name, k)]| >= 2 && table[RecordKey(name, k)][0].Num?
  }

  predicate Covered(table: map<string, seq<Cell>>, name: string) {
    RecordsUpTo(table, name, |KeysNaming(table, name)|)
  }

  /** `mismatchDict[v]` after the first `x` records: the totals of the records labelled `v`. */
  function SumFor(table: map<string, seq<Cell>>, name: string, x: nat, v: int): int
    requires RecordsUpTo(table, name, x)
  {
    if x == 0 then 0
    else
      var rec := table[RecordKey(name, x)];
      SumFor(table, name, x - 1, v) + (if rec[1] == Num(v) then rec[0].n else 0)
  }

  /** The values of `mismatchDict`, in the order of its keys `tied`. */
  function Sums(tied: seq<int>, table: map<string, seq<Cell>>, name: string, x: nat): (sums: seq<int>)
    requires RecordsUpTo(table, name, x)
    ensures |sums| == |tied|
  {
    seq(|tied|, i requires 0 <= i < |tied| => SumFor(table, name, x, tied[i]))
  }

  /** Some value occurs twice. */
  predicate HasDuplicates(s: seq<int>) {
    exists i, j :: 0 <= i < j < |s| && s[i] == s[j]
  }

  /** The keys of `tied` whose sum is `m`, in the order of `tied`. */
  function Attaining(tied: seq<int>, sums: seq<int>, m: int): (r: seq<int>)
    requires |tied| == |sums|
    ensures forall v :: v in r <==> exists i :: 0 <= i < |tied| && tied[i] == v && sums[i] == m
    decreases |tied|
  {
    if tied == [] then []
    else
      var n := |tied| - 1;
      var p := Attaining(tied[..n], sums[..n], m);
      assert forall i :: 0 <= i < n ==> tied[..n][i] == tied[i] && sums[..n][i] == sums[i];
      p + (if sums[n] == m then [tied[n]] else [])
  }

  /** Keys that are each listed once stay so, and keep the order of `tied`. */
  lemma {:induction false} AttainingInOrder(tied: seq<int>, sums: seq<int>, m: int)
    requires |tied| == |sums| && NoDuplicates(tied)
    ensures NoDuplicates(Attaining(tied, sums, m))
    ensures FirstAppearanceOrder(Attaining(tied, sums, m), tied)
    decreases |tied|
  {
    if tied != [] {
      var n := |tied| - 1;
      var pre := tied[..n];
      forall i, j | 0 <= i < j < n ensures pre[i] != pre[j] {
        assert pre[i] == tied[i] && pre[j] == tied[j];
      }
      AttainingInOrder(pre, sums[..n], m);
      var w := Attaining(pre, sums[..n], m);
      forall v | v in w ensures v in tied && FirstIndex(tied, v) == FirstIndex(pre, v) < n {
        FirstIndexPrefix(tied, n, v);
      }
      assert FirstAppearanceOrder(w, tied) by {
        forall i, j | 0 <= i < j < |w| ensures FirstIndex(tied, w[i]) < FirstIndex(tied, w[j]) {
          assert w[i] in w && w[j] in w;
        }
      }
      if sums[n] == m {
        assert tied[n] !in pre by {
          forall i | 0 <= i < n ensures pre[i] != tied[n] {
            assert pre[i] == tied[i];
          }
        }
        assert FirstIndex(tied, tied[n]) == n;
        OrderedAppend(w, tied[n], tied);
      }
    }
  }

  /** `choice` holds exactly the keys of `tied` whose sum is no larger than any other's. */
  ghost predicate LeastSums(choice: seq<int>, tied: seq<int>, sums: seq<int>)
    requires |tied| == |sums|
  {
    forall v :: v in choice <==>
      exists i :: 0 <= i < |tied| && tied[i] == v && forall j :: 0 <= j < |sums| ==> sums[i] <= sums[j]
  }

  /** The `'/'.join` of MIRUReader.py: the tied modes whose sum is the least. */
  function MinSumModes(tied: seq<int>, sums: seq<int>): seq<int>
    requires |tied| == |sums| && sums != []
  {
    Attaining(tied, sums, Min(sums))
  }

  /** `min(mismatchDict.keys(), key=…)`: the first key with the least sum. */
  function LeastKey(tied: seq<int>, sums: seq<int>): int
    requires |tied| == |sums| && sums != []
  {
    tied[ArgMin(sums)]
  }

  /** What MIRUReader.py's `chooseMode` returns, as the list of labels it joins with `/`. */
  function ReaderPick(tied: seq<int>, sums: seq<int>): seq<int>
    requires |tied| == |sums| && sums != []
  {
    if HasDuplicates(sums) then MinSumModes(tied, sums) else [LeastKey(tied, sums)]
  }

  /** What MIRUFinder.py's `chooseMode` returns, as the list of labels it joins with `/`. */
  function FinderPick(tied: seq<int>, sums: seq<int>): seq<int>
    requires |tied| == |sums| && sums != []
  {
    if HasDuplicates(sums) then tied else [LeastKey(tied, sums)]
  }

  /** Without duplicates, different positions hold different values. */
  lemma DifferentEntries(s: seq<int>, i: nat, j: nat)
    requires !HasDuplicates(s) && i < |s| && j < |s| && i != j
    ensures s[i] != s[j]
  {
    if i < j {
      assert !(s[i] == s[j]);
    } else {
      assert !(s[j] == s[i]);
    }
  }

  /** No index reaches `m`: nothing is kept. */
  lemma {:induction false} AttainingNone(tied: seq<int>, sums: seq<int>, m: int)
    requires |tied| == |sums| && forall i :: 0 <= i < |sums| ==> sums[i] != m
    ensures Attaining(tied, sums, m) == []
    decreases |tied|
  {
    if tied != [] {
      var n := |tied| - 1;
      AttainingNone(tied[..n], sums[..n], m);
    }
  }

  /** Only index `k` reaches `m`: its key alone is kept. */
  lemma {:induction false} AttainingSingle(tied: seq<int>, sums: seq<int>, m: int, k: nat)
    requires |tied| == |sums| && k < |sums| && sums[k] == m
    requires forall i :: 0 <= i < |sums| && i != k ==> sums[i] != m
    ensures Attaining(tied, sums, m) == [tied[k]]
    decreases |tied|
  {
    var n := |tied| - 1;
    if k == n {
      AttainingNone(tied[..n], sums[..n], m);
    } else {
      AttainingSingle(tied[..n], sums[..n], m, k);
    }
  }

  /**
   * In MIRUReader.py the duplicate check changes nothing that can be seen:
   * with or without equal sums, the result is the list of tied modes with
   * the least sum.
   */
  lemma ReaderPicksLeastSums(tied: seq<int>, sums: seq<int>)
    requires |tied| == |sums| && sums != []
    ensures ReaderPick(tied, sums) == MinSumModes(tied, sums)
  {
    if !HasDuplicates(sums) {
      var k := ArgMin(sums);
      assert sums[k] == Min(sums) by {
        var q :| 0 <= q < |sums| && sums[q] == Min(sums);
        assert sums[k] <= sums[q] && sums[k] in sums;
      }
      forall i | 0 <= i < |sums| && i != k ensures sums[i] != Min(sums) {
        DifferentEntries(sums, i, k);
      }
      AttainingSingle(tied, sums, Min(sums), k);
    }
  }

  /**
   * MIRUReader.py's choice: never empty, and it holds exactly the tied
   * modes whose mismatch sum is no larger than any other's, each once and
   * in the order of `tied` (the key order of `mismatchDict`).
   */
  lemma ReaderChoice(tied: seq<int>, sums: seq<int>)
    requires |tied| == |sums| && sums != []
    ensures ReaderPick(tied, sums) != []
    ensures forall v :: v in ReaderPick(tied, sums) <==>
      exists i :: 0 <= i < |tied| && tied[i] == v && forall j :: 0 <= j < |sums| ==> sums[i] <= sums[j]
    ensures NoDuplicates(tied) ==>
      NoDuplicates(ReaderPick(tied, sums)) && FirstAppearanceOrder(ReaderPick(tied, sums), tied)
  {
    ReaderPicksLeastSums(tied, sums);
    if NoDuplicates(tied) {
      AttainingInOrder(tied, sums, Min(sums));
    }
    var m := Min(sums);
    var r := Attaining(tied, sums, m);
    var k :| 0 <= k < |sums| && sums[k] == m;
    assert tied[k] in r;
    forall v | v in r
      ensures exists i :: 0 <= i < |tied| && tied[i] == v && forall j :: 0 <= j < |sums| ==> sums[i] <= sums[j]
    {
      var i :| 0 <= i < |tied| && tied[i] == v && sums[i] == m;
      forall j | 0 <= j < |sums| ensures sums[i] <= sums[j] {
        assert sums[j] in sums;
      }
    }
    forall v | exists i :: 0 <= i < |tied| && tied[i] == v && forall j :: 0 <= j < |sums| ==> sums[i] <= sums[j]
      ensures v in r
    {
      var i :| 0 <= i < |tied| && tied[i] == v && forall j :: 0 <= j < |sums| ==> sums[i] <= sums[j];
      assert sums[i] <= sums[k];
      assert sums[i] in sums;
    }
  }

  /**
   * MIRUFinder.py's choice: every tied mode, whatever its sum, as soon as
   * two sums are equal; otherwise the one mode whose sum is strictly the
   * least.
   */
  lemma FinderChoice(tied: seq<int>, sums: seq<int>)
    requires |tied| == |sums| && sums != []
    ensures HasDuplicates(sums) ==> FinderPick(tied, sums) == tied
    ensures !HasDuplicates(sums) ==>
      exists k :: (0 <= k < |sums| && FinderPick(tied, sums) == [tied[k]] &&
                   forall j :: 0 <= j < |sums| && j != k ==> sums[k] < sums[j])
  {
    if !HasDuplicates(sums) {
      var k := ArgMin(sums);
      forall j | 0 <= j < |sums| && j != k ensures sums[k] < sums[j] {
        DifferentEntries(sums, j, k);
      }
    }
  }

  /** The two scripts agree when all sums differ. */
  lemma PicksAgreeWithoutDuplicates(tied: seq<int>, sums: seq<int>)
    requires |tied| == |sums| && sums != [] && !HasDuplicates(sums)
    ensures FinderPick(tied, sums) == ReaderPick(tied, sums) == [LeastKey(tied, sums)]
  {
  }

  /**
   * They disagree as soon as two sums above the least are equal: with
   * tied modes 2, 3, 4 and sums 1, 5, 5, MIRUReader.py answers `2` and
   * MIRUFinder.py `2/3/4`.
   */
  lemma PicksDiffer()
    ensures ReaderPick([2, 3, 4], [1, 5, 5]) == [2]
    ensures FinderPick([2, 3, 4], [1, 5, 5]) == [2, 3, 4]
  {
    var tied, sums := [2, 3, 4], [1, 5, 5];
    assert sums[1] == sums[2];
    ReaderPicksLeastSums(tied, sums);
    assert Min(sums) == 1 by {
      assert Min(sums[..2]) == 1 by {
        assert sums[..2][..1] == [1];
      }
      assert sums[..2] == [1, 5];
    }
    AttainingSingle(tied, sums, 1, 0);
  }

  /** `checklist2.count(item) > 1` for some item: exactly when two entries are equal. */
  lemma CountedTwice(s: seq<int>, j: nat)
    requires j < |s|
    ensures Count(s, s[j]) > 1 <==> exists i :: 0 <= i < |s| && i != j && s[i] == s[j]
  {
    assert s == s[..j] + [s[j]] + s[j + 1..];
    assert multiset(s) == multiset(s[..j]) + multiset{s[j]} + multiset(s[j + 1..]);
    if Count(s, s[j]) > 1 {
      if s[j] in s[..j] {
        var i :| 0 <= i < j && s[..j][i] == s[j];
      } else {
        assert s[j] in multiset(s[j + 1..]);
        var i :| 0 <= i < |s[j + 1..]| && s[j + 1..][i] == s[j];
        assert s[j + 1 + i] == s[j];
      }
    }
    if exists i :: 0 <= i < |s| && i != j && s[i] == s[j] {
      var i :| 0 <= i < |s| && i != j && s[i] == s[j];
      if i < j {
        assert s[..j][i] == s[j];
      } else {
        assert s[j + 1..][i - j - 1] == s[j];
      }
    }
  }

  /** The `repeatToCheck` loop: the keys of `Counter(xs)` whose count is the maximum. */
  method TiedModes(xs: seq<int>) returns (tied: seq<int>)
    ensures tied == Modes(xs)
  {
    var keys := Distinct(xs);
    var maxcount := MaxCount(xs);
    tied := [];
    var i := 0;
    while i < |keys|
      invariant 0 <= i <= |keys|
      invariant tied == WithCount(keys[..i], xs, maxcount)
    {
      var k := keys[i];
      assert keys[..i + 1][..i] == keys[..i] && keys[..i + 1][i] == k;
      if Count(xs, k) == maxcount {
        tied := tied + [k];
      }
      i := i + 1;
    }
    assert keys[..i] == keys;
  }

  /** The `x` loop: how many `lookup` keys contain the locus name. */
  method CountNaming(table: map<string, seq<Cell>>, name: string) returns (x: nat)
    ensures x == |KeysNaming(table, name)|
  {
    x := 0;
    var rest := table.Keys;
    ghost var found: set<string> := {};
    while rest != {}
      invariant rest <= table.Keys
      invariant found == set k | k in table && k !in rest && Contains(k, name)
      invariant x == |found|
      decreases |rest|
    {
      var k :| k in rest;
      if Contains(k, name) {
        found := found + {k};
        x := x + 1;
      }
      rest := rest - {k};
    }
    assert found == KeysNaming(table, name);
  }

  /** The `range(x)` loop: each record labelled with a tied mode adds its total to that mode's sum. */
  method SumMismatches(table: map<string, seq<Cell>>, name: string, tied: seq<int>, x: nat) returns (sums: seq<int>)
    requires NoDuplicates(tied) && RecordsUpTo(table, name, x)
    ensures sums == Sums(tied, table, name, x)
  {
    sums := seq(|tied|, _ => 0);
    var i := 0;
    while i < x
      invariant 0 <= i <= x && |sums| == |tied|
      invariant forall j :: 0 <= j < |tied| ==> sums[j] == SumFor(table, name, i, tied[j])
    {
      var rec := table[RecordKey(name, i + 1)];
      if rec[1].Num? && rec[1].n in tied {
        var j := FirstIndex(tied, rec[1].n);
        sums := sums[j := sums[j] + rec[0].n];
      }
      i := i + 1;
    }
  }

  /** The `duplicates` loop over `checklist2`. */
  method FindDuplicates(sums: seq<int>) returns (duplicates: bool)
    ensures duplicates == HasDuplicates(sums)
  {
    duplicates := false;
    var i := 0;
    while i < |sums|
      invariant 0 <= i <= |sums|
      invariant duplicates <==> exists j :: 0 <= j < i && Count(sums, sums[j]) > 1
    {
      if Count(sums, sums[i]) > 1 {
        duplicates := true;
      }
      i := i + 1;
    }
    if duplicates {
      var j :| 0 <= j < |sums| && Count(sums, sums[j]) > 1;
      CountedTwice(sums, j);
    } else {
      forall j | 0 <= j < |sums| ensures Count(sums, sums[j]) <= 1 { }
      if HasDuplicates(sums) {
        var a, b :| 0 <= a < b < |sums| && sums[a] == sums[b];
        CountedTwice(sums, a);
        assert false;
      }
    }
  }

  /** `chooseMode` of MIRUReader.py, on `Counter(xs)`. */
  method ReaderChooseMode(name: string, table: map<string, seq<Cell>>, xs: seq<int>) returns (finalMode: seq<int>)
    requires xs != [] && Covered(table, name)
    ensures var tied := Modes(xs);
      finalMode == ReaderPick(tied, Sums(tied, table, name, |KeysNaming(table, name)|))
    ensures var tied := Modes(xs);
      finalMode == MinSumModes(tied, Sums(tied, table, name, |KeysNaming(table, name)|))
  {
    var tied := TiedModes(xs);
    ModesSpec(xs);
    var x := CountNaming(table, name);
    var sums := SumMismatches(table, name, tied, x);
    var duplicates := FindDuplicates(sums);
    if duplicates {
      finalMode := MinSumModes(tied, sums);
    } else {
      finalMode := [LeastKey(tied, sums)];
    }
    ReaderPicksLeastSums(tied, sums);
  }

  /** `chooseMode` of MIRUFinder.py, on `Counter(xs)`. */
  method FinderChooseMode(name: string, table: map<string, seq<Cell>>, xs: seq<int>) returns (finalMode: seq<int>)
    requires xs != [] && Covered(table, name)
    ensures var tied := Modes(xs);
      finalMode == FinderPick(tied, Sums(tied, table, name, |KeysNaming(table, name)|))
  {
    var tied := TiedModes(xs);
    ModesSpec(xs);
    var x := CountNaming(table, name);
    var sums := SumMismatches(table, name, tied, x);
    var duplicates := FindDuplicates(sums);
    if duplicates {
      finalMode := tied;
    } else {
      finalMode := [LeastKey(tied, sums)];
    }
  }
}
