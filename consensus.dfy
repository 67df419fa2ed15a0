/**
 * The per-locus call that ends both scripts: from the labels collected
 * for a locus (`repeats[item]`), MIRUReader.py picks a label and attaches
 * a warning tier, or `ND`; MIRUFinder.py picks the mode, falls back on
 * `chooseMode` for a tie, or writes `nohit`.
 */
module Consensus {
  import opened Wrappers
  import opened Text
  import opened Tally
  import opened Report
  import opened ChooseMode

  /**
   * The command-line thresholds of MIRUReader.py: `--min_amplicons`,
   * `--freq` as the exact fraction `freqNum / freqDen`, `--amplicon_mode`.
   */
  datatype Thresholds = Thresholds(minAmplicons: int, freqNum: int, freqDen: int, ampliconMode: int) {
    predicate Valid() {
      freqDen > 0
    }
  }

  /** `count / n <= freq`, compared exactly. */
  predicate AtMostFreq(count: nat, n: nat, th: Thresholds)
    requires th.Valid()
  {
    count * th.freqDen <= th.freqNum * n
  }

  /** Two different values share the highest count. */
  predicate SharedMax(xs: seq<int>) {
    exists u, v :: u in xs && v in xs && u != v && Count(xs, u) == MaxCount(xs) && Count(xs, v) == MaxCount(xs)
  }

  /** A shared highest count is what makes `custom_mode` raise on a non-empty list. */
  lemma SharedMaxIsTie(xs: seq<int>)
    ensures xs != [] ==> (CustomMode(xs).None? <==> SharedMax(xs))
  {
    if xs != [] {
      CustomModeRaises(xs);
    }
  }

  /** `chooseMode` is only reached on a tie, and then needs the locus's records. */
  predicate Ready(lookup: map<string, seq<Cell>>, name: string, xs: seq<int>) {
    xs != [] && CustomMode(xs).None? ==> Covered(lookup, name)
  }

  /** The cell MIRUReader.py writes for one locus. */
  datatype ReaderCall =
    | NotDetected                                                 // "ND"
    | Fixed(allele: int)                                           // the bare mode
    | LowCoverage(allele: int)                                     // Warning 1
    | Unfixed(allele: int)                                         // Warning 2
    | Polyclonal(choice: seq<int>, modes: seq<int>, lowCoverage: bool)  // Warning 3 or 4

  /**
   * The `try`/`except` of MIRUReader.py. Every branch of the `try` calls
   * `custom_mode`, so a tie always ends in the `except` branch, whatever
   * `statistics.mode` does on the frequency line.
   */
  function ReaderDecision(name: string, xs: seq<int>, lookup: map<string, seq<Cell>>, th: Thresholds): ReaderCall
    requires th.Valid() && Ready(lookup, name, xs)
  {
    if xs == [] then NotDetected
    else
      match CustomMode(xs)
      case None =>
        var tied := Modes(xs);
        Polyclonal(ReaderPick(tied, Sums(tied, lookup, name, |KeysNaming(lookup, name)|)), tied, |xs| < th.ampliconMode)
      case Some(m) =>
        if |xs| < th.minAmplicons then LowCoverage(m)
        else if AtMostFreq(Count(xs, m), |xs|, th) then Unfixed(m)
        else Fixed(m)
  }

  /** The cell MIRUFinder.py writes for one locus. */
  datatype FinderCall = NoHit | Mode(allele: int) | Tie(choice: seq<int>)

  /** `mode(...)`, or `chooseMode` when it raises on a tie, or `"nohit"`. */
  function FinderDecision(name: string, xs: seq<int>, lookup: map<string, seq<Cell>>): FinderCall
    requires Ready(lookup, name, xs)
  {
    if xs == [] then NoHit
    else
      match CustomMode(xs)
      case None =>
        var tied := Modes(xs);
        Tie(FinderPick(tied, Sums(tied, lookup, name, |KeysNaming(lookup, name)|)))
      case Some(m) => Mode(m)
  }

  /** `str` of each label. */
  function Strs(r: seq<int>): seq<string> {
    seq(|r|, i requires 0 <= i < |r| => IntToString(r[i]))
  }

  /** The value `chooseMode` returns, as text: the labels joined with `/`. */
  function Slashed(r: seq<int>): string {
    Join(Strs(r), "/")
  }

  /** Python's rendering of a list of integers, `[2, 3]`. */
  function ListText(r: seq<int>): string {
    "[" + Join(Strs(r), ", ") + "]"
  }

  /** The text of a MIRUReader.py cell. */
  function ReaderText(c: ReaderCall): string {
    match c
    case NotDetected => "ND"
    case Fixed(m) => IntToString(m)
    case LowCoverage(m) => IntToString(m) + " (Warning 1: Low Coverage)"
    case Unfixed(m) => IntToString(m) + " (Warning 2: Unfixed allele)"
    case Polyclonal(choice, modes, low) =>
      if low then Slashed(choice) + " (Warning 3: Possible polyclonal " + ListText(modes) + ", Low Coverage)"
      else Slashed(choice) + " (Warning 4: Possible polyclonal " + ListText(modes) + ")"
  }

  /** The text of a MIRUFinder.py cell. */
  function FinderText(c: FinderCall): string {
    match c
    case NoHit => "nohit"
    case Mode(m) => IntToString(m)
    case Tie(choice) => Slashed(choice)
  }

  /** The cell MIRUReader.py writes for locus `item`. */
  function ReaderCell(item: string, repeats: map<string, seq<int>>, lookup: map<string, seq<Cell>>, th: Thresholds): string
    requires th.Valid() && item in repeats && Ready(lookup, item, repeats[item])
  {
    ReaderText(ReaderDecision(item, repeats[item], lookup, th))
  }

  /** The cell MIRUFinder.py writes for locus `item`. */
  function FinderCell(item: string, repeats: map<string, seq<int>>, lookup: map<string, seq<Cell>>): string
    requires item in repeats && Ready(lookup, item, repeats[item])
  {
    FinderText(FinderDecision(item, repeats[item], lookup))
  }

  /** Every locus of the profile has its labels, and a tie can be resolved. */
  predicate Prepared(miru: seq<string>, repeats: map<string, seq<int>>, lookup: map<string, seq<Cell>>) {
    forall item :: item in miru ==> item in repeats && Ready(lookup, item, repeats[item])
  }

  /** The row MIRUReader.py builds: one cell per locus, in the order of `miru`. */
  function ReaderRow(miru: seq<string>, repeats: map<string, seq<int>>, lookup: map<string, seq<Cell>>, th: Thresholds): map<string, string>
    requires th.Valid() && Prepared(miru, repeats, lookup)
  {
    if miru == [] then map[]
    else
      var item := miru[|miru| - 1];
      ReaderRow(miru[..|miru| - 1], repeats, lookup, th)[item := ReaderCell(item, repeats, lookup, th)]
  }

  /** The row MIRUFinder.py builds. */
  function FinderRow(miru: seq<string>, repeats: map<string, seq<int>>, lookup: map<string, seq<Cell>>): map<string, string>
    requires Prepared(miru, repeats, lookup)
  {
    if miru == [] then map[]
    else
      var item := miru[|miru| - 1];
      FinderRow(miru[..|miru| - 1], repeats, lookup)[item := FinderCell(item, repeats, lookup)]
  }

  /**
   * One locus of MIRUReader.py's consensus loop: the `try`/`except`, which
   * runs the `chooseMode` loops on a tie, and the text it writes.
   */
  method ReaderLocus(item: string, repeats: map<string, seq<int>>, lookup: map<string, seq<Cell>>, th: Thresholds)
    returns (cell: string)
    requires th.Valid() && item in repeats && Ready(lookup, item, repeats[item])
    ensures cell == ReaderCell(item, repeats, lookup, th)
  {
    var xs := repeats[item];
    var call: ReaderCall;
    if xs == [] {
      call := NotDetected;
    } else {
      var m := CustomMode(xs);
      if m.None? {
        var choice := ReaderChooseMode(item, lookup, xs);
        call := Polyclonal(choice, Modes(xs), |xs| < th.ampliconMode);
      } else if |xs| < th.minAmplicons {
        call := LowCoverage(m.value);
      } else if Count(xs, m.value) * th.freqDen <= th.freqNum * |xs| {
        call := Unfixed(m.value);
      } else {
        call := Fixed(m.value);
      }
    }
    assert call == ReaderDecision(item, xs, lookup, th);
    cell := ReaderText(call);
  }

  /** One more locus adds its cell to the row. */
  lemma ReaderRowStep(miru: seq<string>, i: int, repeats: map<string, seq<int>>, lookup: map<string, seq<Cell>>, th: Thresholds)
    requires th.Valid() && Prepared(miru, repeats, lookup) && 0 <= i < |miru|
    ensures ReaderRow(miru[..i + 1], repeats, lookup, th) == ReaderRow(miru[..i], repeats, lookup, th)[miru[i] := ReaderCell(miru[i], repeats, lookup, th)]
  {
    assert miru[..i + 1][..i] == miru[..i];
  }

  /** The loop of MIRUReader.py over the loci, writing one cell per locus. */
  method ReaderProfile(miru: seq<string>, repeats: map<string, seq<int>>, lookup: map<string, seq<Cell>>, th: Thresholds)
    returns (row: map<string, string>)
    requires th.Valid() && Prepared(miru, repeats, lookup)
    ensures row == ReaderRow(miru, repeats, lookup, th)
  {
    row := map[];
    var i := 0;
    while i < |miru|
      invariant 0 <= i <= |miru|
      invariant row == ReaderRow(miru[..i], repeats, lookup, th)
    {
      var item := miru[i];
      var cell := ReaderLocus(item, repeats, lookup, th);
      ReaderRowStep(miru, i, repeats, lookup, th);
      row := row[item := cell];
      i := i + 1;
    }
    assert miru[..i] == miru;
  }

  /** One locus of MIRUFinder.py's consensus loop, with `chooseMode` run on a tie, and the text it writes. */
  method FinderLocus(item: string, repeats: map<string, seq<int>>, lookup: map<string, seq<Cell>>) returns (cell: string)
    requires item in repeats && Ready(lookup, item, repeats[item])
    ensures cell == FinderCell(item, repeats, lookup)
  {
    var xs := repeats[item];
    var call: FinderCall;
    if xs == [] {
      call := NoHit;
    } else {
      var m := CustomMode(xs);
      if m.None? {
        var choice := FinderChooseMode(item, lookup, xs);
        call := Tie(choice);
      } else {
        call := Mode(m.value);
      }
    }
    cell := FinderText(call);
  }

  /** One more locus adds its cell to the row. */
  lemma FinderRowStep(miru: seq<string>, i: int, repeats: map<string, seq<int>>, lookup: map<string, seq<Cell>>)
    requires Prepared(miru, repeats, lookup) && 0 <= i < |miru|
    ensures FinderRow(miru[..i + 1], repeats, lookup) == FinderRow(miru[..i], repeats, lookup)[miru[i] := FinderCell(miru[i], repeats, lookup)]
  {
    assert miru[..i + 1][..i] == miru[..i];
  }

  /** The loop of MIRUFinder.py over the loci, writing one cell per locus. */
  method FinderProfile(miru: seq<string>, repeats: map<string, seq<int>>, lookup: map<string, seq<Cell>>)
    returns (row: map<string, string>)
    requires Prepared(miru, repeats, lookup)
    ensures row == FinderRow(miru, repeats, lookup)
  {
    row := map[];
    var i := 0;
    while i < |miru|
      invariant 0 <= i <= |miru|
      invariant row == FinderRow(miru[..i], repeats, lookup)
    {
      var item := miru[i];
      var cell := FinderLocus(item, repeats, lookup);
      FinderRowStep(miru, i, repeats, lookup);
      row := row[item := cell];
      i := i + 1;
    }
    assert miru[..i] == miru;
  }

  /** MIRUReader.py's row has a cell for exactly the loci of `miru`, each the call for that locus. */
  lemma {:induction false} ReaderRowCells(miru: seq<string>, repeats: map<string, seq<int>>, lookup: map<string, seq<Cell>>, th: Thresholds)
    requires th.Valid() && Prepared(miru, repeats, lookup)
    ensures forall item :: item in ReaderRow(miru, repeats, lookup, th) <==> item in miru
    ensures forall item :: item in miru ==> ReaderRow(miru, repeats, lookup, th)[item] == ReaderCell(item, repeats, lookup, th)
  {
    if miru != [] {
      var front := miru[..|miru| - 1];
      ReaderRowCells(front, repeats, lookup, th);
      assert miru == front + [miru[|miru| - 1]];
    }
  }

  /** MIRUFinder.py's row has a cell for exactly the loci of `miru`, each the call for that locus. */
  lemma {:induction false} FinderRowCells(miru: seq<string>, repeats: map<string, seq<int>>, lookup: map<string, seq<Cell>>)
    requires Prepared(miru, repeats, lookup)
    ensures forall item :: item in FinderRow(miru, repeats, lookup) <==> item in miru
    ensures forall item :: item in miru ==> FinderRow(miru, repeats, lookup)[item] == FinderCell(item, repeats, lookup)
  {
    if miru != [] {
      var front := miru[..|miru| - 1];
      FinderRowCells(front, repeats, lookup);
      assert miru == front + [miru[|miru| - 1]];
    }
  }

  /**
   * MIRUReader.py's tiers, in priority order: `ND` exactly for an empty
   * list; Warning 1 exactly when there are fewer than `min_amplicons`
   * labels and one label is strictly most common (before any frequency
   * test); Warning 2 or the bare mode for a strict mode with enough
   * labels, split by the frequency test; a polyclonal warning exactly when
   * two labels share the highest count.
   */
  lemma ReaderTiers(name: string, xs: seq<int>, lookup: map<string, seq<Cell>>, th: Thresholds, m: int)
    requires th.Valid() && Ready(lookup, name, xs)
    ensures ReaderDecision(name, xs, lookup, th) == NotDetected <==> xs == []
    ensures ReaderDecision(name, xs, lookup, th) == LowCoverage(m) <==>
      |xs| < th.minAmplicons && StrictMode(xs, m)
    ensures ReaderDecision(name, xs, lookup, th) == Unfixed(m) <==>
      |xs| >= th.minAmplicons && StrictMode(xs, m) && Count(xs, m) * th.freqDen <= th.freqNum * |xs|
    ensures ReaderDecision(name, xs, lookup, th) == Fixed(m) <==>
      |xs| >= th.minAmplicons && StrictMode(xs, m) && Count(xs, m) * th.freqDen > th.freqNum * |xs|
    ensures ReaderDecision(name, xs, lookup, th).Polyclonal? <==> xs != [] && SharedMax(xs)
  {
    CustomModeUnique(xs, m);
    SharedMaxIsTie(xs);
  }

  /** A polyclonal call is the `except` branch: a tie, its modes and their `chooseMode`. */
  lemma TieDecision(name: string, xs: seq<int>, lookup: map<string, seq<Cell>>, th: Thresholds)
    requires th.Valid() && Ready(lookup, name, xs)
    requires ReaderDecision(name, xs, lookup, th).Polyclonal?
    ensures xs != [] && CustomMode(xs).None?
    ensures ReaderDecision(name, xs, lookup, th) ==
      Polyclonal(ReaderPick(Modes(xs), Sums(Modes(xs), lookup, name, |KeysNaming(lookup, name)|)), Modes(xs), |xs| < th.ampliconMode)
  {
  }

  /** On a tie, the tied modes and the labels `chooseMode` picks among them. */
  lemma TiedChoice(xs: seq<int>, sums: seq<int>)
    requires xs != [] && CustomMode(xs).None? && |sums| == |Modes(xs)|
    ensures |Modes(xs)| >= 2
    ensures forall v :: v in Modes(xs) <==> v in xs && Count(xs, v) == MaxCount(xs)
    ensures NoDuplicates(Modes(xs)) && FirstAppearanceOrder(Modes(xs), xs)
    ensures ReaderPick(Modes(xs), sums) != []
    ensures LeastSums(ReaderPick(Modes(xs), sums), Modes(xs), sums)
    ensures NoDuplicates(ReaderPick(Modes(xs), sums)) && FirstAppearanceOrder(ReaderPick(Modes(xs), sums), Modes(xs))
  {
    ModesSpec(xs);
    ReaderChoice(Modes(xs), sums);
  }

  /**
   * A polyclonal call lists every label with the highest count (at least
   * two, each once, in first-appearance order), is low-coverage exactly
   * below `amplicon_mode`, and chooses a non-empty set of those labels:
   * exactly the ones with the least mismatch sum, each once and in the
   * order of the list.
   */
  lemma ReaderPolyclonal(name: string, xs: seq<int>, lookup: map<string, seq<Cell>>, th: Thresholds)
    requires th.Valid() && Ready(lookup, name, xs)
    requires ReaderDecision(name, xs, lookup, th).Polyclonal?
    ensures var c := ReaderDecision(name, xs, lookup, th);
      && |c.modes| >= 2
      && (forall v :: v in c.modes <==> v in xs && Count(xs, v) == MaxCount(xs))
      && NoDuplicates(c.modes) && FirstAppearanceOrder(c.modes, xs)
      && (c.lowCoverage <==> |xs| < th.ampliconMode)
      && c.choice != []
      && LeastSums(c.choice, c.modes, Sums(c.modes, lookup, name, |KeysNaming(lookup, name)|))
      && NoDuplicates(c.choice) && FirstAppearanceOrder(c.choice, c.modes)
  {
    TieDecision(name, xs, lookup, th);
    TiedChoice(xs, Sums(Modes(xs), lookup, name, |KeysNaming(lookup, name)|));
  }

  /**
   * MIRUFinder.py's calls: `nohit` exactly for an empty list, the mode
   * exactly when one label is strictly most common, and `chooseMode`
   * exactly when two labels share the highest count.
   */
  lemma FinderTiers(name: string, xs: seq<int>, lookup: map<string, seq<Cell>>, m: int)
    requires Ready(lookup, name, xs)
    ensures FinderDecision(name, xs, lookup) == NoHit <==> xs == []
    ensures FinderDecision(name, xs, lookup) == Mode(m) <==> StrictMode(xs, m)
    ensures FinderDecision(name, xs, lookup).Tie? <==> xs != [] && SharedMax(xs)
  {
    CustomModeUnique(xs, m);
    SharedMaxIsTie(xs);
  }

  /**
   * With a clear mode, enough labels and a high enough frequency, both
   * scripts write the same label.
   */
  lemma ScriptsAgreeOnClearMode(name: string, xs: seq<int>, lookup: map<string, seq<Cell>>, th: Thresholds, m: int)
    requires th.Valid() && Ready(lookup, name, xs) && StrictMode(xs, m)
    requires |xs| >= th.minAmplicons && Count(xs, m) * th.freqDen > th.freqNum * |xs|
    ensures ReaderText(ReaderDecision(name, xs, lookup, th)) == FinderText(FinderDecision(name, xs, lookup))
  {
    ReaderTiers(name, xs, lookup, th, m);
    FinderTiers(name, xs, lookup, m);
  }
}
