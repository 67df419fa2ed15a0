/**
 * What the parse loop does with the lines a primer-search report is made
 * of: `Primer name <locus>`, `Amplimer <n>`, `... with <k> mismatches`
 * and `Amplimer length: <n> bp`.
 */
module ReportFacts {
  import opened Wrappers
  import opened Text
  import opened Bins
  import opened Report

  /** The line that opens a locus section. */
  function PrimerName(locus: string): string {
    "Primer name " + locus
  }

  /** The header of the `n`-th amplimer of a locus. */
  function AmplimerHeader(n: nat): string {
    "Amplimer " + NatToString(n)
  }

  /** A primer-end line reporting `k` mismatches. */
  function MismatchReport(prefix: string, k: nat): string {
    prefix + "with " + NatToString(k) + " mismatches"
  }

  /**
   * What may precede `with ` in a primer-end line: text that does not
   * open a section and holds no earlier `with `.
   */
  predicate PlainPrefix(prefix: string) {
    |prefix| >= 6 && !StartsWith(prefix, "Primer") && !Contains(prefix + "with", "with ")
  }

  /** The line that closes an amplimer with its length. */
  function LengthReport(n: nat): string {
    "\tAmplimer length: " + NatToString(n) + " bp"
  }

  /** The record of the current amplimer and the locus's labels after a length line. */
  function Recorded(s: ParseState, o: Outcome): ParseState
    requires s.Consistent() && s.amplimer.Some?
  {
    var id := s.amplimer.value.id;
    var l := s.locus.value;
    s.(lookup := s.lookup[id := s.lookup[id] + [Num(s.amplimer.value.mm)] + Cells(o)],
       repeats := if o.Assigned? then s.repeats[l := s.repeats[l] + o.labels] else s.repeats)
  }

  /** A string without a character holds no part that has it. */
  lemma {:induction false} MissingChar(s: string, part: string, c: char)
    requires c in part && c !in s
    ensures !Contains(s, part)
    decreases |s|
  {
    var i :| 0 <= i < |part| && part[i] == c;
    assert |part| > |s| || s[..|part|][i] != part[i];
    if s != [] {
      MissingChar(s[1..], part, c);
    }
  }

  /** `str(n)` holds no space, colon or letter. */
  lemma DigitsOnly(n: nat)
    ensures forall c :: c in NatToString(n) ==> IsDigit(c)
  {
    var d := NatToString(n);
    forall c | c in d ensures IsDigit(c) {
      var i :| 0 <= i < |d| && d[i] == c;
    }
  }

  /** `Primer name <locus>` makes `<locus>` current and gives it a `repeats` list. */
  lemma PrimerOpens(s: ParseState, l: string, t: Tables, script: Script)
    requires s.Consistent() && t.Valid() && ' ' !in l
    ensures Step(s, PrimerName(l), t, script) == Ok(s.(locus := Some(l), repeats := SetDefault(s.repeats, l, [])))
  {
    var line := PrimerName(l);
    assert line[..6] == "Primer";
    assert line == "Primer" + [' '] + ("name" + [' '] + l);
    SplitAt("Primer", ' ', "name" + [' '] + l);
    SplitAt("name", ' ', l);
    SplitWithout(l, ' ');
    assert Split(line, ' ') == ["Primer", "name", l];
  }

  /**
   * `Amplimer <n>` is a header only while it is shorter than 12
   * characters, that is for `n < 100`.
   */
  lemma HeaderShortOnly(n: nat)
    ensures KindOf(AmplimerHeader(n)) == HeaderLine <==> n < 100
  {
    var line := AmplimerHeader(n);
    NatToStringShort(n);
    assert line[..8] == "Amplimer";
    assert line[0] == 'A';
  }

  /**
   * A header under locus `l` makes `l_<n>` the current amplimer with a
   * zero mismatch total, keeping its record if it already has one.
   */
  lemma HeaderOpens(s: ParseState, n: nat, t: Tables, script: Script)
    requires s.Consistent() && t.Valid() && s.locus.Some? && n < 100
    ensures var id := s.locus.value + "_" + NatToString(n);
      Step(s, AmplimerHeader(n), t, script) == Ok(s.(amplimer := Some(Amplimer(id, 0)), lookup := SetDefault(s.lookup, id, [])))
  {
    var line := AmplimerHeader(n);
    var d := NatToString(n);
    assert KindOf(line) == HeaderLine by {
      HeaderShortOnly(n);
    }
    assert AmplimerField(line) == Some(d) by {
      DigitsOnly(n);
      SplitAt("Amplimer", ' ', d);
      SplitWithout(d, ' ');
      assert line == "Amplimer" + [' '] + d;
    }
  }

  /** A primer-end line is read as a mismatch line. */
  lemma MismatchReportKind(prefix: string, k: nat)
    requires PlainPrefix(prefix)
    ensures KindOf(MismatchReport(prefix, k)) == MismatchLine
  {
    var d := NatToString(k);
    var line := MismatchReport(prefix, k);
    assert !StartsWith(line, "Primer") by {
      assert line[..6] == prefix[..6];
    }
    assert |line| >= 12;
    assert Contains(line, "mismatches") by {
      assert line == (prefix + "with " + d + " ") + "mismatches" + "";
      ContainsInside(prefix + "with " + d + " ", "mismatches", "");
    }
  }

  /** The number after `with ` is the count. */
  lemma MismatchReportReads(prefix: string, k: nat)
    requires PlainPrefix(prefix)
    ensures MismatchField(MismatchReport(prefix, k)) == Some(k)
  {
    var d := NatToString(k);
    var line := MismatchReport(prefix, k);
    assert After(line, "with ") == d + " mismatches" by {
      assert "with "[..4] == "with";
      assert line == prefix + "with " + (d + " mismatches");
      AfterFirst(prefix, "with ", d + " mismatches");
    }
    assert RStrip(d + " mismatches", MismatchesChars) == d by {
      assert IsDigit(d[|d| - 1]);
      RStripTail(d, " mismatches", MismatchesChars);
    }
    assert ParseInt(d) == Some(k) by {
      IntToStringRoundTrip(k);
    }
  }

  /** The state once `k` more mismatches are added to the open amplimer's total. */
  function Added(s: ParseState, k: int): (r: ParseState)
    requires s.Consistent() && s.amplimer.Some?
    ensures r.Consistent() && r.amplimer.Some?
  {
    s.(amplimer := Some(s.amplimer.value.(mm := s.amplimer.value.mm + k)))
  }

  /** Two additions add up. */
  lemma AddedTwice(s: ParseState, a: int, b: int)
    requires s.Consistent() && s.amplimer.Some?
    ensures Added(Added(s, a), b) == Added(s, a + b)
  {
  }

  /** Adding nothing changes nothing. */
  lemma AddedNone(s: ParseState)
    requires s.Consistent() && s.amplimer.Some?
    ensures Added(s, 0) == s
  {
  }

  /** A mismatch line whose count reads as `k` adds `k` to the total. */
  lemma MismatchStep(s: ParseState, line: string, k: int)
    requires s.Consistent() && s.amplimer.Some? && MismatchField(line) == Some(k)
    ensures OnMismatch(s, line) == Ok(Added(s, k))
  {
  }

  /** A primer-end line adds its mismatch count to the current amplimer's total. */
  lemma MismatchAdds(s: ParseState, prefix: string, k: nat, t: Tables, script: Script)
    requires s.Consistent() && t.Valid() && s.amplimer.Some? && PlainPrefix(prefix)
    ensures Step(s, MismatchReport(prefix, k), t, script)
         == Ok(Added(s, k))
  {
    var line := MismatchReport(prefix, k);
    assert Step(s, line, t, script) == OnMismatch(s, line) by {
      MismatchReportKind(prefix, k);
    }
    MismatchReportReads(prefix, k);
    MismatchStep(s, line, k);
  }

  /** `Amplimer length: <n> bp` is a length line. */
  lemma LengthReportKind(n: nat)
    ensures KindOf(LengthReport(n)) == LengthLine
  {
    var line := LengthReport(n);
    LengthReportLacksC(n);
    MissingChar(line, "mismatches", 'c');
    LengthReportNamed(n);
    assert line[0] == '\t';
  }

  /** A length line has no `c`, so it cannot mention mismatches. */
  lemma LengthReportLacksC(n: nat)
    ensures 'c' !in LengthReport(n)
  {
    var d := NatToString(n);
    var line := LengthReport(n);
    DigitsOnly(n);
    assert line == "\tAmplimer length: " + d + " bp";
    forall i | 0 <= i < |line| ensures line[i] != 'c' {
      if i >= 18 && i < 18 + |d| {
        assert line[i] == d[i - 18] && d[i - 18] in d;
      }
    }
  }

  /** A length line mentions `Amplimer length`. */
  lemma LengthReportNamed(n: nat)
    ensures Contains(LengthReport(n), "Amplimer length")
  {
    var d := NatToString(n);
    assert LengthReport(n) == "\t" + "Amplimer length" + (": " + d + " bp");
    ContainsInside("\t", "Amplimer length", ": " + d + " bp");
  }

  /** The field after the colon, stripped of its spaces and unit, is the number. */
  lemma LengthFieldDigits(d: string)
    requires d != [] && AllDigits(d)
    ensures RStrip(Strip(" " + d + " bp", {' '}), {' ', 'b', 'p'}) == d
  {
    var x := d + " bp";
    assert LStrip(" " + x, {' '}) == x by {
      assert IsDigit(x[0]);
      assert LStrip(x, {' '}) == x;
      assert (" " + x)[1..] == x;
    }
    assert " " + d + " bp" == " " + x;
    assert RStrip(x, {' '}) == x;
    RStripTail(d, " bp", {' ', 'b', 'p'});
  }

  /** `Amplimer length: <n> bp` is a length line whose number is `n`. */
  lemma LengthReportReads(n: nat)
    ensures LengthText(LengthReport(n)) == Some(NatToString(n))
  {
    var d := NatToString(n);
    var line := LengthReport(n);
    var rest := " " + d + " bp";
    assert Split(line, ':') == ["\tAmplimer length", rest] by {
      DigitsOnly(n);
      assert line == "\tAmplimer length" + [':'] + rest;
      SplitAt("\tAmplimer length", ':', rest);
      assert ':' !in rest;
      SplitWithout(rest, ':');
    }
    LengthFieldDigits(d);
  }

  /**
   * A length line appends the amplimer's mismatch total and then the
   * outcome to its record, and the outcome's labels to the locus's list.
   */
  lemma LengthAppends(s: ParseState, n: nat, t: Tables, script: Script)
    requires s.Consistent() && t.Valid() && s.amplimer.Some?
    requires Classify(s.locus.value, n, t, script).Some?
    ensures Step(s, LengthReport(n), t, script) == Ok(Recorded(s, Classify(s.locus.value, n, t, script).value))
  {
    var line := LengthReport(n);
    assert Step(s, line, t, script) == OnLength(s, line, t, script) by {
      LengthReportKind(n);
    }
    assert ParseInt(NatToString(n)) == Some(n) by {
      IntToStringRoundTrip(n);
    }
    LengthReportReads(n);
  }

  /**
   * A length over the 1828 bp ceiling, or (MIRUReader.py) over the
   * locus's last row, appends `'NA'` to the record and nothing to `repeats`.
   */
  lemma LengthRejected(s: ParseState, n: nat, t: Tables, script: Script)
    requires s.Consistent() && t.Valid() && s.amplimer.Some?
    requires n > Ceiling || (script == Reader && TableFor(t, s.locus.value).Some?
                             && n > TableFor(t, s.locus.value).value.bins[|TableFor(t, s.locus.value).value.bins| - 1])
    ensures var id := s.amplimer.value.id;
      Step(s, LengthReport(n), t, script)
      == Ok(s.(lookup := s.lookup[id := s.lookup[id] + [Num(s.amplimer.value.mm), NA]]))
  {
    var id := s.amplimer.value.id;
    assert Classify(s.locus.value, n, t, script) == Some(NotAssignable);
    LengthAppends(s, n, t, script);
    assert s.lookup[id] + [Num(s.amplimer.value.mm)] + Cells(NotAssignable) == s.lookup[id] + [Num(s.amplimer.value.mm), NA];
  }

  /**
   * Inside an ascending table's range, the record gets the mismatch total
   * and the nearest row's label (the lower row on a tie), and so does the
   * locus's list.
   */
  lemma LengthNearest(s: ParseState, n: nat, t: Tables, script: Script)
    requires s.Consistent() && t.Valid() && s.amplimer.Some? && n <= Ceiling
    requires TableFor(t, s.locus.value).Some? && Ascending(TableFor(t, s.locus.value).value.bins)
    requires TableFor(t, s.locus.value).value.bins[0] <= n
    requires n < TableFor(t, s.locus.value).value.bins[|TableFor(t, s.locus.value).value.bins| - 1]
    ensures var table := TableFor(t, s.locus.value).value;
      var near := table.labels[Nearest(table.bins, n)];
      var id := s.amplimer.value.id;
      var l := s.locus.value;
      Step(s, LengthReport(n), t, script)
      == Ok(s.(lookup := s.lookup[id := s.lookup[id] + [Num(s.amplimer.value.mm), Num(near)]],
               repeats := s.repeats[l := s.repeats[l] + [near]]))
  {
    var table := TableFor(t, s.locus.value).value;
    var near := table.labels[Nearest(table.bins, n)];
    var id := s.amplimer.value.id;
    ClassifyNearest(s.locus.value, n, t, script);
    LengthAppends(s, n, t, script);
    assert Cells(Assigned([near])) == [Num(near)];
    assert s.lookup[id] + [Num(s.amplimer.value.mm)] + [Num(near)] == s.lookup[id] + [Num(s.amplimer.value.mm), Num(near)];
  }

  /** Inside an ascending table's range, a length is given the nearest row's label. */
  lemma ClassifyNearest(l: string, n: nat, t: Tables, script: Script)
    requires t.Valid() && n <= Ceiling
    requires TableFor(t, l).Some? && Ascending(TableFor(t, l).value.bins)
    requires TableFor(t, l).value.bins[0] <= n < TableFor(t, l).value.bins[|TableFor(t, l).value.bins| - 1]
    ensures var table := TableFor(t, l).value;
      Classify(l, n, t, script) == Some(Assigned([table.labels[Nearest(table.bins, n)]]))
  {
    ScanIsNearest(TableFor(t, l).value, n);
  }

  /**
   * A length below an ascending table's first row is recorded twice:
   * as `0` and as the first row's label.
   */
  lemma LengthBelowFirst(s: ParseState, n: nat, t: Tables, script: Script)
    requires s.Consistent() && t.Valid() && s.amplimer.Some? && n <= Ceiling
    requires TableFor(t, s.locus.value).Some? && Ascending(TableFor(t, s.locus.value).value.bins)
    requires n < TableFor(t, s.locus.value).value.bins[0]
    ensures var table := TableFor(t, s.locus.value).value;
      var first := table.labels[0];
      var id := s.amplimer.value.id;
      var l := s.locus.value;
      Step(s, LengthReport(n), t, script)
      == Ok(s.(lookup := s.lookup[id := s.lookup[id] + [Num(s.amplimer.value.mm), Num(0), Num(first)]],
               repeats := s.repeats[l := s.repeats[l] + [0, first]]))
  {
    var table := TableFor(t, s.locus.value).value;
    var l := s.locus.value;
    assert |table.bins| >= 16 by {
      if l != ExtendedLocus {
        assert table.bins == t.standard[l];
      }
    }
    var first := table.labels[0];
    var id := s.amplimer.value.id;
    ScanBelowFirst(table, n);
    assert Classify(l, n, t, script) == Some(Assigned([0, first]));
    LengthAppends(s, n, t, script);
    assert Cells(Assigned([0, first])) == [Num(0), Num(first)];
    assert s.lookup[id] + [Num(s.amplimer.value.mm)] + [Num(0), Num(first)] == s.lookup[id] + [Num(s.amplimer.value.mm), Num(0), Num(first)];
  }

  /**
   * A length equal to the last row (in both scripts), or at or past it
   * within the ceiling (in MIRUFinder.py), records only the mismatch total.
   */
  lemma LengthUnlabelled(s: ParseState, n: nat, t: Tables, script: Script)
    requires s.Consistent() && t.Valid() && s.amplimer.Some? && n <= Ceiling
    requires TableFor(t, s.locus.value).Some? && Ascending(TableFor(t, s.locus.value).value.bins)
    requires var bins := TableFor(t, s.locus.value).value.bins;
      n == bins[|bins| - 1] || (script == Finder && n >= bins[|bins| - 1])
    ensures var id := s.amplimer.value.id;
      Step(s, LengthReport(n), t, script)
      == Ok(s.(lookup := s.lookup[id := s.lookup[id] + [Num(s.amplimer.value.mm)]]))
  {
    var table := TableFor(t, s.locus.value).value;
    var id := s.amplimer.value.id;
    var l := s.locus.value;
    ScanFromLast(table, n);
    assert Classify(l, n, t, script) == Some(Assigned([]));
    LengthAppends(s, n, t, script);
    assert Cells(Assigned([])) == [];
    assert s.lookup[id] + [Num(s.amplimer.value.mm)] + [] == s.lookup[id] + [Num(s.amplimer.value.mm)];
    assert l in s.repeats && s.repeats[l] + [] == s.repeats[l];
    assert s.repeats[l := s.repeats[l]] == s.repeats;
  }

  /** Lines read one after the other: an exception stops the rest. */
  lemma {:induction false} ParseConcat(s: ParseState, a: seq<string>, b: seq<string>, t: Tables, script: Script)
    requires s.Consistent() && t.Valid()
    ensures Parse(s, a + b, t, script)
         == match Parse(s, a, t, script)
            case Err(e) => Err(e)
            case Ok(s') => Parse(s', b, t, script)
    decreases |a|
  {
    if a == [] {
      assert a + b == b;
    } else {
      assert (a + b)[0] == a[0] && (a + b)[1..] == a[1..] + b;
      match Step(s, a[0], t, script)
      case Err(_) =>
      case Ok(s') => ParseConcat(s', a[1..], b, t, script);
    }
  }

  /** A line read without an exception hands its state to the rest. */
  lemma ParseFirst(s: ParseState, lines: seq<string>, s': ParseState, t: Tables, script: Script)
    requires s.Consistent() && t.Valid() && lines != [] && Step(s, lines[0], t, script) == Ok(s')
    ensures Parse(s, lines, t, script) == Parse(s', lines[1..], t, script)
  {
  }

  /** Every line is a mismatch line whose count reads as an integer. */
  predicate MismatchRun(lines: seq<string>) {
    forall i :: 0 <= i < |lines| ==> KindOf(lines[i]) == MismatchLine && MismatchField(lines[i]).Some?
  }

  /** The sum of the counts of a run of mismatch lines. */
  function RunTotal(lines: seq<string>): int
    requires MismatchRun(lines)
  {
    if lines == [] then 0 else MismatchField(lines[0]).value + RunTotal(lines[1..])
  }

  /** `mm` sums every mismatch line read since the header. */
  lemma {:induction false} MismatchesAccumulate(s: ParseState, lines: seq<string>, t: Tables, script: Script)
    requires s.Consistent() && t.Valid() && s.amplimer.Some? && MismatchRun(lines)
    ensures Parse(s, lines, t, script) == Ok(Added(s, RunTotal(lines)))
    decreases |lines|
  {
    if lines != [] {
      var k := MismatchField(lines[0]).value;
      RunTail(lines);
      RunHead(s, lines, t, script);
      ParseFirst(s, lines, Added(s, k), t, script);
      MismatchesAccumulate(Added(s, k), lines[1..], t, script);
      AddedTwice(s, k, RunTotal(lines[1..]));
    } else {
      AddedNone(s);
    }
  }

  /** The first line of a run adds its count. */
  lemma RunHead(s: ParseState, lines: seq<string>, t: Tables, script: Script)
    requires s.Consistent() && t.Valid() && s.amplimer.Some? && lines != [] && MismatchRun(lines)
    ensures Step(s, lines[0], t, script) == Ok(Added(s, MismatchField(lines[0]).value))
  {
    MismatchStep(s, lines[0], MismatchField(lines[0]).value);
  }

  /** The rest of a run is a run. */
  lemma RunTail(lines: seq<string>)
    requires lines != [] && MismatchRun(lines)
    ensures MismatchRun(lines[1..])
  {
    assert forall i :: 0 <= i < |lines| - 1 ==> lines[1..][i] == lines[i + 1];
  }

  /** `s'` holds every key of `s`, each record and list extended at its end. */
  predicate Extends(s: ParseState, s': ParseState) {
    && (forall id :: id in s.lookup ==> id in s'.lookup && s.lookup[id] <= s'.lookup[id])
    && (forall l :: l in s.repeats ==> l in s'.repeats && s.repeats[l] <= s'.repeats[l])
  }

  /** Every line only adds keys or appends to records and lists. */
  lemma StepExtends(s: ParseState, line: string, t: Tables, script: Script)
    requires s.Consistent() && t.Valid() && Step(s, line, t, script).Ok?
    ensures Extends(s, Step(s, line, t, script).value)
  {
    if KindOf(line) == LengthLine {
      var s' := Step(s, line, t, script).value;
      var id := s.amplimer.value.id;
      var l := s.locus.value;
      assert s.lookup[id] <= s'.lookup[id];
      assert s.repeats[l] <= s'.repeats[l];
    }
  }

  /** The whole parse never removes a key or a recorded value. */
  lemma {:induction false} ParseExtends(s: ParseState, lines: seq<string>, t: Tables, script: Script)
    requires s.Consistent() && t.Valid() && Parse(s, lines, t, script).Ok?
    ensures Extends(s, Parse(s, lines, t, script).value)
    decreases |lines|
  {
    if lines != [] {
      var s' := Step(s, lines[0], t, script).value;
      StepExtends(s, lines[0], t, script);
      ParseExtends(s', lines[1..], t, script);
    }
  }

  /** The length a length line reports, when it reads as an integer. */
  function LengthValue(line: string): Option<int> {
    match LengthText(line)
    case None => None
    case Some(field) => ParseInt(field)
  }

  /** A length line whose length reads and whose locus has a table records its outcome. */
  lemma LengthStep(s: ParseState, line: string, t: Tables, script: Script)
    requires s.Consistent() && t.Valid() && s.amplimer.Some?
    requires KindOf(line) == LengthLine && LengthValue(line).Some?
    requires Classify(s.locus.value, LengthValue(line).value, t, script).Some?
    ensures Step(s, line, t, script)
         == Ok(Recorded(s, Classify(s.locus.value, LengthValue(line).value, t, script).value))
  {
  }

  /** A header under a locus opens `<locus>_<n>` with a zero total. */
  lemma HeaderStep(s: ParseState, line: string, t: Tables, script: Script)
    requires s.Consistent() && t.Valid() && s.locus.Some?
    requires KindOf(line) == HeaderLine && AmplimerField(line).Some?
    ensures Step(s, line, t, script) == Ok(Opened(s, s.locus.value + "_" + AmplimerField(line).value, 0))
  {
  }

  /** The state once amplimer `id` is open with mismatch total `mm`. */
  function Opened(s: ParseState, id: string, mm: int): (r: ParseState)
    requires s.Consistent() && s.locus.Some?
    ensures r.Consistent()
  {
    s.(amplimer := Some(Amplimer(id, mm)), lookup := SetDefault(s.lookup, id, []))
  }

  /**
   * One amplimer of a locus section, read in full: the header, its
   * mismatch lines and its length line. The record `<locus>_<n>` gets the
   * sum of all the mismatch counts, then the outcome's cells, and the
   * locus's list gets the outcome's labels.
   */
  lemma AmplimerSection(s: ParseState, header: string, run: seq<string>, last: string, t: Tables, script: Script)
    requires s.Consistent() && t.Valid() && s.locus.Some?
    requires KindOf(header) == HeaderLine && AmplimerField(header).Some?
    requires MismatchRun(run)
    requires KindOf(last) == LengthLine && LengthValue(last).Some?
    requires Classify(s.locus.value, LengthValue(last).value, t, script).Some?
    ensures var started := Opened(s, s.locus.value + "_" + AmplimerField(header).value, RunTotal(run));
      Parse(s, [header] + run + [last], t, script)
      == Ok(Recorded(started, Classify(s.locus.value, LengthValue(last).value, t, script).value))
  {
    assert [header] + run + [last] == [header] + (run + [last]);
    HeaderRun(s, header, run, [last], t, script);
    LengthLast(Opened(s, s.locus.value + "_" + AmplimerField(header).value, RunTotal(run)), last, t, script);
  }

  /** A header and its mismatch lines open the record with their total, then the rest is read. */
  lemma HeaderRun(s: ParseState, header: string, run: seq<string>, rest: seq<string>, t: Tables, script: Script)
    requires s.Consistent() && t.Valid() && s.locus.Some?
    requires KindOf(header) == HeaderLine && AmplimerField(header).Some?
    requires MismatchRun(run)
    ensures Parse(s, [header] + (run + rest), t, script)
         == Parse(Opened(s, s.locus.value + "_" + AmplimerField(header).value, RunTotal(run)), rest, t, script)
  {
    var id := s.locus.value + "_" + AmplimerField(header).value;
    HeaderThen(s, header, run + rest, t, script);
    RunThen(s, id, 0, run, rest, t, script);
  }

  /** A header opens its record with a zero total, then the rest is read. */
  lemma HeaderThen(s: ParseState, header: string, rest: seq<string>, t: Tables, script: Script)
    requires s.Consistent() && t.Valid() && s.locus.Some?
    requires KindOf(header) == HeaderLine && AmplimerField(header).Some?
    ensures Parse(s, [header] + rest, t, script)
         == Parse(Opened(s, s.locus.value + "_" + AmplimerField(header).value, 0), rest, t, script)
  {
    HeaderStep(s, header, t, script);
    ParseCons(s, header, rest, Opened(s, s.locus.value + "_" + AmplimerField(header).value, 0), t, script);
  }

  /** The last line of an amplimer, a length line, records the outcome and ends the parse. */
  lemma LengthLast(s: ParseState, last: string, t: Tables, script: Script)
    requires s.Consistent() && t.Valid() && s.amplimer.Some?
    requires KindOf(last) == LengthLine && LengthValue(last).Some?
    requires Classify(s.locus.value, LengthValue(last).value, t, script).Some?
    ensures Parse(s, [last], t, script)
         == Ok(Recorded(s, Classify(s.locus.value, LengthValue(last).value, t, script).value))
  {
    var o := Classify(s.locus.value, LengthValue(last).value, t, script).value;
    LengthStep(s, last, t, script);
    ParseCons(s, last, [], Recorded(s, o), t, script);
    assert [last] + [] == [last];
  }

  /** A first line read without an exception hands its state to the rest. */
  lemma ParseCons(s: ParseState, line: string, rest: seq<string>, s': ParseState, t: Tables, script: Script)
    requires s.Consistent() && t.Valid() && Step(s, line, t, script) == Ok(s')
    ensures Parse(s, [line] + rest, t, script) == Parse(s', rest, t, script)
  {
    assert ([line] + rest)[0] == line && ([line] + rest)[1..] == rest;
  }

  /** A run of mismatch lines adds its total to the open amplimer, then the rest is read. */
  lemma RunThen(s: ParseState, id: string, mm: int, run: seq<string>, rest: seq<string>, t: Tables, script: Script)
    requires s.Consistent() && t.Valid() && s.locus.Some? && MismatchRun(run)
    ensures Parse(Opened(s, id, mm), run + rest, t, script) == Parse(Opened(s, id, mm + RunTotal(run)), rest, t, script)
  {
    var o := Opened(s, id, mm);
    ParseConcat(o, run, rest, t, script);
    MismatchesAccumulate(o, run, t, script);
    assert Added(o, RunTotal(run)) == Opened(s, id, mm + RunTotal(run));
  }
}
