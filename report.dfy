/**
 * The primer-search report parser of MIRUReader.py and MIRUFinder.py:
 * the loop over report lines that threads the current locus `loci`, the
 * current amplimer `primerID` and its mismatch total `mm`, and fills the
 * dictionaries `lookup` (amplimer -> [mismatch total, label...]) and
 * `repeats` (locus -> labels), classifying each amplicon length on the way.
 */
module Report {
  import opened Wrappers
  import opened Text
  import opened Bins

  /** The two scripts differ only in whether a length past a locus's last row is rejected. */
  datatype Script = Reader | Finder

  /** One element of a `lookup` record: an integer (a mismatch total or a label) or `'NA'`. */
  datatype Cell = Num(n: int) | NA

  /** Global ceiling on amplicon length: anything longer is `'NA'` for every locus. */
  const Ceiling: int := 1828

  /** The locus with its own 26-row table and an explicit `No.` label column. */
  const ExtendedLocus: string := "0580"

  /**
   * The loaded reference tables: `df` (16 rows per locus column) and the
   * `0580` and `No.` columns of `df_0580` (26 rows).
   */
  datatype Tables = Tables(standard: map<string, seq<int>>, bins0580: seq<int>, labels0580: seq<int>) {
    predicate Valid() {
      && (forall l :: l in standard ==> |standard[l]| == 16)
      && |bins0580| == 26 && |labels0580| == 26
    }
  }

  /** The table the scan runs over for a locus, if the locus has one. */
  function TableFor(t: Tables, locus: string): (r: Option<Table>)
    requires t.Valid()
    ensures r.Some? ==> r.value.Valid()
    ensures locus == ExtendedLocus ==> r == Some(Table(t.bins0580, t.labels0580))
    ensures locus != ExtendedLocus && locus in t.standard ==> r.Some? && r.value.bins == t.standard[locus]
    ensures r.None? <==> locus != ExtendedLocus && locus !in t.standard
  {
    if locus == ExtendedLocus then Some(Table(t.bins0580, t.labels0580))
    else if locus in t.standard then Some(Indexed(t.standard[locus]))
    else None
  }

  /** What a length line contributes: `'NA'`, or the labels the scan appended. */
  datatype Outcome = NotAssignable | Assigned(labels: seq<int>)

  /**
   * Classification of one amplicon length for a locus; `None` is the
   * `KeyError` of `df[loci]` for a locus the standard table lacks.
   */
  function Classify(locus: string, amp: int, t: Tables, script: Script): (r: Option<Outcome>)
    requires t.Valid()
    ensures r.None? <==> amp <= Ceiling && TableFor(t, locus).None?
    ensures r.Some? && r.value.Assigned? ==>
      && TableFor(t, locus).Some? && |r.value.labels| <= 2
      && forall x :: x in r.value.labels ==> x == 0 || x in TableFor(t, locus).value.labels
  {
    if amp > Ceiling then Some(NotAssignable)
    else match TableFor(t, locus)
      case None => None
      case Some(table) =>
        if script == Reader && amp > table.bins[|table.bins| - 1] then Some(NotAssignable)
        else Some(Assigned(ScanLabels(table, amp)))
  }

  /** The `lookup` cells of an outcome (after the mismatch total). */
  function Cells(o: Outcome): seq<Cell> {
    match o
    case NotAssignable => [NA]
    case Assigned(labels) => seq(|labels|, i requires 0 <= i < |labels| => Num(labels[i]))
  }

  /** Which branch of the `if/elif` chain a report line takes. */
  datatype LineKind = PrimerLine | HeaderLine | MismatchLine | LengthLine | OtherLine

  function KindOf(line: string): LineKind {
    if StartsWith(line, "Primer") then PrimerLine
    else if StartsWith(line, "Amplimer") && |line| < 12 then HeaderLine
    else if Contains(line, "mismatches") then MismatchLine
    else if Contains(line, "Amplimer length") then LengthLine
    else OtherLine
  }

  /** `line.split(' ')[2]` of a `Primer` line; `None` is the `IndexError`. */
  function LocusField(line: string): Option<string> {
    var col := Split(line, ' ');
    if |col| > 2 then Some(col[2]) else None
  }

  /** `line.split(' ')[1]` of an amplimer header; `None` is the `IndexError`. */
  function AmplimerField(line: string): Option<string> {
    var col := Split(line, ' ');
    if |col| > 1 then Some(col[1]) else None
  }

  /** The characters `rstrip(' mismatches')` removes. */
  const MismatchesChars: set<char> := {' ', 'm', 'i', 's', 'a', 't', 'c', 'h', 'e'}

  /** `int(line.partition('with ')[2].rstrip(' mismatches'))`; `None` is the `ValueError`. */
  function MismatchField(line: string): Option<int> {
    ParseInt(RStrip(After(line, "with "), MismatchesChars))
  }

  /** `line.split(':')[1].strip(' ').rstrip(' bp')`; `None` is the `IndexError`. */
  function LengthText(line: string): Option<string> {
    var field := Split(line, ':');
    if |field| > 1 then Some(RStrip(Strip(field[1], {' '}), {' ', 'b', 'p'})) else None
  }

  /** The amplimer being read: `primerID` and its running mismatch total `mm`. */
  datatype Amplimer = Amplimer(id: string, mm: int)

  /** The variables the parse loop threads; `None` stands for a Python name not yet bound. */
  datatype ParseState = ParseState(
    locus: Option<string>,
    amplimer: Option<Amplimer>,
    lookup: map<string, seq<Cell>>,
    repeats: map<string, seq<int>>)
  {
    /**
     * What the loop guarantees between lines: an amplimer is only ever
     * opened under a locus, its record exists, and the current locus has
     * a `repeats` list.
     */
    predicate Consistent() {
      && (amplimer.Some? ==> locus.Some? && amplimer.value.id in lookup)
      && (locus.Some? ==> locus.value in repeats)
    }
  }

  const Initial: ParseState := ParseState(None, None, map[], map[])

  /** The exceptions that abort a run. */
  datatype ParseError =
    | MissingField(line: string)   // IndexError on a split field
    | NotANumber(line: string)     // ValueError from int()
    | NoLocusYet(line: string)     // NameError: `loci` before any Primer line
    | NoAmplimerYet(line: string)  // NameError: `mm` or `primerID` before any header
    | UnknownLocus(locus: string)  // KeyError: `df[loci]`

  datatype Result<T> = Ok(value: T) | Err(error: ParseError)

  /** `d.setdefault(k, v)` where only the effect on `d` matters. */
  function SetDefault<V>(d: map<string, V>, k: string, v: V): (r: map<string, V>)
    ensures k in r && r[k] == (if k in d then d[k] else v)
    ensures forall j :: j in d ==> j in r && r[j] == d[j]
    ensures forall j :: j in r ==> j in d || j == k
  {
    if k in d then d else d[k := v]
  }

  /** A `Primer` line opens a locus and gives it a `repeats` list if it has none. */
  function OnPrimer(s: ParseState, line: string): (r: Result<ParseState>)
    requires s.Consistent()
    ensures r.Ok? ==> r.value.Consistent()
  {
    match LocusField(line)
    case None => Err(MissingField(line))
    case Some(l) => Ok(s.(locus := Some(l), repeats := SetDefault(s.repeats, l, [])))
  }

  /** An amplimer header opens `<locus>_<n>` with a zero mismatch total. */
  function OnHeader(s: ParseState, line: string): (r: Result<ParseState>)
    requires s.Consistent()
    ensures r.Ok? ==> r.value.Consistent()
  {
    if s.locus.None? then Err(NoLocusYet(line))
    else
      match AmplimerField(line)
      case None => Err(MissingField(line))
      case Some(n) =>
        var id := s.locus.value + "_" + n;
        Ok(s.(amplimer := Some(Amplimer(id, 0)), lookup := SetDefault(s.lookup, id, [])))
  }

  /** A mismatch line adds its count to the current amplimer's total. */
  function OnMismatch(s: ParseState, line: string): (r: Result<ParseState>)
    requires s.Consistent()
    ensures r.Ok? ==> r.value.Consistent()
  {
    if s.amplimer.None? then Err(NoAmplimerYet(line))
    else
      match MismatchField(line)
      case None => Err(NotANumber(line))
      case Some(k) => Ok(s.(amplimer := Some(s.amplimer.value.(mm := s.amplimer.value.mm + k))))
  }

  /**
   * A length line appends the mismatch total and the outcome to the
   * amplimer's record, and the labels to the locus's `repeats`.
   */
  function OnLength(s: ParseState, line: string, t: Tables, script: Script): (r: Result<ParseState>)
    requires s.Consistent() && t.Valid()
    ensures r.Ok? ==> r.value.Consistent()
  {
    match LengthText(line)
    case None => Err(MissingField(line))
    case Some(text) =>
      match ParseInt(text)
      case None => Err(NotANumber(line))
      case Some(amp) =>
        if s.amplimer.None? then Err(NoAmplimerYet(line))
        else
          var a := s.amplimer.value;
          var l := s.locus.value;
          match Classify(l, amp, t, script)
          case None => Err(UnknownLocus(l))
          case Some(o) =>
            var record := s.lookup[a.id] + [Num(a.mm)] + Cells(o);
            Ok(s.(lookup := s.lookup[a.id := record],
                  repeats := if o.Assigned? then s.repeats[l := s.repeats[l] + o.labels] else s.repeats))
  }

  /** One iteration of the parse loop. */
  function Step(s: ParseState, line: string, t: Tables, script: Script): (r: Result<ParseState>)
    requires s.Consistent() && t.Valid()
    ensures r.Ok? ==> r.value.Consistent()
  {
    match KindOf(line)
    case PrimerLine => OnPrimer(s, line)
    case HeaderLine => OnHeader(s, line)
    case MismatchLine => OnMismatch(s, line)
    case LengthLine => OnLength(s, line, t, script)
    case OtherLine => Ok(s)
  }

  /** The whole loop: the lines in order, stopping at the first exception. */
  function Parse(s: ParseState, lines: seq<string>, t: Tables, script: Script): (r: Result<ParseState>)
    requires s.Consistent() && t.Valid()
    ensures r.Ok? ==> r.value.Consistent()
    decreases |lines|
  {
    if lines == [] then Ok(s)
    else
      match Step(s, lines[0], t, script)
      case Err(e) => Err(e)
      case Ok(s') => Parse(s', lines[1..], t, script)
  }

  /** The length branch's table lookups and its scan loop, run as `Scan`. */
  method ClassifyLength(locus: string, amp: int, t: Tables, script: Script) returns (o: Option<Outcome>)
    requires t.Valid()
    ensures o == Classify(locus, amp, t, script)
  {
    if amp > Ceiling {
      return Some(NotAssignable);
    }
    var table := TableFor(t, locus);
    if table.None? {
      return None;
    }
    var bins := table.value.bins;
    if script == Reader && amp > bins[|bins| - 1] {
      return Some(NotAssignable);
    }
    var labels := Scan(table.value, amp);
    return Some(Assigned(labels));
  }

  /** The amplicon-length branch of the loop body, which runs the scan loop through `ClassifyLength`. */
  method ReadLength(s: ParseState, line: string, t: Tables, script: Script) returns (r: Result<ParseState>)
    requires s.Consistent() && t.Valid()
    ensures r == OnLength(s, line, t, script)
  {
    var field := Split(line, ':');
    if |field| <= 1 {
      return Err(MissingField(line));
    }
    var amplicon := ParseInt(RStrip(Strip(field[1], {' '}), {' ', 'b', 'p'}));
    if amplicon.None? {
      return Err(NotANumber(line));
    }
    if s.amplimer.None? {
      return Err(NoAmplimerYet(line));
    }
    var primerID := s.amplimer.value.id;
    var loci := s.locus.value;
    var o := ClassifyLength(loci, amplicon.value, t, script);
    if o.None? {
      return Err(UnknownLocus(loci));
    }
    var lookup := s.lookup[primerID := s.lookup[primerID] + [Num(s.amplimer.value.mm)] + Cells(o.value)];
    var repeats := s.repeats;
    if o.value.Assigned? {
      repeats := repeats[loci := repeats[loci] + o.value.labels];
    }
    return Ok(s.(lookup := lookup, repeats := repeats));
  }

  /**
   * The loop body: the `if`/`elif` chain on the line. The other branches
   * have no loop and are the functions themselves.
   */
  method ReadLine(s: ParseState, line: string, t: Tables, script: Script) returns (next: Result<ParseState>)
    requires s.Consistent() && t.Valid()
    ensures next == Step(s, line, t, script)
  {
    match KindOf(line) {
      case PrimerLine => next := OnPrimer(s, line);
      case HeaderLine => next := OnHeader(s, line);
      case MismatchLine => next := OnMismatch(s, line);
      case LengthLine => next := ReadLength(s, line, t, script);
      case OtherLine => next := Ok(s);
    }
  }

  /**
   * The parse loop over the report's lines; `s` holds the loop's variables
   * `loci`, `primerID`, `mm`, `lookup` and `repeats`.
   */
  method ParseReport(lines: seq<string>, t: Tables, script: Script) returns (r: Result<ParseState>)
    requires t.Valid()
    ensures r == Parse(Initial, lines, t, script)
  {
    var s := Initial;
    var i := 0;
    while i < |lines|
      invariant 0 <= i <= |lines|
      invariant s.Consistent()
      invariant Parse(Initial, lines, t, script) == Parse(s, lines[i..], t, script)
    {
      var line := lines[i];
      assert lines[i..][0] == line && lines[i..][1..] == lines[i + 1..];
      var next := ReadLine(s, line, t, script);
      if next.Err? {
        return next;
      }
      s := next.value;
      i := i + 1;
    }
    r := Ok(s);
  }
}
