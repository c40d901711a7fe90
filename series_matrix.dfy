/**
 * Parsing one GEO series-matrix file (`parse_series_matrix`) into a table of
 * eleven columns, one row per sample.
 *
 * A file is its sequence of lines. Each line is dispatched on its tag prefix;
 * the tab-separated fields after the tag become a column. The DataFrame that
 * the source returns is modelled as its sequence of rows; a row holds one
 * cell per column of `Columns`, in that order, and a cell is `None` where the
 * source pads with `None`.
 */
module SeriesMatrix {
  import opened Wrappers
  import opened PyStrings

  type Cell = Option<string>

  /** The column names, in the order of the source's `data` dictionary. */
  const Columns: seq<string> := [
    "Series_geo_accession", "Series_sample_id", "Sample_title", "Sample_geo_accession",
    "Sample_source_name_ch1", "Sample_organism_ch1", "Sample_molecule_ch1",
    "Sample_platform_id", "Sample_Character_1", "Sample_Character_2", "Sample_Character_3"]

  const Width := 11
  const GeoAccessionColumn := 3
  const FirstCharacterColumn := 8

  /** One row of the table: a cell for each of the eleven columns. */
  type Row = r: seq<Cell> | |r| == Width
    witness [None, None, None, None, None, None, None, None, None, None, None]

  /** The line tags, in the order the source tests them. */
  datatype Tag =
    | SeriesGeoAccession | SeriesSampleId
    | SampleTitle | SampleGeoAccession | SampleSourceName | SampleOrganism
    | SampleMolecule | SamplePlatformId | SampleCharacteristics
    | Untagged

  /** Why parsing a file fails. `NoSecondField`: a series line has no tab-separated
      value (an IndexError); `UnboundColumn`: a single-valued sample tag never
      occurs (its local is unbound); `RaggedColumns`: the columns differ in length
      when the DataFrame is built. */
  datatype ParseError = NoSecondField | UnboundColumn(tag: Tag) | RaggedColumns

  /** The if/elif dispatch on the raw line's prefix: the first test that holds wins. */
  function Classify(line: string): Tag {
    if StartsWith(line, "!Series_geo_accession") then SeriesGeoAccession
    else if StartsWith(line, "!Series_sample_id") then SeriesSampleId
    else if StartsWith(line, "!Sample_title") then SampleTitle
    else if StartsWith(line, "!Sample_geo_accession") then SampleGeoAccession
    else if StartsWith(line, "!Sample_source_name_ch1") then SampleSourceName
    else if StartsWith(line, "!Sample_organism_ch1") then SampleOrganism
    else if StartsWith(line, "!Sample_molecule_ch1") then SampleMolecule
    else if StartsWith(line, "!Sample_platform_id") then SamplePlatformId
    else if StartsWith(line, "!Sample_characteristics_ch1") then SampleCharacteristics
    else Untagged
  }

  /** The six single-valued per-sample tags, in the order their columns are
      assigned (and so the order in which a missing one is detected). */
  const SampleTags: seq<Tag> := [
    SampleTitle, SampleGeoAccession, SampleSourceName, SampleOrganism,
    SampleMolecule, SamplePlatformId]

  /** `line.strip().split("\t")` */
  function Fields(line: string): seq<string> {
    Split(Strip(line), '\t')
  }

  /** A line as the loop's dispatch sees it: its tag and its tab fields. */
  datatype Line = Line(tag: Tag, fields: seq<string>)
  {
    /** `line.strip().split("\t")[1:]`: the values after the tag, quotes kept. */
    function Values(): seq<string> {
      if |fields| == 0 then [] else fields[1..]
    }

    /** The second tab field, where there is one. */
    function SecondField(): string {
      if |fields| >= 2 then fields[1] else ""
    }

    /** A series line whose `split("\t")[1]` raises. */
    predicate Malformed() {
      SeriesTag(tag) && |fields| < 2
    }
  }

  /** What the dispatch reads off one raw line. */
  function Lex(line: string): Line {
    Line(Classify(line), Fields(line))
  }

  /** Every line of a file, lexed. */
  function LexAll(lines: seq<string>): (ls: seq<Line>)
    ensures |ls| == |lines|
  {
    seq(|lines|, i requires 0 <= i < |lines| => Lex(lines[i]))
  }

  /** The two series tags, whose handlers read `split("\t")[1]`. */
  predicate SeriesTag(t: Tag) {
    t == SeriesGeoAccession || t == SeriesSampleId
  }

  /** None of the first `n` lines is `Malformed`. */
  predicate WellFormedUpTo(ls: seq<Line>, n: nat)
    requires n <= |ls|
  {
    n == 0 || (WellFormedUpTo(ls, n - 1) && !ls[n - 1].Malformed())
  }

  /** The index of the last of the first `n` lines that carries tag `t`. */
  function LastIndex(ls: seq<Line>, n: nat, t: Tag): (r: Option<nat>)
    requires n <= |ls|
    ensures r.Some? ==> r.value < n
  {
    if n == 0 then None
    else if ls[n - 1].tag == t then Some(n - 1)
    else LastIndex(ls, n - 1, t)
  }

  /** The values of the last line with tag `t` among the first `n`; `None` when
      there is none (the local is then unbound). */
  function LastValues(ls: seq<Line>, n: nat, t: Tag): Option<seq<string>>
    requires n <= |ls|
  {
    match LastIndex(ls, n, t)
    case Some(j) => Some(ls[j].Values())
    case None => None
  }

  /** The series accession after the first `n` lines: the last one seen, quotes
      stripped, or `None` when there is none. */
  function LastAccession(ls: seq<Line>, n: nat): Option<string>
    requires n <= |ls|
  {
    match LastIndex(ls, n, SeriesGeoAccession)
    case Some(j) => Some(StripChar(ls[j].SecondField(), '"'))
    case None => None
  }

  /** The sample identifiers after the first `n` lines: the last
      `!Series_sample_id` value, quotes stripped, split on white space. */
  function LastSampleIds(ls: seq<Line>, n: nat): seq<string>
    requires n <= |ls|
  {
    match LastIndex(ls, n, SeriesSampleId)
    case Some(j) => Words(StripChar(ls[j].SecondField(), '"'))
    case None => []
  }

  /** The non-empty value lists of the characteristic lines among the first
      `n`, in file order. */
  function CharLists(ls: seq<Line>, n: nat): (r: seq<seq<string>>)
    requires n <= |ls|
    ensures forall k :: 0 <= k < |r| ==> r[k] != []
  {
    if n == 0 then []
    else
      var l := ls[n - 1];
      CharLists(ls, n - 1)
        + if l.tag == SampleCharacteristics && l.Values() != [] then [l.Values()] else []
  }

  /** The `k`-th non-empty characteristic list, or the empty list. */
  function Slot(cs: seq<seq<string>>, k: nat): seq<string> {
    if k < |cs| then cs[k] else []
  }

  function Max(a: nat, b: nat): nat {
    if a < b then b else a
  }

  function Min(a: nat, b: nat): nat {
    if a < b then a else b
  }

  function Somes(s: seq<string>): (r: seq<Cell>)
    ensures |r| == |s|
  {
    seq(|s|, i requires 0 <= i < |s| => Some(s[i]))
  }

  /** `col += [None] * (n - len(col))` when `col` is shorter than `n`. */
  function Pad(col: seq<Cell>, n: nat): (r: seq<Cell>)
    ensures |r| == Max(|col|, n)
  {
    if |col| < n then col + seq(n - |col|, _ => None) else col
  }

  /** Every column padded to `n`. */
  function PadAll(cols: seq<seq<Cell>>, n: nat): (r: seq<seq<Cell>>)
    ensures |r| == |cols|
  {
    seq(|cols|, c requires 0 <= c < |cols| => Pad(cols[c], n))
  }

  /** `pd.DataFrame(data)`: the rows of equal-length columns, or a failure when
      their lengths differ. */
  function BuildFrame(cols: seq<seq<Cell>>): (r: Result<seq<Row>, ParseError>)
    requires |cols| == Width
    ensures r.Success? <==> forall c :: 0 <= c < Width ==> |cols[c]| == |cols[0]|
    ensures r.Failure? ==> r.error == RaggedColumns
    ensures r.Success? ==> (|r.value| == |cols[0]|
      && forall i, c :: 0 <= i < |r.value| && 0 <= c < Width ==> r.value[i][c] == cols[c][i])
  {
    if forall c :: 0 <= c < Width ==> |cols[c]| == |cols[0]| then
      Success(seq(|cols[0]|, i requires 0 <= i < |cols[0]| =>
        seq(Width, c requires 0 <= c < Width => cols[c][i])))
    else Failure(RaggedColumns)
  }

  /** What parsing the file yields, stated over whole-file facts: the
      IndexError of a series line without a value, or what the assembly makes
      of the file's `Summary`. */
  function ParseLexed(ls: seq<Line>): Result<seq<Row>, ParseError> {
    if !WellFormedUpTo(ls, |ls|) then Failure(NoSecondField)
    else Assemble(Summary(ls))
  }

  /** What parsing a file's raw lines yields. */
  function ParseSpec(lines: seq<string>): Result<seq<Row>, ParseError> {
    ParseLexed(LexAll(lines))
  }

  /** `max(len(data[key]) for key in data)`. */
  function MaxLen(cols: seq<seq<Cell>>): nat {
    if |cols| == 0 then 0 else Max(|cols[0]|, MaxLen(cols[1..]))
  }

  lemma {:induction false} MaxLenSkipsEmpty(cols: seq<seq<Cell>>, k: nat)
    requires k <= |cols|
    requires forall c :: 0 <= c < k ==> cols[c] == []
    ensures MaxLen(cols) == MaxLen(cols[k..])
  {
    if k > 0 {
      assert cols[1..][k - 1..] == cols[k..];
      MaxLenSkipsEmpty(cols[1..], k - 1);
    }
  }

  /** When `max_length` is computed only the characteristic columns are filled,
      so it is the longest of those three. */
  lemma MaxLenOfCharacteristics(data: seq<seq<Cell>>, c1: seq<string>, c2: seq<string>, c3: seq<string>)
    requires |data| == Width
    requires forall c :: 0 <= c < FirstCharacterColumn ==> data[c] == []
    requires data[8] == Somes(c1) && data[9] == Somes(c2) && data[10] == Somes(c3)
    ensures MaxLen(data) == Max(|c1|, Max(|c2|, |c3|))
  {
    MaxLenSkipsEmpty(data, FirstCharacterColumn);
    var tail := data[FirstCharacterColumn..];
    assert |tail| == 3;
    assert MaxLen(tail[2..]) == |tail[2]| by {
      assert tail[2..][1..] == [];
    }
    assert MaxLen(tail[1..]) == Max(|tail[1]|, |tail[2]|) by {
      assert tail[1..][1..] == tail[2..];
    }
  }

  /** The locals of the scanning loop: the series accession, the sample
      identifiers, the six single-valued sample columns (`None` while unbound)
      and the three characteristic slots. */
  datatype Scan = Scan(
    accession: Option<string>, sampleIds: seq<string>,
    title: Option<seq<string>>, geoAccession: Option<seq<string>>,
    sourceName: Option<seq<string>>, organism: Option<seq<string>>,
    molecule: Option<seq<string>>, platform: Option<seq<string>>,
    character1: seq<string>, character2: seq<string>, character3: seq<string>)
  {
    /** The value of a single-valued sample tag's local. */
    function SampleValue(t: Tag): Option<seq<string>> {
      match t
      case SampleTitle => title
      case SampleGeoAccession => geoAccession
      case SampleSourceName => sourceName
      case SampleOrganism => organism
      case SampleMolecule => molecule
      case SamplePlatformId => platform
      case _ => None
    }

    /** The `k`-th characteristic slot. */
    function Character(k: nat): seq<string> {
      if k == 0 then character1 else if k == 1 then character2 else if k == 2 then character3 else []
    }
  }

  const Unscanned := Scan(None, [], None, None, None, None, None, None, [], [], [])

  /** What one line does to the loop's locals, or the IndexError it raises. */
  function ScanLine(s: Scan, l: Line): Option<Scan> {
    match l.tag
    case SeriesGeoAccession =>
      if |l.fields| < 2 then None
      else Some(s.(accession := Some(StripChar(l.fields[1], '"'))))
    case SeriesSampleId =>
      if |l.fields| < 2 then None
      else Some(s.(sampleIds := Words(StripChar(l.fields[1], '"'))))
    case SampleTitle => Some(s.(title := Some(l.Values())))
    case SampleGeoAccession => Some(s.(geoAccession := Some(l.Values())))
    case SampleSourceName => Some(s.(sourceName := Some(l.Values())))
    case SampleOrganism => Some(s.(organism := Some(l.Values())))
    case SampleMolecule => Some(s.(molecule := Some(l.Values())))
    case SamplePlatformId => Some(s.(platform := Some(l.Values())))
    case SampleCharacteristics =>
      var v := l.Values();
      if s.character1 == [] then Some(s.(character1 := v))
      else if s.character2 == [] then Some(s.(character2 := v))
      else if s.character3 == [] then Some(s.(character3 := v))
      else Some(s)
    case Untagged => Some(s)
  }

  /** The loop's locals after the first `n` lines. */
  function Scanned(ls: seq<Line>, n: nat): Option<Scan>
    requires n <= |ls|
  {
    if n == 0 then Some(Unscanned)
    else
      match Scanned(ls, n - 1)
      case None => None
      case Some(s) => ScanLine(s, ls[n - 1])
  }

  /** A line raises exactly when it is a series line without a second field. */
  lemma ScanLineFails(s: Scan, l: Line)
    ensures ScanLine(s, l).None? <==> l.Malformed()
  {
  }

  /** A line changes the accession (sample identifiers) only when it is an
      accession (sample identifier) line, and then to the value it carries. */
  lemma ScanLineSeries(s: Scan, l: Line)
    requires ScanLine(s, l).Some?
    ensures ScanLine(s, l).value.accession ==
      if l.tag == SeriesGeoAccession then Some(StripChar(l.SecondField(), '"')) else s.accession
    ensures ScanLine(s, l).value.sampleIds ==
      if l.tag == SeriesSampleId then Words(StripChar(l.SecondField(), '"')) else s.sampleIds
  {
  }

  /** A line rebinds a single-valued sample local only when it carries that tag. */
  lemma ScanLineSampleValue(s: Scan, l: Line, t: Tag)
    requires t in SampleTags
    requires ScanLine(s, l).Some?
    ensures ScanLine(s, l).value.SampleValue(t) ==
      if l.tag == t then Some(l.Values()) else s.SampleValue(t)
  {
  }

  /** A characteristic line fills the first empty slot; nothing else touches the slots. */
  lemma ScanLineCharacters(s: Scan, l: Line)
    requires ScanLine(s, l).Some?
    ensures var s' := ScanLine(s, l).value;
      var v := l.Values();
      if l.tag != SampleCharacteristics then
        s'.character1 == s.character1 && s'.character2 == s.character2 && s'.character3 == s.character3
      else if s.character1 == [] then
        s'.character1 == v && s'.character2 == s.character2 && s'.character3 == s.character3
      else if s.character2 == [] then
        s'.character1 == s.character1 && s'.character2 == v && s'.character3 == s.character3
      else if s.character3 == [] then
        s'.character1 == s.character1 && s'.character2 == s.character2 && s'.character3 == v
      else s' == s
  {
  }

  /** Scanning stops with an IndexError exactly when some line read so far is malformed. */
  lemma {:induction false} ScannedFailsIffMalformed(ls: seq<Line>, n: nat)
    requires n <= |ls|
    ensures Scanned(ls, n).None? <==> !WellFormedUpTo(ls, n)
  {
    if n > 0 {
      ScannedFailsIffMalformed(ls, n - 1);
      if Scanned(ls, n - 1).Some? {
        ScanLineFails(Scanned(ls, n - 1).value, ls[n - 1]);
      }
    }
  }

  /** After scanning, the accession and sample-identifier locals hold what the
      last series line of each kind says. */
  lemma {:induction false} ScannedSeriesIsLast(ls: seq<Line>, n: nat)
    requires n <= |ls|
    requires Scanned(ls, n).Some?
    ensures Scanned(ls, n).value.accession == LastAccession(ls, n)
    ensures Scanned(ls, n).value.sampleIds == LastSampleIds(ls, n)
  {
    if n > 0 {
      ScannedSeriesIsLast(ls, n - 1);
      ScanLineSeries(Scanned(ls, n - 1).value, ls[n - 1]);
    }
  }

  /** After scanning, each single-valued sample local holds the values of the
      last line with its tag: a later line overwrites an earlier one. */
  lemma {:induction false} ScannedSampleValueIsLast(ls: seq<Line>, n: nat, t: Tag)
    requires n <= |ls|
    requires t in SampleTags
    requires Scanned(ls, n).Some?
    ensures Scanned(ls, n).value.SampleValue(t) == LastValues(ls, n, t)
  {
    if n > 0 {
      ScannedSampleValueIsLast(ls, n - 1, t);
      ScanLineSampleValue(Scanned(ls, n - 1).value, ls[n - 1], t);
    }
  }

  /** After scanning, the three characteristic slots hold the first three
      non-empty characteristic lines in file order; every later characteristic
      line is ignored. */
  lemma {:induction false} ScannedCharactersAreFirstThree(ls: seq<Line>, n: nat)
    requires n <= |ls|
    requires Scanned(ls, n).Some?
    ensures var s := Scanned(ls, n).value;
      s.character1 == Slot(CharLists(ls, n), 0)
      && s.character2 == Slot(CharLists(ls, n), 1)
      && s.character3 == Slot(CharLists(ls, n), 2)
  {
    if n > 0 {
      ScannedCharactersAreFirstThree(ls, n - 1);
      ScanLineCharacters(Scanned(ls, n - 1).value, ls[n - 1]);
      var cs := CharLists(ls, n - 1);
      assert forall k :: 0 <= k < |cs| ==> cs[k] != [];
    }
  }

  /** `max_length` once the scan is done. */
  function ScanRowCount(s: Scan): nat {
    Max(|s.character1|, Max(|s.character2|, |s.character3|))
  }

  /** The first single-valued sample local, in assignment order, left unbound by the scan. */
  function MissingTag(s: Scan): Option<Tag> {
    if s.title.None? then Some(SampleTitle)
    else if s.geoAccession.None? then Some(SampleGeoAccession)
    else if s.sourceName.None? then Some(SampleSourceName)
    else if s.organism.None? then Some(SampleOrganism)
    else if s.molecule.None? then Some(SampleMolecule)
    else if s.platform.None? then Some(SamplePlatformId)
    else None
  }

  /** The columns the scan's locals give, before padding. */
  function ScanColumns(s: Scan): (cols: seq<seq<Cell>>)
    requires MissingTag(s).None?
    ensures |cols| == Width
  {
    var n := ScanRowCount(s);
    [ seq(n, _ => s.accession),
      Somes(s.sampleIds[..Min(n, |s.sampleIds|)]),
      Somes(s.title.value), Somes(s.geoAccession.value), Somes(s.sourceName.value),
      Somes(s.organism.value), Somes(s.molecule.value), Somes(s.platform.value),
      Somes(s.character1), Somes(s.character2), Somes(s.character3) ]
  }

  /** What the code after the scanning loop makes of its locals. */
  function Assemble(s: Scan): Result<seq<Row>, ParseError> {
    if MissingTag(s).Some? then Failure(UnboundColumn(MissingTag(s).value))
    else BuildFrame(PadAll(ScanColumns(s), ScanRowCount(s)))
  }

  /** The loop's locals as whole-file facts: the last series line of each
      kind (quotes stripped; identifiers split on white space), the values of
      the last line of each sample tag, and the first three non-empty
      characteristic lines. */
  function Summary(ls: seq<Line>): Scan {
    var n := |ls|;
    var cs := CharLists(ls, n);
    Scan(LastAccession(ls, n), LastSampleIds(ls, n),
      LastValues(ls, n, SampleTitle), LastValues(ls, n, SampleGeoAccession),
      LastValues(ls, n, SampleSourceName), LastValues(ls, n, SampleOrganism),
      LastValues(ls, n, SampleMolecule), LastValues(ls, n, SamplePlatformId),
      Slot(cs, 0), Slot(cs, 1), Slot(cs, 2))
  }

  predicate SeriesAgree(ls: seq<Line>, s: Scan) {
    s.accession == LastAccession(ls, |ls|)
    && s.sampleIds == LastSampleIds(ls, |ls|)
  }

  predicate SamplesAgree(ls: seq<Line>, s: Scan) {
    s.title == LastValues(ls, |ls|, SampleTitle)
    && s.geoAccession == LastValues(ls, |ls|, SampleGeoAccession)
    && s.sourceName == LastValues(ls, |ls|, SampleSourceName)
    && s.organism == LastValues(ls, |ls|, SampleOrganism)
    && s.molecule == LastValues(ls, |ls|, SampleMolecule)
    && s.platform == LastValues(ls, |ls|, SamplePlatformId)
  }

  predicate CharactersAgree(ls: seq<Line>, s: Scan) {
    s.character1 == Slot(CharLists(ls, |ls|), 0)
    && s.character2 == Slot(CharLists(ls, |ls|), 1)
    && s.character3 == Slot(CharLists(ls, |ls|), 2)
  }

  /** A completed scan leaves the locals holding the file's `Summary`. */
  lemma ScannedIsSummary(ls: seq<Line>)
    requires Scanned(ls, |ls|).Some?
    ensures Scanned(ls, |ls|).value == Summary(ls)
  {
    var s := Scanned(ls, |ls|).value;
    assert SeriesAgree(ls, s) by {
      ScannedSeriesIsLast(ls, |ls|);
    }
    assert CharactersAgree(ls, s) by {
      ScannedCharactersAreFirstThree(ls, |ls|);
    }
    ScannedSamplesAgree(ls);
  }

  lemma ScannedSamplesAgree(ls: seq<Line>)
    requires Scanned(ls, |ls|).Some?
    ensures SamplesAgree(ls, Scanned(ls, |ls|).value)
  {
    var n := |ls|;
    var s := Scanned(ls, n).value;
    ScannedSampleValueIsLast(ls, n, SampleTitle);
    ScannedSampleValueIsLast(ls, n, SampleGeoAccession);
    ScannedSampleValueIsLast(ls, n, SampleSourceName);
    ScannedSampleValueIsLast(ls, n, SampleOrganism);
    ScannedSampleValueIsLast(ls, n, SampleMolecule);
    ScannedSampleValueIsLast(ls, n, SamplePlatformId);
  }

  /** A well-formed file parses to whatever its completed scan assembles to. */
  lemma ParseSpecIsAssembledScan(ls: seq<Line>)
    requires WellFormedUpTo(ls, |ls|)
    ensures Scanned(ls, |ls|).Some?
    ensures ParseLexed(ls) == Assemble(Scanned(ls, |ls|).value)
  {
    ScannedFailsIffMalformed(ls, |ls|);
    ScannedIsSummary(ls);
  }

  /** Once the loop has raised, it stays raised. */
  lemma {:induction false} ScannedStaysFailed(ls: seq<Line>, m: nat, n: nat)
    requires m <= n <= |ls|
    requires Scanned(ls, m).None?
    ensures Scanned(ls, n).None?
    decreases n - m
  {
    if m < n {
      ScannedStaysFailed(ls, m, n - 1);
    }
  }

  /** One iteration of the scanning loop: the if/elif chain on the line's
      tag, updating the locals `s`, or `None` where `split("\t")[1]` raises. */
  method ScanOneLine(s: Scan, l: Line) returns (next: Option<Scan>)
    ensures next == ScanLine(s, l)
  {
    next := Some(s);
    if l.tag == SeriesGeoAccession || l.tag == SeriesSampleId {
      if |l.fields| < 2 {
        return None;
      }
      if l.tag == SeriesGeoAccession {
        next := Some(s.(accession := Some(StripChar(l.fields[1], '"'))));
      } else {
        next := Some(s.(sampleIds := Words(StripChar(l.fields[1], '"'))));
      }
    } else if l.tag == SampleTitle {
      next := Some(s.(title := Some(l.Values())));
    } else if l.tag == SampleGeoAccession {
      next := Some(s.(geoAccession := Some(l.Values())));
    } else if l.tag == SampleSourceName {
      next := Some(s.(sourceName := Some(l.Values())));
    } else if l.tag == SampleOrganism {
      next := Some(s.(organism := Some(l.Values())));
    } else if l.tag == SampleMolecule {
      next := Some(s.(molecule := Some(l.Values())));
    } else if l.tag == SamplePlatformId {
      next := Some(s.(platform := Some(l.Values())));
    } else if l.tag == SampleCharacteristics {
      var characteristics := l.Values();
      if s.character1 == [] {
        next := Some(s.(character1 := characteristics));
      } else if s.character2 == [] {
        next := Some(s.(character2 := characteristics));
      } else if s.character3 == [] {
        next := Some(s.(character3 := characteristics));
      }
    }
  }

  /** The scanning loop of `parse_series_matrix`, over the file's lexed
      lines: one pass that overwrites a local per tag and fills the first
      empty characteristic slot. It yields the locals as the loop leaves them,
      or `None` when a series line has no second field and the loop raises. */
  method ScanMatrixLines(ls: seq<Line>) returns (scan: Option<Scan>)
    ensures scan == Scanned(ls, |ls|)
  {
    var s := Unscanned;
    var i := 0;
    while i < |ls|
      invariant 0 <= i <= |ls|
      invariant Scanned(ls, i) == Some(s)
    {
      var next := ScanOneLine(s, ls[i]);
      ScannedNext(ls, i, s, next);
      if next.None? {
        return None;
      }
      s := next.value;
      i := i + 1;
    }
    scan := Some(s);
  }

  /** One more line scanned: the loop's locals move on by `ScanLine`, and a
      raise ends the scan. */
  lemma ScannedNext(ls: seq<Line>, i: nat, s: Scan, next: Option<Scan>)
    requires i < |ls| && Scanned(ls, i) == Some(s)
    requires next == ScanLine(s, ls[i])
    ensures Scanned(ls, i + 1) == next
    ensures next.None? ==> Scanned(ls, |ls|).None?
  {
    if next.None? {
      ScannedStaysFailed(ls, i + 1, |ls|);
    }
  }

  /** The code after the scanning loop: `max_length`, the column assignments
      (each raising while its local is unbound), the padding loop and the
      DataFrame. */
  method AssembleFrame(scan: Scan) returns (r: Result<seq<Row>, ParseError>)
    ensures r == Assemble(scan)
  {
    var data: seq<seq<Cell>> := [[], [], [], [], [], [], [], [],
      Somes(scan.character1), Somes(scan.character2), Somes(scan.character3)];
    MaxLenOfCharacteristics(data, scan.character1, scan.character2, scan.character3);
    var maxLength := MaxLen(data);
    data := data[0 := seq(maxLength, _ => scan.accession)];
    data := data[1 := Somes(scan.sampleIds[..Min(maxLength, |scan.sampleIds|)])];
    if scan.title.None? {
      return Failure(UnboundColumn(SampleTitle));
    }
    data := data[2 := Somes(scan.title.value)];
    if scan.geoAccession.None? {
      return Failure(UnboundColumn(SampleGeoAccession));
    }
    data := data[3 := Somes(scan.geoAccession.value)];
    if scan.sourceName.None? {
      return Failure(UnboundColumn(SampleSourceName));
    }
    data := data[4 := Somes(scan.sourceName.value)];
    if scan.organism.None? {
      return Failure(UnboundColumn(SampleOrganism));
    }
    data := data[5 := Somes(scan.organism.value)];
    if scan.molecule.None? {
      return Failure(UnboundColumn(SampleMolecule));
    }
    data := data[6 := Somes(scan.molecule.value)];
    if scan.platform.None? {
      return Failure(UnboundColumn(SamplePlatformId));
    }
    data := data[7 := Somes(scan.platform.value)];

    ghost var raw := data;
    assert raw == ScanColumns(scan);
    for k := 0 to Width
      invariant |data| == Width
      invariant forall c :: 0 <= c < k ==> data[c] == Pad(raw[c], maxLength)
      invariant forall c :: k <= c < Width ==> data[c] == raw[c]
    {
      if |data[k]| < maxLength {
        data := data[k := data[k] + seq(maxLength - |data[k]|, _ => None)];
      }
    }
    assert data == PadAll(raw, maxLength);
    r := BuildFrame(data);
  }

  /** `parse_series_matrix` on the file's lines: the scanning loop, then the
      assembly of the table. Its result is exactly `ParseSpec`. */
  method ParseSeriesMatrix(lines: seq<string>) returns (r: Result<seq<Row>, ParseError>)
    ensures r == ParseSpec(lines)
  {
    var ls := LexAll(lines);
    var scan := ScanMatrixLines(ls);
    ScannedFailsIffMalformed(ls, |ls|);
    if scan.None? {
      return Failure(NoSecondField);
    }
    ParseSpecIsAssembledScan(ls);
    r := AssembleFrame(scan.value);
  }

  // Properties of the assembly, stated over the loop's locals.

  /** Cell `i` of a padded column built from `values`. */
  function At(values: seq<string>, i: nat): Cell {
    if i < |values| then Some(values[i]) else None
  }

  /** Every single-valued sample local is bound and none holds more values
      than `max_length`. */
  predicate SamplesFit(s: Scan) {
    MissingTag(s).None?
    && |s.title.value| <= ScanRowCount(s) && |s.geoAccession.value| <= ScanRowCount(s)
    && |s.sourceName.value| <= ScanRowCount(s) && |s.organism.value| <= ScanRowCount(s)
    && |s.molecule.value| <= ScanRowCount(s) && |s.platform.value| <= ScanRowCount(s)
  }

  /** Assembly succeeds exactly when the sample columns fit; otherwise it
      fails on the first unbound local or, with all bound, on ragged columns. */
  lemma AssembleSucceedsIff(s: Scan)
    ensures Assemble(s).Success? <==> SamplesFit(s)
    ensures MissingTag(s).Some? ==> Assemble(s) == Failure(UnboundColumn(MissingTag(s).value))
    ensures MissingTag(s).None? && !SamplesFit(s) ==> Assemble(s) == Failure(RaggedColumns)
  {
    if MissingTag(s).None? {
      PaddedLengths(s);
    }
  }

  /** The padded columns all have `max_length` entries exactly when the
      sample columns fit. */
  lemma PaddedLengths(s: Scan)
    requires MissingTag(s).None?
    ensures var cols := PadAll(ScanColumns(s), ScanRowCount(s));
      SamplesFit(s) <==> forall c :: 0 <= c < Width ==> |cols[c]| == |cols[0]|
  {
    var n := ScanRowCount(s);
    var raw := ScanColumns(s);
    var cols := PadAll(raw, n);
    assert |raw[0]| == n && |raw[1]| <= n && |raw[8]| <= n && |raw[9]| <= n && |raw[10]| <= n;
    assert |raw[2]| == |s.title.value| && |raw[3]| == |s.geoAccession.value|
      && |raw[4]| == |s.sourceName.value| && |raw[5]| == |s.organism.value|
      && |raw[6]| == |s.molecule.value| && |raw[7]| == |s.platform.value|;
    assert forall c :: 0 <= c < Width ==> |cols[c]| == Max(|raw[c]|, n);
  }

  /** A value list padded to `n` yields its `i`-th value, or `None` past its end. */
  lemma PaddedCell(values: seq<string>, n: nat, i: nat)
    requires i < Max(|values|, n)
    ensures Pad(Somes(values), n)[i] == At(values, i)
  {
  }

  /** Row `i` of a successful assembly reads position `i` of every padded column. */
  lemma FrameCell(s: Scan, i: nat)
    requires Assemble(s).Success? && i < |Assemble(s).value|
    ensures MissingTag(s).None? && i < ScanRowCount(s)
    ensures forall c :: 0 <= c < Width ==>
      Assemble(s).value[i][c] == Pad(ScanColumns(s)[c], ScanRowCount(s))[i]
  {
    AssembleSucceedsIff(s);
  }

  /** A successful assembly has `max_length` rows; every row carries the
      series accession, and the sample identifier at its position (cut at
      `max_length`, padded with `None`). */
  lemma AssembleSeriesCells(s: Scan)
    requires Assemble(s).Success?
    ensures |Assemble(s).value| == ScanRowCount(s)
    ensures forall i :: 0 <= i < |Assemble(s).value| ==>
      Assemble(s).value[i][0] == s.accession && Assemble(s).value[i][1] == At(s.sampleIds, i)
  {
    forall i | 0 <= i < |Assemble(s).value|
      ensures Assemble(s).value[i][0] == s.accession && Assemble(s).value[i][1] == At(s.sampleIds, i)
    {
      FrameCell(s, i);
      var n := ScanRowCount(s);
      PaddedCell(s.sampleIds[..Min(n, |s.sampleIds|)], n, i);
    }
  }

  /** The column a single-valued sample tag fills. */
  function TagColumn(t: Tag): (c: nat)
    requires t in SampleTags
    ensures 2 <= c < FirstCharacterColumn
  {
    match t
    case SampleTitle => 2
    case SampleGeoAccession => GeoAccessionColumn
    case SampleSourceName => 4
    case SampleOrganism => 5
    case SampleMolecule => 6
    case SamplePlatformId => 7
  }

  lemma ScanColumnOfTag(s: Scan, t: Tag)
    requires MissingTag(s).None? && t in SampleTags
    ensures s.SampleValue(t).Some?
    ensures ScanColumns(s)[TagColumn(t)] == Somes(s.SampleValue(t).value)
  {
  }

  /** Row `i` holds the `i`-th value of the last line of each single-valued
      sample tag, quotes kept, or `None` past its end. */
  lemma AssembleSampleCells(s: Scan, t: Tag)
    requires Assemble(s).Success? && t in SampleTags
    ensures s.SampleValue(t).Some?
    ensures forall i :: 0 <= i < |Assemble(s).value| ==>
      Assemble(s).value[i][TagColumn(t)] == At(s.SampleValue(t).value, i)
  {
    assert MissingTag(s).None?;
    ScanColumnOfTag(s, t);
    forall i | 0 <= i < |Assemble(s).value|
      ensures Assemble(s).value[i][TagColumn(t)] == At(s.SampleValue(t).value, i)
    {
      FrameCell(s, i);
      PaddedCell(s.SampleValue(t).value, ScanRowCount(s), i);
    }
  }

  /** Row `i` holds the `i`-th value of each of the three characteristic
      slots, or `None` past its end. */
  lemma AssembleCharacterCells(s: Scan)
    requires Assemble(s).Success?
    ensures forall i :: 0 <= i < |Assemble(s).value| ==>
      var row := Assemble(s).value[i];
      row[8] == At(s.character1, i) && row[9] == At(s.character2, i) && row[10] == At(s.character3, i)
  {
    forall i | 0 <= i < |Assemble(s).value|
      ensures var row := Assemble(s).value[i];
      row[8] == At(s.character1, i) && row[9] == At(s.character2, i) && row[10] == At(s.character3, i)
    {
      FrameCell(s, i);
      var n := ScanRowCount(s);
      PaddedCell(s.character1, n, i);
      PaddedCell(s.character2, n, i);
      PaddedCell(s.character3, n, i);
    }
  }

  // Properties of the parse, stated over whole-file facts.

  /** `max_length` of a file: the longest of its first three non-empty
      characteristic lists. */
  function MaxLength(ls: seq<Line>): nat {
    var cs := CharLists(ls, |ls|);
    Max(|Slot(cs, 0)|, Max(|Slot(cs, 1)|, |Slot(cs, 2)|))
  }

  /** Sample tag `t` occurs, and its last line holds at most `max_length` values. */
  predicate TagFits(ls: seq<Line>, t: Tag) {
    var j := LastIndex(ls, |ls|, t);
    j.Some? && |ls[j.value].Values()| <= MaxLength(ls)
  }

  lemma SamplesFitSummary(ls: seq<Line>)
    ensures SamplesFit(Summary(ls)) <==>
      TagFits(ls, SampleTitle) && TagFits(ls, SampleGeoAccession)
      && TagFits(ls, SampleSourceName) && TagFits(ls, SampleOrganism)
      && TagFits(ls, SampleMolecule) && TagFits(ls, SamplePlatformId)
  {
    assert ScanRowCount(Summary(ls)) == MaxLength(ls);
  }

  /** A file parses exactly when no series line lacks its value, all six
      single-valued sample tags occur, and the last line of each holds at most
      `max_length` values. */
  lemma ParseSucceedsIff(ls: seq<Line>)
    ensures ParseLexed(ls).Success? <==>
      WellFormedUpTo(ls, |ls|) && forall t :: t in SampleTags ==> TagFits(ls, t)
  {
    AssembleSucceedsIff(Summary(ls));
    SamplesFitSummary(ls);
    AllTagsFit(ls);
  }

  lemma AllTagsFit(ls: seq<Line>)
    ensures (forall t :: t in SampleTags ==> TagFits(ls, t)) <==>
      TagFits(ls, SampleTitle) && TagFits(ls, SampleGeoAccession)
      && TagFits(ls, SampleSourceName) && TagFits(ls, SampleOrganism)
      && TagFits(ls, SampleMolecule) && TagFits(ls, SamplePlatformId)
  {
    assert forall t :: t in SampleTags <==>
      (t == SampleTitle || t == SampleGeoAccession || t == SampleSourceName
       || t == SampleOrganism || t == SampleMolecule || t == SamplePlatformId);
  }

  /** A parsed file has `max_length` rows; each row carries the last series
      accession, the sample identifier at its position, and the values of the
      first three non-empty characteristic lines at its position. */
  lemma ParseRows(ls: seq<Line>)
    requires ParseLexed(ls).Success?
    ensures var rows := ParseLexed(ls).value;
      var cs := CharLists(ls, |ls|);
      |rows| == MaxLength(ls)
      && forall i :: 0 <= i < |rows| ==>
        rows[i][0] == LastAccession(ls, |ls|)
        && rows[i][1] == At(LastSampleIds(ls, |ls|), i)
        && rows[i][8] == At(Slot(cs, 0), i) && rows[i][9] == At(Slot(cs, 1), i)
        && rows[i][10] == At(Slot(cs, 2), i)
  {
    AssembleSeriesCells(Summary(ls));
    AssembleCharacterCells(Summary(ls));
  }

  /** The `Sample_geo_accession` cell of row `i` is the `i`-th value of the
      last `!Sample_geo_accession` line, or `None` past its end. */
  lemma ParseGeoAccessions(ls: seq<Line>)
    requires ParseLexed(ls).Success?
    ensures LastIndex(ls, |ls|, SampleGeoAccession).Some?
    ensures var rows := ParseLexed(ls).value;
      var j := LastIndex(ls, |ls|, SampleGeoAccession).value;
      forall i :: 0 <= i < |rows| ==> rows[i][GeoAccessionColumn] == At(ls[j].Values(), i)
  {
    AssembleSampleCells(Summary(ls), SampleGeoAccession);
  }

  /** A scan that left some single-valued sample local unbound does not
      assemble, and fails on an unbound local. */
  lemma MissingSampleValueFails(s: Scan, t: Tag)
    requires t in SampleTags && s.SampleValue(t).None?
    ensures Assemble(s).Failure? && Assemble(s).error.UnboundColumn?
  {
    assert MissingTag(s).Some?;
  }

  /** A file in which some single-valued sample tag never occurs does not
      parse, and the failure is not about column lengths. */
  lemma MissingTagFails(ls: seq<Line>, t: Tag)
    requires t in SampleTags && LastIndex(ls, |ls|, t).None?
    ensures ParseLexed(ls).Failure? && ParseLexed(ls).error != RaggedColumns
  {
    MissingSampleValueFails(Summary(ls), t);
  }

  /** Without a `!Sample_title` line a well-formed file fails on that tag,
      whatever else it holds. */
  lemma MissingTitleFails(ls: seq<Line>)
    requires WellFormedUpTo(ls, |ls|) && LastIndex(ls, |ls|, SampleTitle).None?
    ensures ParseLexed(ls) == Failure(UnboundColumn(SampleTitle))
  {
  }

  /** The whole-file facts about the first `n` lines do not depend on what
      follows them. */
  lemma {:induction false} PrefixFacts(a: seq<Line>, b: seq<Line>, n: nat, t: Tag)
    requires n <= |a|
    ensures LastIndex(a + b, n, t) == LastIndex(a, n, t)
    ensures CharLists(a + b, n) == CharLists(a, n)
    ensures WellFormedUpTo(a + b, n) == WellFormedUpTo(a, n)
  {
    if n > 0 {
      assert (a + b)[n - 1] == a[n - 1];
      PrefixFacts(a, b, n - 1, t);
    }
  }

  /** Appending a line of another tag leaves the last line of tag `t`, and what
      it holds, as it was. */
  lemma AppendOtherTag(ls: seq<Line>, l: Line, t: Tag)
    requires l.tag != t
    ensures LastIndex(ls + [l], |ls| + 1, t) == LastIndex(ls, |ls|, t)
    ensures LastValues(ls + [l], |ls| + 1, t) == LastValues(ls, |ls|, t)
    ensures t == SeriesGeoAccession ==> LastAccession(ls + [l], |ls| + 1) == LastAccession(ls, |ls|)
    ensures t == SeriesSampleId ==> LastSampleIds(ls + [l], |ls| + 1) == LastSampleIds(ls, |ls|)
  {
    PrefixFacts(ls, [l], |ls|, t);
    var j := LastIndex(ls, |ls|, t);
    if j.Some? {
      assert (ls + [l])[j.value] == ls[j.value];
    }
  }

  /** Appending a line that is not a series line keeps a well-formed file
      well-formed, and a malformed one malformed. */
  lemma AppendKeepsWellFormed(ls: seq<Line>, l: Line)
    requires !SeriesTag(l.tag)
    ensures WellFormedUpTo(ls + [l], |ls| + 1) == WellFormedUpTo(ls, |ls|)
  {
    PrefixFacts(ls, [l], |ls|, Untagged);
    assert (ls + [l])[|ls|] == l;
  }

  /** Appending a line leaves the first three characteristic slots as they
      were, unless it is a characteristic line arriving while a slot is free. */
  lemma AppendKeepsSlots(ls: seq<Line>, l: Line)
    requires l.tag != SampleCharacteristics || |CharLists(ls, |ls|)| >= 3
    ensures var cs := CharLists(ls, |ls|);
      var more := CharLists(ls + [l], |ls| + 1);
      Slot(more, 0) == Slot(cs, 0) && Slot(more, 1) == Slot(cs, 1) && Slot(more, 2) == Slot(cs, 2)
  {
    var longer := ls + [l];
    PrefixFacts(ls, [l], |ls|, Untagged);
    assert longer[|ls|] == l;
    var cs := CharLists(ls, |ls|);
    var more := CharLists(longer, |ls| + 1);
    var extra := if l.tag == SampleCharacteristics && l.Values() != [] then [l.Values()] else [];
    assert more == cs + extra;
    if extra != [] {
      assert more[0] == cs[0] && more[1] == cs[1] && more[2] == cs[2];
    }
  }

  /** A line that no handler reads, or a characteristic line once three
      non-empty ones have been seen, changes nothing the parse depends on. */
  lemma AppendIgnoredLine(ls: seq<Line>, l: Line)
    requires l.tag == Untagged
      || (l.tag == SampleCharacteristics && |CharLists(ls, |ls|)| >= 3)
    ensures Summary(ls + [l]) == Summary(ls)
    ensures WellFormedUpTo(ls + [l], |ls| + 1) == WellFormedUpTo(ls, |ls|)
  {
    AppendKeepsWellFormed(ls, l);
    AppendKeepsSlots(ls, l);
    AppendOtherTag(ls, l, SeriesGeoAccession);
    AppendOtherTag(ls, l, SeriesSampleId);
    AppendOtherTag(ls, l, SampleTitle);
    AppendOtherTag(ls, l, SampleGeoAccession);
    AppendOtherTag(ls, l, SampleSourceName);
    AppendOtherTag(ls, l, SampleOrganism);
    AppendOtherTag(ls, l, SampleMolecule);
    AppendOtherTag(ls, l, SamplePlatformId);
  }

  /** Such a line does not change the parse. */
  lemma IgnoredLineKeepsParse(ls: seq<Line>, l: Line)
    requires l.tag == Untagged
      || (l.tag == SampleCharacteristics && |CharLists(ls, |ls|)| >= 3)
    ensures ParseLexed(ls + [l]) == ParseLexed(ls)
  {
    AppendIgnoredLine(ls, l);
  }

  /** Lexing is line by line: a file with one more line lexes to one more `Line`. */
  lemma LexAllAppend(lines: seq<string>, line: string)
    ensures LexAll(lines + [line]) == LexAll(lines) + [Lex(line)]
  {
    var longer := lines + [line];
    assert forall i :: 0 <= i < |lines| ==> longer[i] == lines[i];
  }

  /** A raw line that no tag test matches, or a fourth (or later) non-empty
      characteristic line, leaves the parsed table as it was. */
  lemma IgnoredRawLineKeepsParse(lines: seq<string>, line: string)
    requires Classify(line) == Untagged
      || (Classify(line) == SampleCharacteristics && |CharLists(LexAll(lines), |lines|)| >= 3)
    ensures ParseSpec(lines + [line]) == ParseSpec(lines)
  {
    LexAllAppend(lines, line);
    IgnoredLineKeepsParse(LexAll(lines), Lex(line));
  }
}
