/**
 * Parsing every series-matrix file of a folder (`parse_all_series_matrix`)
 * and stacking their tables.
 *
 * The folder is given as its listing, in the order `os.listdir` returns it:
 * one entry per file name, with that file's lines. Only names ending in
 * `_series_matrix.txt` are parsed; the tables are concatenated in listing
 * order (`pd.concat(..., ignore_index=True)`), which fails when there is no
 * table at all.
 */
module MatrixAggregate {
  import opened Wrappers
  import opened PyStrings
  import opened SeriesMatrix

  const MatrixSuffix := "_series_matrix.txt"

  /** One file of the folder: its name and its lines. */
  datatype DirEntry = DirEntry(name: string, lines: seq<string>)

  /** Why the folder could not be combined: a file's parse raised, or
      `pd.concat` was given an empty list. */
  datatype AggregateError = ParseFailed(error: ParseError) | NothingToConcatenate

  predicate IsMatrixFile(name: string) {
    EndsWith(name, MatrixSuffix)
  }

  /** The entries that the loop parses, in listing order. */
  function MatrixFiles(entries: seq<DirEntry>): seq<DirEntry> {
    if |entries| == 0 then []
    else
      var last := entries[|entries| - 1];
      MatrixFiles(entries[..|entries| - 1]) + (if IsMatrixFile(last.name) then [last] else [])
  }

  /** A parser of one file's lines. */
  type Parser = seq<string> -> Result<seq<Row>, ParseError>

  /** `all_dataframes` after the loop has gone through `entries`, each matrix
      file read with `parse`: the tables of the matrix files in order, or the
      first parse failure. */
  function Collected(entries: seq<DirEntry>, parse: Parser): Result<seq<seq<Row>>, ParseError> {
    if |entries| == 0 then Success([])
    else
      var last := entries[|entries| - 1];
      match Collected(entries[..|entries| - 1], parse)
      case Failure(e) => Failure(e)
      case Success(frames) =>
        if !IsMatrixFile(last.name) then Success(frames)
        else match parse(last.lines)
          case Failure(e) => Failure(e)
          case Success(rows) => Success(frames + [rows])
  }

  /** The rows of the tables, one table after the other. */
  function Flatten(frames: seq<seq<Row>>): seq<Row> {
    if |frames| == 0 then [] else Flatten(frames[..|frames| - 1]) + frames[|frames| - 1]
  }

  /** The combined table of a listing whose files are read with `parse`. */
  function Aggregate(entries: seq<DirEntry>, parse: Parser): Result<seq<Row>, AggregateError> {
    match Collected(entries, parse)
    case Failure(e) => Failure(ParseFailed(e))
    case Success(frames) =>
      if |frames| == 0 then Failure(NothingToConcatenate) else Success(Flatten(frames))
  }

  /** What `parse_all_series_matrix` returns for a folder. */
  function AggregateSpec(entries: seq<DirEntry>): Result<seq<Row>, AggregateError> {
    Aggregate(entries, ParseSpec)
  }

  /** The loop over the listing, then the concatenation. */
  method ParseAllSeriesMatrix(entries: seq<DirEntry>) returns (r: Result<seq<Row>, AggregateError>)
    ensures r == AggregateSpec(entries)
  {
    var frames: seq<seq<Row>> := [];
    var i := 0;
    while i < |entries|
      invariant 0 <= i <= |entries|
      invariant Collected(entries[..i], ParseSpec) == Success(frames)
    {
      CollectedNext(entries, ParseSpec, i, frames);
      if IsMatrixFile(entries[i].name) {
        var df := ParseSeriesMatrix(entries[i].lines);
        if df.Failure? {
          CollectedStaysFailed(entries, ParseSpec, i + 1, |entries|);
          assert entries[..|entries|] == entries;
          return Failure(ParseFailed(df.error));
        }
        frames := frames + [df.value];
      }
      i := i + 1;
    }
    assert entries[..i] == entries;
    if |frames| == 0 {
      return Failure(NothingToConcatenate);
    }
    r := Success(Flatten(frames));
  }

  /** One turn of the loop. */
  lemma CollectedNext(entries: seq<DirEntry>, parse: Parser, i: nat, frames: seq<seq<Row>>)
    requires i < |entries| && Collected(entries[..i], parse) == Success(frames)
    ensures var e := entries[i];
      Collected(entries[..i + 1], parse) ==
        if !IsMatrixFile(e.name) then Success(frames)
        else if parse(e.lines).Failure? then Failure(parse(e.lines).error)
        else Success(frames + [parse(e.lines).value])
  {
    assert entries[..i + 1][..i] == entries[..i];
    CollectedLast(entries[..i + 1], parse);
  }

  /** Once a file has failed, the files after it change nothing. */
  lemma {:induction false} CollectedStaysFailed(entries: seq<DirEntry>, parse: Parser, m: nat, n: nat)
    requires m <= n <= |entries|
    requires Collected(entries[..m], parse).Failure?
    ensures Collected(entries[..n], parse) == Collected(entries[..m], parse)
    decreases n
  {
    if n > m {
      CollectedStaysFailed(entries, parse, m, n - 1);
      assert entries[..n][..n - 1] == entries[..n - 1];
    }
  }

  /** A name is a matrix file exactly when its last characters are the suffix. */
  lemma MatrixFileIffSuffix(name: string)
    ensures IsMatrixFile(name) <==>
      |name| >= |MatrixSuffix| && name[|name| - |MatrixSuffix|..] == MatrixSuffix
  {
    EndsWithIsSuffix(name, MatrixSuffix);
  }

  /** Only the matrix files matter: the other names of the listing are skipped. */
  lemma {:induction false} CollectedOnlyMatrixFiles(entries: seq<DirEntry>, parse: Parser)
    ensures Collected(entries, parse) == Collected(MatrixFiles(entries), parse)
    decreases |entries|
  {
    if |entries| > 0 {
      var init := entries[..|entries| - 1];
      var last := entries[|entries| - 1];
      CollectedOnlyMatrixFiles(init, parse);
      if IsMatrixFile(last.name) {
        var files := MatrixFiles(init) + [last];
        assert MatrixFiles(entries) == files;
        assert files[..|files| - 1] == MatrixFiles(init);
        CollectedLast(files, parse);
        CollectedLast(entries, parse);
      } else {
        assert MatrixFiles(entries) == MatrixFiles(init);
        CollectedLast(entries, parse);
      }
    }
  }

  /** One step of the loop: the last entry is added to what the others gave. */
  lemma CollectedLast(entries: seq<DirEntry>, parse: Parser)
    requires |entries| > 0
    ensures var init := entries[..|entries| - 1];
      var last := entries[|entries| - 1];
      Collected(entries, parse) ==
        if Collected(init, parse).Failure? || !IsMatrixFile(last.name) then Collected(init, parse)
        else if parse(last.lines).Failure? then Failure(parse(last.lines).error)
        else Success(Collected(init, parse).value + [parse(last.lines).value])
  {
  }

  /** Every file of `files` parses. */
  predicate AllParse(files: seq<DirEntry>, parse: Parser) {
    forall k :: 0 <= k < |files| ==> parse(files[k].lines).Success?
  }

  /** The loop collects one table per matrix file, in order, exactly when every
      matrix file parses. */
  lemma {:induction false} CollectedIsEveryTable(entries: seq<DirEntry>, parse: Parser)
    ensures Collected(entries, parse).Success? <==> AllParse(MatrixFiles(entries), parse)
    ensures Collected(entries, parse).Success? ==>
      var files := MatrixFiles(entries);
      var frames := Collected(entries, parse).value;
      |frames| == |files|
      && forall k :: 0 <= k < |files| ==> frames[k] == parse(files[k].lines).value
    decreases |entries|
  {
    if |entries| > 0 {
      var init := entries[..|entries| - 1];
      var last := entries[|entries| - 1];
      CollectedIsEveryTable(init, parse);
      var files := MatrixFiles(entries);
      if IsMatrixFile(last.name) {
        assert files == MatrixFiles(init) + [last];
        if AllParse(files, parse) {
          assert parse(files[|files| - 1].lines).Success?;
          assert AllParse(MatrixFiles(init), parse) by {
            forall k | 0 <= k < |MatrixFiles(init)|
              ensures parse(MatrixFiles(init)[k].lines).Success?
            {
              assert MatrixFiles(init)[k] == files[k];
            }
          }
        }
      } else {
        assert files == MatrixFiles(init);
      }
    }
  }

  /** The first matrix file that fails decides the error. */
  lemma CollectedFailsAtFirstFailure(entries: seq<DirEntry>, parse: Parser, k: nat)
    requires k < |MatrixFiles(entries)|
    requires parse(MatrixFiles(entries)[k].lines).Failure?
    requires AllParse(MatrixFiles(entries)[..k], parse)
    ensures Collected(entries, parse) == Failure(parse(MatrixFiles(entries)[k].lines).error)
  {
    var files := MatrixFiles(entries);
    CollectedOnlyMatrixFiles(entries, parse);
    FirstFailureStops(entries, parse, k);
    CollectedStaysFailed(files, parse, k + 1, |files|);
    assert files[..|files|] == files;
  }

  lemma FirstFailureStops(entries: seq<DirEntry>, parse: Parser, k: nat)
    requires k < |MatrixFiles(entries)|
    requires parse(MatrixFiles(entries)[k].lines).Failure?
    requires AllParse(MatrixFiles(entries)[..k], parse)
    ensures var files := MatrixFiles(entries);
      Collected(files[..k + 1], parse) == Failure(parse(files[k].lines).error)
  {
    var files := MatrixFiles(entries);
    var init := files[..k];
    assert MatrixFiles(init) == init && IsMatrixFile(files[k].name) by {
      MatrixFilesAreMatrixFiles(entries);
      OnlyMatrixFiles(init);
    }
    assert Collected(init, parse).Success? by { CollectedIsEveryTable(init, parse); }
    assert files[..k + 1][..k] == init;
    CollectedLast(files[..k + 1], parse);
  }

  /** Filtering a list of matrix files keeps all of it. */
  lemma {:induction false} OnlyMatrixFiles(files: seq<DirEntry>)
    requires forall k :: 0 <= k < |files| ==> IsMatrixFile(files[k].name)
    ensures MatrixFiles(files) == files
    decreases |files|
  {
    if |files| > 0 {
      OnlyMatrixFiles(files[..|files| - 1]);
    }
  }

  /** Every entry that the filter keeps has the suffix. */
  lemma {:induction false} MatrixFilesAreMatrixFiles(entries: seq<DirEntry>)
    ensures forall k :: 0 <= k < |MatrixFiles(entries)| ==> IsMatrixFile(MatrixFiles(entries)[k].name)
    decreases |entries|
  {
    if |entries| > 0 {
      MatrixFilesAreMatrixFiles(entries[..|entries| - 1]);
    }
  }

  lemma {:induction false} FlattenAppend(a: seq<seq<Row>>, b: seq<seq<Row>>)
    ensures Flatten(a + b) == Flatten(a) + Flatten(b)
    decreases |b|
  {
    if |b| == 0 {
      assert a + b == a;
    } else {
      var b' := b[..|b| - 1];
      assert (a + b)[..|a + b| - 1] == a + b';
      FlattenAppend(a, b');
    }
  }

  /** Filtering a listing made of two parts filters each part. */
  lemma {:induction false} MatrixFilesAppend(a: seq<DirEntry>, b: seq<DirEntry>)
    ensures MatrixFiles(a + b) == MatrixFiles(a) + MatrixFiles(b)
    decreases |b|
  {
    if |b| == 0 {
      assert a + b == a;
    } else {
      assert (a + b)[..|a + b| - 1] == a + b[..|b| - 1];
      MatrixFilesAppend(a, b[..|b| - 1]);
    }
  }

  lemma {:induction false} CollectedAppend(a: seq<DirEntry>, b: seq<DirEntry>, parse: Parser)
    requires Collected(a, parse).Success? && Collected(b, parse).Success?
    ensures Collected(a + b, parse) == Success(Collected(a, parse).value + Collected(b, parse).value)
    decreases |b|
  {
    if |b| == 0 {
      assert a + b == a;
      assert Collected(a, parse).value + Collected(b, parse).value == Collected(a, parse).value;
    } else {
      var b' := b[..|b| - 1];
      assert (a + b)[..|a + b| - 1] == a + b';
      var last := b[|b| - 1];
      assert (a + b)[|a + b| - 1] == last;
      CollectedLast(b, parse);
      CollectedAppend(a, b', parse);
      CollectedLast(a + b, parse);
      var fa, fb' := Collected(a, parse).value, Collected(b', parse).value;
      if IsMatrixFile(last.name) {
        var rows := parse(last.lines).value;
        assert Collected(a + b, parse) == Success((fa + fb') + [rows]);
        assert (fa + fb') + [rows] == fa + (fb' + [rows]);
      }
    }
  }

  /** Combining a listing made of two parts stacks the rows of the first part
      on the rows of the second. */
  lemma AggregateAppend(a: seq<DirEntry>, b: seq<DirEntry>, parse: Parser)
    requires Aggregate(a, parse).Success? && Aggregate(b, parse).Success?
    ensures Aggregate(a + b, parse) == Success(Aggregate(a, parse).value + Aggregate(b, parse).value)
  {
    CollectedAppend(a, b, parse);
    FlattenAppend(Collected(a, parse).value, Collected(b, parse).value);
  }

  /** The combined table is every matrix file's table, in listing order, and
      exists exactly when there is at least one matrix file and all of them
      parse. */
  lemma AggregateIsEveryTable(entries: seq<DirEntry>, parse: Parser)
    ensures Aggregate(entries, parse).Success? <==>
      |MatrixFiles(entries)| > 0 && AllParse(MatrixFiles(entries), parse)
    ensures Aggregate(entries, parse).Success? ==>
      Aggregate(entries, parse).value == Flatten(Parsed(MatrixFiles(entries), parse))
  {
    CollectedIsEveryTable(entries, parse);
    if Collected(entries, parse).Success? {
      var files := MatrixFiles(entries);
      assert Collected(entries, parse).value == Parsed(files, parse);
    }
  }

  /** The tables of files that all parse. */
  function Parsed(files: seq<DirEntry>, parse: Parser): (frames: seq<seq<Row>>)
    requires AllParse(files, parse)
    ensures |frames| == |files|
  {
    seq(|files|, k requires 0 <= k < |files| => parse(files[k].lines).value)
  }

  /** A listing with no matrix file cannot be combined. */
  lemma NoMatrixFileFails(entries: seq<DirEntry>, parse: Parser)
    requires forall k :: 0 <= k < |entries| ==> !IsMatrixFile(entries[k].name)
    ensures Aggregate(entries, parse) == Failure(NothingToConcatenate)
  {
    NoMatrixFiles(entries);
    CollectedOnlyMatrixFiles(entries, parse);
  }

  lemma {:induction false} NoMatrixFiles(entries: seq<DirEntry>)
    requires forall k :: 0 <= k < |entries| ==> !IsMatrixFile(entries[k].name)
    ensures MatrixFiles(entries) == []
    decreases |entries|
  {
    if |entries| > 0 {
      NoMatrixFiles(entries[..|entries| - 1]);
    }
  }
}
