/**
 * Adding the sequencing runs (SRR accessions) of every sample to the combined
 * table and saving it in batches (`add_srr_and_save`).
 *
 * The lookups run in a thread pool; what the loop sees of them is the order
 * in which they complete and what each returned. The order is an input, the
 * run archive behind `fetch_srr` is another, and `Completed` turns the two
 * into `done`: one `Entry` per completed lookup, in completion order. Each completion
 * stores its runs in `srr_dict`, an insertion-ordered dictionary; at every
 * checkpoint (a multiple of the save interval, or the last task) the first
 * `save_interval` entries of the dictionary are expanded into one row per run,
 * removed from it and appended to the CSV file.
 */
module SrrBatch {
  import opened Wrappers
  import opened PyStrings
  import opened SeriesMatrix

  /** A sample accession as it sits in the table (`None` where the table
      was padded). */
  type Key = Cell

  /** `fetch_srr`: the runs that `archive` lists for the accession with its
      quotes stripped. A key that is not a string makes the lookup raise, and
      a lookup that raises or finds nothing gives no runs. */
  function FetchSrr(gsm: Key, archive: map<string, seq<string>>): seq<string> {
    match gsm
    case None => []
    case Some(id) =>
      if StripChar(id, '"') in archive then archive[StripChar(id, '"')] else []
  }

  /** One dictionary item, or one completed lookup: a sample and its runs. */
  datatype Entry = Entry(key: Key, runs: seq<string>)

  // The insertion-ordered dictionary `srr_dict`, as its items in order.

  function KeysOf(d: seq<Entry>): (keys: seq<Key>)
    ensures |keys| == |d|
  {
    seq(|d|, i requires 0 <= i < |d| => d[i].key)
  }

  predicate DistinctKeys(d: seq<Entry>) {
    forall i, j :: 0 <= i < j < |d| ==> KeysOf(d)[i] != KeysOf(d)[j]
  }

  /** Where `k` sits among the items. */
  function IndexOf(d: seq<Entry>, k: Key): (r: Option<nat>)
    ensures r.Some? ==> r.value < |d| && d[r.value].key == k
    ensures r.None? ==> forall i :: 0 <= i < |d| ==> d[i].key != k
  {
    if |d| == 0 then None
    else if d[0].key == k then Some(0)
    else match IndexOf(d[1..], k)
      case None => None
      case Some(i) => Some(i + 1)
  }

  /** `d.get(k)`. */
  function Lookup(d: seq<Entry>, k: Key): Option<seq<string>> {
    match IndexOf(d, k)
    case None => None
    case Some(i) => Some(d[i].runs)
  }

  /** `d[k] = v`: a present key keeps its place, a new one goes last. */
  function Put(d: seq<Entry>, k: Key, v: seq<string>): seq<Entry> {
    match IndexOf(d, k)
    case Some(i) => d[i := Entry(k, v)]
    case None => d + [Entry(k, v)]
  }

  /** `del d[k]`, which raises for a missing key. */
  function Delete(d: seq<Entry>, k: Key): seq<Entry>
    requires IndexOf(d, k).Some?
  {
    var i := IndexOf(d, k).value;
    d[..i] + d[i + 1..]
  }

  /** `{gsm: [] for gsm in ids}`. */
  function FromKeys(ids: seq<Key>): seq<Entry> {
    if |ids| == 0 then [] else Put(FromKeys(ids[..|ids| - 1]), ids[|ids| - 1], [])
  }

  /** A put records the value under the key, leaves every other key alone,
      and keeps the order of the keys, adding a new key at the end. */
  lemma PutRecords(d: seq<Entry>, k: Key, v: seq<string>)
    requires DistinctKeys(d)
    ensures DistinctKeys(Put(d, k, v))
    ensures Lookup(Put(d, k, v), k) == Some(v)
    ensures forall k' :: k' != k ==> Lookup(Put(d, k, v), k') == Lookup(d, k')
    ensures KeysOf(Put(d, k, v)) == if k in KeysOf(d) then KeysOf(d) else KeysOf(d) + [k]
  {
    var p := Put(d, k, v);
    if IndexOf(d, k).Some? {
      assert KeysOf(d)[IndexOf(d, k).value] == k;
    }
    if k in KeysOf(d) {
      var i :| 0 <= i < |d| && KeysOf(d)[i] == k;
      IndexOfDistinct(d, k);
      assert p == d[i := Entry(k, v)];
      assert KeysOf(p) == KeysOf(d);
    } else {
      assert p == d + [Entry(k, v)];
      assert KeysOf(p) == KeysOf(d) + [k];
      forall i, j | 0 <= i < j < |p| ensures KeysOf(p)[i] != KeysOf(p)[j] {
        if j == |d| {
          assert KeysOf(p)[i] == KeysOf(d)[i];
        }
      }
    }
    assert DistinctKeys(p);
    forall k' ensures Lookup(p, k') == if k' == k then Some(v) else Lookup(d, k') {
      IndexOfDistinct(p, k');
      IndexOfDistinct(d, k');
      if k' == k {
        var at := if IndexOf(d, k).Some? then IndexOf(d, k).value else |d|;
        assert p[at] == Entry(k, v);
      } else if IndexOf(d, k').Some? {
        var at := IndexOf(d, k').value;
        assert p[at] == d[at];
      } else {
        assert forall i :: 0 <= i < |p| ==> p[i].key != k';
      }
    }
  }

  /** In a dictionary, the index of a key is its only position. */
  lemma IndexOfDistinct(d: seq<Entry>, k: Key)
    requires DistinctKeys(d)
    ensures forall i :: 0 <= i < |d| && d[i].key == k ==> IndexOf(d, k) == Some(i)
  {
    forall i | 0 <= i < |d| && d[i].key == k ensures IndexOf(d, k) == Some(i) {
      var r := IndexOf(d, k);
      assert r.Some?;
      assert KeysOf(d)[i] == k == KeysOf(d)[r.value];
    }
  }

  /** Deleting the first key drops the first item. */
  lemma DeleteFirst(d: seq<Entry>)
    requires |d| > 0 && DistinctKeys(d)
    ensures IndexOf(d, d[0].key) == Some(0)
    ensures Delete(d, d[0].key) == d[1..]
  {
  }

  /** The comprehension makes a dictionary with one empty list per distinct
      sample id. */
  lemma {:induction false} FromKeysIsDict(ids: seq<Key>)
    ensures DistinctKeys(FromKeys(ids))
    ensures forall k :: k in ids <==> k in KeysOf(FromKeys(ids))
    ensures forall i :: 0 <= i < |FromKeys(ids)| ==> FromKeys(ids)[i].runs == []
    decreases |ids|
  {
    if |ids| > 0 {
      var init := ids[..|ids| - 1];
      var k := ids[|ids| - 1];
      FromKeysIsDict(init);
      var d := FromKeys(init);
      PutRecords(d, k, []);
      assert ids == init + [k];
      forall i | 0 <= i < |Put(d, k, [])| ensures Put(d, k, [])[i].runs == [] {
        if IndexOf(d, k).None? && i == |d| {
        } else {
          assert i < |d|;
        }
      }
    }
  }

  // The table's rows and their expansion into one row per run.

  /** A row of the saved CSV: the sample's row and its `SRR` column. */
  datatype RunRow = RunRow(sample: Row, srr: string)

  /** `df[df['Sample_geo_accession'] == gsm]`: the rows for that sample; a
      missing key matches no row. */
  function Matching(df: seq<Row>, gsm: Key): seq<Row> {
    if |df| == 0 then []
    else
      var row := df[|df| - 1];
      Matching(df[..|df| - 1], gsm)
      + (if gsm.Some? && row[GeoAccessionColumn] == gsm then [row] else [])
  }

  /** Assigning `k` runs as a column to a non-empty frame of `rows * k` rows
      raises unless the two lengths agree. */
  datatype BatchError = LengthMismatch(key: Key, rows: nat, runs: nat)

  /** The sample part of a row made for runs of a sample with no table row:
      assigning a column to an empty frame gives it one row per value, with
      every other cell empty (NaN). */
  const NoSample: Row := seq(Width, _ => None)

  /** One item's rows: its table rows repeated once per run, with the runs as
      the new column. */
  function Expand(df: seq<Row>, e: Entry): Result<seq<RunRow>, BatchError> {
    var m := Matching(df, e.key);
    var k := |e.runs|;
    if k > 0 && |m| > 1 then Failure(LengthMismatch(e.key, |m| * k, k))
    else
      var sample := if |m| == 1 then m[0] else NoSample;
      Success(seq(k, j requires 0 <= j < k => RunRow(sample, e.runs[j])))
  }

  /** The frame built from several items, in order, or the first error. */
  function ExpandAll(df: seq<Row>, es: seq<Entry>): Result<seq<RunRow>, BatchError> {
    if |es| == 0 then Success([])
    else match ExpandAll(df, es[..|es| - 1])
      case Failure(e) => Failure(e)
      case Success(rows) =>
        match Expand(df, es[|es| - 1])
        case Failure(e) => Failure(e)
        case Success(more) => Success(rows + more)
  }

  /** The rows of a sample are exactly the table's rows with its accession. */
  lemma {:induction false} MatchingRows(df: seq<Row>, gsm: Key)
    ensures forall r :: r in Matching(df, gsm) ==> r in df && gsm.Some? && r[GeoAccessionColumn] == gsm
    ensures forall i :: (0 <= i < |df| && gsm.Some? && df[i][GeoAccessionColumn] == gsm)
                     ==> df[i] in Matching(df, gsm)
    decreases |df|
  {
    if |df| > 0 {
      var init := df[..|df| - 1];
      MatchingRows(init, gsm);
      forall i | 0 <= i < |df| - 1 ensures df[i] == init[i] { }
    }
  }

  /** An item with `k` runs makes `k` rows carrying the runs in order: the
      sample's single row once per run, or empty cells when the sample has no
      row; no runs make no rows; a sample with runs and more than one table
      row is an error. */
  lemma ExpandCopies(df: seq<Row>, e: Entry)
    ensures Expand(df, e).Failure? <==> |e.runs| > 0 && |Matching(df, e.key)| > 1
    ensures Expand(df, e).Failure? ==>
      Expand(df, e).error == LengthMismatch(e.key, |Matching(df, e.key)| * |e.runs|, |e.runs|)
    ensures Expand(df, e).Success? ==>
      |Expand(df, e).value| == |e.runs|
      && forall j :: 0 <= j < |e.runs| ==> Expand(df, e).value[j].srr == e.runs[j]
    ensures Expand(df, e).Success? && |Matching(df, e.key)| == 1 ==>
      forall j :: 0 <= j < |e.runs| ==>
        Expand(df, e).value[j].sample == Matching(df, e.key)[0]
        && Expand(df, e).value[j].sample[GeoAccessionColumn] == e.key
    ensures Expand(df, e).Success? && |Matching(df, e.key)| == 0 ==>
      forall j :: 0 <= j < |e.runs| ==> Expand(df, e).value[j].sample == NoSample
  {
    if |Matching(df, e.key)| == 1 {
      MatchingRows(df, e.key);
      assert Matching(df, e.key)[0] in Matching(df, e.key);
    }
  }

  lemma ExpandAllLast(df: seq<Row>, es: seq<Entry>, j: nat)
    requires j < |es|
    ensures ExpandAll(df, es[..j + 1]) ==
      match ExpandAll(df, es[..j])
      case Failure(e) => Failure(e)
      case Success(rows) =>
        match Expand(df, es[j])
        case Failure(e) => Failure(e)
        case Success(more) => Success(rows + more)
  {
    assert es[..j + 1][..j] == es[..j];
  }

  lemma ExpandAllOne(df: seq<Row>, e: Entry)
    ensures ExpandAll(df, [e]) == Expand(df, e)
  {
    assert [e][..0] == [];
    if Expand(df, e).Success? {
      assert [] + Expand(df, e).value == Expand(df, e).value;
    }
  }

  /** Expanding two runs of items one after the other. */
  lemma {:induction false} ExpandAllAppend(df: seq<Row>, a: seq<Entry>, b: seq<Entry>)
    ensures ExpandAll(df, a).Failure? ==> ExpandAll(df, a + b) == ExpandAll(df, a)
    ensures ExpandAll(df, a).Success? && ExpandAll(df, b).Failure? ==> ExpandAll(df, a + b) == ExpandAll(df, b)
    ensures ExpandAll(df, a).Success? && ExpandAll(df, b).Success? ==>
      ExpandAll(df, a + b) == Success(ExpandAll(df, a).value + ExpandAll(df, b).value)
    decreases |b|
  {
    if |b| == 0 {
      assert a + b == a;
      if ExpandAll(df, a).Success? {
        assert ExpandAll(df, a).value + [] == ExpandAll(df, a).value;
      }
    } else {
      var b' := b[..|b| - 1];
      assert (a + b)[..|a + b| - 1] == a + b';
      assert (a + b)[|a + b| - 1] == b[|b| - 1];
      ExpandAllAppend(df, a, b');
      if ExpandAll(df, a).Success? && ExpandAll(df, b').Success? && Expand(df, b[|b| - 1]).Success? {
        var x, y, z := ExpandAll(df, a).value, ExpandAll(df, b').value, Expand(df, b[|b| - 1]).value;
        AppendAssociates(x, y, z);
      }
    }
  }

  // The CSV file.

  /** A line of the CSV file: the header, or the data of one row. */
  datatype CsvLine = Header | Data(row: RunRow)

  /** The file as a value: its lines, and whether it exists. */
  datatype Store = Store(lines: seq<CsvLine>, present: bool)

  function DataLines(frame: seq<RunRow>): (ls: seq<CsvLine>)
    ensures |ls| == |frame|
  {
    seq(|frame|, i requires 0 <= i < |frame| => Data(frame[i]))
  }

  /** `frame.to_csv(path, mode='a', header=not os.path.exists(path))`. */
  function Saved(s: Store, frame: seq<RunRow>): Store {
    Store(s.lines + (if s.present then [] else [Header]) + DataLines(frame), true)
  }

  /** The data rows of the file, in order. */
  function DataRows(lines: seq<CsvLine>): seq<RunRow> {
    if |lines| == 0 then []
    else
      var last := match lines[|lines| - 1] case Header => [] case Data(r) => [r];
      DataRows(lines[..|lines| - 1]) + last
  }

  /** A file that exists starts with its one header and holds data after it;
      a file that does not exist is empty. */
  predicate CsvShape(s: Store) {
    if s.present then |s.lines| > 0 && s.lines[0] == Header
      && forall i :: 0 < i < |s.lines| ==> s.lines[i].Data?
    else s.lines == []
  }

  /** Saving appends: the old lines stay in front, the header comes only when
      the file did not exist, and the data rows grow by the frame. */
  lemma SavedAppends(s: Store, frame: seq<RunRow>)
    ensures Saved(s, frame).present
    ensures Saved(s, frame).lines[..|s.lines|] == s.lines
    ensures |Saved(s, frame).lines| == |s.lines| + |frame| + (if s.present then 0 else 1)
    ensures DataRows(Saved(s, frame).lines) == DataRows(s.lines) + frame
  {
    DataRowsAppend(s.lines + (if s.present then [] else [Header]), frame);
    if !s.present {
      DataRowsHeader(s.lines);
    } else {
      assert s.lines + [] == s.lines;
    }
  }

  /** A file of the right shape keeps it when a frame is saved. */
  lemma SavedKeepsShape(s: Store, frame: seq<RunRow>)
    requires CsvShape(s)
    ensures CsvShape(Saved(s, frame))
  {
  }

  lemma DataRowsHeader(lines: seq<CsvLine>)
    ensures DataRows(lines + [Header]) == DataRows(lines)
  {
    assert (lines + [Header])[..|lines|] == lines;
  }

  lemma {:induction false} DataRowsAppend(lines: seq<CsvLine>, frame: seq<RunRow>)
    ensures DataRows(lines + DataLines(frame)) == DataRows(lines) + frame
    decreases |frame|
  {
    if |frame| == 0 {
      assert lines + DataLines(frame) == lines;
    } else {
      var init := frame[..|frame| - 1];
      DataRowsAppend(lines, init);
      var all := lines + DataLines(frame);
      assert all[..|all| - 1] == lines + DataLines(init);
      assert all[|all| - 1] == Data(frame[|frame| - 1]);
      assert frame == init + [frame[|frame| - 1]];
    }
  }

  /** The CSV file on disk. */
  class CsvFile {
    var lines: seq<CsvLine>
    var present: bool

    constructor Absent()
      ensures lines == [] && !present
    {
      lines := [];
      present := false;
    }

    function Contents(): Store
      reads this
    {
      Store(lines, present)
    }

    /** Appends a frame, with the header first when the file was absent. */
    method AppendFrame(frame: seq<RunRow>)
      modifies this
      ensures Contents() == Saved(old(Contents()), frame)
    {
      if !present {
        lines := lines + [Header];
      }
      lines := lines + DataLines(frame);
      present := true;
    }
  }

  // The batching loop, as written.

  /** The loop's state: the dictionary, the file, and the error that ended
      the loop, if any. */
  datatype Batch = Batch(pending: seq<Entry>, store: Store, failed: Option<BatchError>)

  /** `(i + 1) % save_interval == 0 or (i + 1) == total_tasks`. */
  predicate Checkpoint(c: nat, interval: nat, total: nat)
    requires interval > 0
  {
    c % interval == 0 || c == total
  }

  /** A checkpoint: the first `interval` items of the dictionary are expanded,
      removed and appended to the file. */
  function Flush(b: Batch, df: seq<Row>, interval: nat): Batch
    requires interval > 0
  {
    var taken := b.pending[..Min(interval, |b.pending|)];
    match ExpandAll(df, taken)
    case Failure(e) => b.(failed := Some(e))
    case Success(frame) => Batch(b.pending[|taken|..], Saved(b.store, frame), None)
  }

  /** The `c`-th completion: its runs are recorded, then a flush at a
      checkpoint. Nothing happens once the loop has failed. */
  function Complete(b: Batch, df: seq<Row>, interval: nat, c: nat, e: Entry): Batch
    requires interval > 0
  {
    if b.failed.Some? then b
    else
      var recorded := b.(pending := Put(b.pending, e.key, e.runs));
      if Checkpoint(c, interval, |df|) then Flush(recorded, df, interval) else recorded
  }

  /** The sample ids, `df['Sample_geo_accession'].tolist()`. */
  function GsmIds(df: seq<Row>): (ids: seq<Key>)
    ensures |ids| == |df|
  {
    seq(|df|, i requires 0 <= i < |df| => df[i][GeoAccessionColumn])
  }

  /** The state after the completions `done`, starting from the file `store0`. */
  function RunBatch(df: seq<Row>, interval: nat, done: seq<Entry>, store0: Store): Batch
    requires interval > 0
  {
    if |done| == 0 then Batch(FromKeys(GsmIds(df)), store0, None)
    else Complete(RunBatch(df, interval, done[..|done| - 1], store0), df, interval, |done|, done[|done| - 1])
  }

  /** The completed lookups when the lookups of `order` complete in that
      order against `archive`: each sample with what `fetch_srr` returns for
      it. */
  function Completed(order: seq<Key>, archive: map<string, seq<string>>): (done: seq<Entry>)
    ensures KeysOf(done) == order
    ensures forall e :: e in done ==> e.runs == FetchSrr(e.key, archive)
  {
    seq(|order|, i requires 0 <= i < |order| => Entry(order[i], FetchSrr(order[i], archive)))
  }

  /** What the thread pool can deliver: one completion per submitted lookup,
      that is per entry of `gsm_ids` with repeats, in some order, each
      carrying what `fetch_srr` returns for its sample. */
  predicate Completions(df: seq<Row>, archive: map<string, seq<string>>, done: seq<Entry>) {
    multiset(KeysOf(done)) == multiset(GsmIds(df))
    && forall e :: e in done ==> e.runs == FetchSrr(e.key, archive)
  }

  /** Every completion order of the lookups gives completions the pool can
      deliver. */
  lemma CompletedAreCompletions(df: seq<Row>, archive: map<string, seq<string>>, order: seq<Key>)
    requires multiset(order) == multiset(GsmIds(df))
    ensures Completions(df, archive, Completed(order, archive))
  {
  }

  /** `add_srr_and_save(df, save_path, save_interval)`, when the lookups
      complete in the order `order` against the run archive `archive`. The
      file ends as `RunBatch` says for those completions, and the error is
      the one that ended the loop. */
  method AddSrrAndSave(df: seq<Row>, file: CsvFile, interval: nat,
                       archive: map<string, seq<string>>, order: seq<Key>)
    returns (failed: Option<BatchError>)
    requires interval > 0 && multiset(order) == multiset(GsmIds(df))
    modifies file
    ensures file.Contents() == RunBatch(df, interval, Completed(order, archive), old(file.Contents())).store
    ensures failed == RunBatch(df, interval, Completed(order, archive), old(file.Contents())).failed
  {
    ghost var store0 := file.Contents();
    ghost var done := Completed(order, archive);
    var gsmIds := GsmIds(df);
    var pending := FromKeys(gsmIds);
    FromKeysIsDict(gsmIds);
    var total := |gsmIds|;
    var i := 0;
    while i < |order|
      invariant 0 <= i <= |order| == |done|
      invariant RunBatch(df, interval, done[..i], store0) == Batch(pending, file.Contents(), None)
      invariant DistinctKeys(pending)
    {
      var gsm := order[i];
      var srrs := FetchSrr(gsm, archive);
      assert done[i] == Entry(gsm, srrs);
      var next, err := RecordCompletion(df, file, interval, total, i + 1, pending, Entry(gsm, srrs));
      RunBatchNext(df, interval, done, i, store0);
      if err.Some? {
        RunStaysFailed(df, interval, done, store0, i + 1, |done|);
        assert done[..|done|] == done;
        return err;
      }
      pending := next;
      i := i + 1;
    }
    assert done[..i] == done;
    failed := None;
  }

  /** One turn of the loop: `srr_dict[gsm] = srrs` for the `c`-th completed
      lookup `e`, then a checkpoint when `c` is one. */
  method RecordCompletion(df: seq<Row>, file: CsvFile, interval: nat, total: nat, c: nat,
                          pending: seq<Entry>, e: Entry)
    returns (next: seq<Entry>, failed: Option<BatchError>)
    requires interval > 0 && total == |df| && DistinctKeys(pending)
    modifies file
    ensures var b := Complete(Batch(pending, old(file.Contents()), None), df, interval, c, e);
      file.Contents() == b.store && failed == b.failed && (failed.None? ==> next == b.pending)
    ensures DistinctKeys(next)
  {
    var gsm, srrs := e.key, e.runs;
    PutRecords(pending, gsm, srrs);
    next := Put(pending, gsm, srrs);
    failed := None;
    if c % interval == 0 || c == total {
      next, failed := SaveCheckpoint(df, file, interval, next);
    }
  }

  /** The body of a checkpoint: `srr_expanded_df` starts empty, gathers the
      rows of the first `interval` items while deleting them, and is appended
      to the file; it is empty again afterwards. */
  method SaveCheckpoint(df: seq<Row>, file: CsvFile, interval: nat, pending: seq<Entry>)
    returns (rest: seq<Entry>, failed: Option<BatchError>)
    requires interval > 0 && DistinctKeys(pending)
    modifies file
    ensures var b := Flush(Batch(pending, old(file.Contents()), None), df, interval);
      file.Contents() == b.store && failed == b.failed && (failed.None? ==> rest == b.pending)
    ensures DistinctKeys(rest)
  {
    var frame: seq<RunRow> := [];
    var taken := pending[..Min(interval, |pending|)];
    rest := pending;
    assert pending[0..] == pending;
    var j := 0;
    while j < |taken|
      invariant 0 <= j <= |taken|
      invariant rest == pending[j..] && DistinctKeys(rest)
      invariant ExpandAll(df, taken[..j]) == Success(frame)
      invariant unchanged(file)
    {
      var temp := Expand(df, taken[j]);
      ExpandAllLast(df, taken, j);
      if temp.Failure? {
        FlushFails(df, taken, j, temp.error);
        return rest, Some(temp.error);
      }
      frame := frame + temp.value;
      DeleteTaken(pending, j);
      rest := Delete(rest, taken[j].key);
      DistinctSuffix(pending, j + 1);
      j := j + 1;
    }
    assert taken[..j] == taken;
    file.AppendFrame(frame);
    frame := [];
    failed := None;
  }

  /** One turn of the loop, in terms of the specification. */
  lemma RunBatchNext(df: seq<Row>, interval: nat, done: seq<Entry>, i: nat, store0: Store)
    requires interval > 0 && i < |done|
    ensures RunBatch(df, interval, done[..i + 1], store0)
      == Complete(RunBatch(df, interval, done[..i], store0), df, interval, i + 1, done[i])
  {
    assert done[..i + 1][..i] == done[..i];
  }

  /** An error while expanding makes the whole flush fail with it. */
  lemma FlushFails(df: seq<Row>, taken: seq<Entry>, j: nat, e: BatchError)
    requires j < |taken|
    requires ExpandAll(df, taken[..j]).Success? && Expand(df, taken[j]) == Failure(e)
    ensures ExpandAll(df, taken) == Failure(e)
  {
    ExpandAllLast(df, taken, j);
    ExpandAllAppend(df, taken[..j + 1], taken[j + 1..]);
    assert taken[..j + 1] + taken[j + 1..] == taken;
  }

  lemma DistinctSuffix(d: seq<Entry>, j: nat)
    requires j <= |d| && DistinctKeys(d)
    ensures DistinctKeys(d[j..])
  {
    assert forall i :: 0 <= i < |d| - j ==> KeysOf(d[j..])[i] == KeysOf(d)[i + j];
  }

  /** Deleting the `j`-th item taken, after the first `j` are gone. */
  lemma DeleteTaken(recorded: seq<Entry>, j: nat)
    requires j < |recorded| && DistinctKeys(recorded)
    ensures IndexOf(recorded[j..], recorded[j].key).Some?
    ensures Delete(recorded[j..], recorded[j].key) == recorded[j + 1..]
  {
    DistinctSuffix(recorded, j);
    DeleteFirst(recorded[j..]);
    assert recorded[j..][1..] == recorded[j + 1..];
  }

  /** Once the loop has failed, later completions change nothing. */
  lemma {:induction false} RunStaysFailed(df: seq<Row>, interval: nat, done: seq<Entry>, store0: Store, m: nat, n: nat)
    requires interval > 0 && m <= n <= |done|
    requires RunBatch(df, interval, done[..m], store0).failed.Some?
    ensures RunBatch(df, interval, done[..n], store0) == RunBatch(df, interval, done[..m], store0)
    decreases n
  {
    if n > m {
      RunStaysFailed(df, interval, done, store0, m, n - 1);
      RunBatchNext(df, interval, done, n - 1, store0);
    }
  }

  // Properties of the loop as written.

  /** The file only grows: what an earlier completion left in it stays, in
      front. */
  lemma {:induction false} RunAppendOnly(df: seq<Row>, interval: nat, done: seq<Entry>, store0: Store, m: nat, n: nat)
    requires interval > 0 && m <= n <= |done|
    ensures var before := RunBatch(df, interval, done[..m], store0).store.lines;
      var after := RunBatch(df, interval, done[..n], store0).store.lines;
      |before| <= |after| && after[..|before|] == before
    decreases n
  {
    if n > m {
      RunAppendOnly(df, interval, done, store0, m, n - 1);
      RunBatchNext(df, interval, done, n - 1, store0);
      var b := RunBatch(df, interval, done[..n - 1], store0);
      if b.failed.None? {
        var recorded := b.(pending := Put(b.pending, done[n - 1].key, done[n - 1].runs));
        var taken := recorded.pending[..Min(interval, |recorded.pending|)];
        if Checkpoint(n, interval, |df|) && ExpandAll(df, taken).Success? {
          SavedAppends(b.store, ExpandAll(df, taken).value);
        }
      }
    }
  }

  /** Starting from an absent or well-shaped file, the header is written
      once, at the top, whatever the completions. */
  lemma {:induction false} RunKeepsShape(df: seq<Row>, interval: nat, done: seq<Entry>, store0: Store)
    requires interval > 0 && CsvShape(store0)
    ensures CsvShape(RunBatch(df, interval, done, store0).store)
    decreases |done|
  {
    if |done| > 0 {
      RunKeepsShape(df, interval, done[..|done| - 1], store0);
      var b := RunBatch(df, interval, done[..|done| - 1], store0);
      if b.failed.None? {
        var e := done[|done| - 1];
        var pending := Put(b.pending, e.key, e.runs);
        var taken := pending[..Min(interval, |pending|)];
        if Checkpoint(|done|, interval, |df|) && ExpandAll(df, taken).Success? {
          SavedKeepsShape(b.store, ExpandAll(df, taken).value);
        }
      }
    }
  }

  /** Between checkpoints the file is left alone. */
  lemma NoWriteBetweenCheckpoints(df: seq<Row>, interval: nat, done: seq<Entry>, store0: Store)
    requires interval > 0 && |done| > 0
    requires !Checkpoint(|done|, interval, |df|)
    ensures RunBatch(df, interval, done, store0).store
      == RunBatch(df, interval, done[..|done| - 1], store0).store
  {
  }

  /** A checkpoint that succeeds writes the expansion of the oldest
      `interval` items of the dictionary, after the completion is recorded,
      and leaves the younger ones. */
  lemma CheckpointWritesOldest(df: seq<Row>, interval: nat, done: seq<Entry>, store0: Store)
    requires interval > 0 && |done| > 0
    requires Checkpoint(|done|, interval, |df|)
    requires RunBatch(df, interval, done, store0).failed.None?
    ensures var before := RunBatch(df, interval, done[..|done| - 1], store0);
      var e := done[|done| - 1];
      var recorded := Put(before.pending, e.key, e.runs);
      var n := Min(interval, |recorded|);
      var after := RunBatch(df, interval, done, store0);
      after.store.present
      && after.pending == recorded[n..]
      && DataRows(after.store.lines) == DataRows(before.store.lines) + ExpandAll(df, recorded[..n]).value
  {
    var before := RunBatch(df, interval, done[..|done| - 1], store0);
    var e := done[|done| - 1];
    var recorded := Put(before.pending, e.key, e.runs);
    var n := Min(interval, |recorded|);
    SavedAppends(before.store, ExpandAll(df, recorded[..n]).value);
  }

  // When the loop fails.

  /** A put leaves the items that were there and the new one. */
  lemma PutElements(d: seq<Entry>, k: Key, v: seq<string>)
    ensures forall x :: x in Put(d, k, v) ==> x in d || x == Entry(k, v)
  {
    if IndexOf(d, k).Some? {
      var i := IndexOf(d, k).value;
      forall x | x in d[i := Entry(k, v)] ensures x in d || x == Entry(k, v) {
        var j :| 0 <= j < |d| && d[i := Entry(k, v)][j] == x;
        if j != i { assert x == d[j]; }
      }
    }
  }

  /** A failed expansion fails on one of its items, with that item's error. */
  lemma {:induction false} ExpandAllFails(df: seq<Row>, es: seq<Entry>)
    requires ExpandAll(df, es).Failure?
    ensures exists x :: x in es && Expand(df, x) == Failure(ExpandAll(df, es).error)
    decreases |es|
  {
    var init := es[..|es| - 1];
    var last := es[|es| - 1];
    if ExpandAll(df, init).Failure? {
      ExpandAllFails(df, init);
      var x :| x in init && Expand(df, x) == Failure(ExpandAll(df, init).error);
      assert x in es;
    } else {
      assert Expand(df, last) == Failure(ExpandAll(df, es).error);
    }
  }

  /** What the loop keeps true: an item of the dictionary is still empty or
      is one of the completions, and the error that ended the loop is that of
      expanding one of the completions. */
  predicate FromCompletions(df: seq<Row>, done: seq<Entry>, b: Batch) {
    (forall x :: x in b.pending ==> x.runs == [] || x in done)
    && (b.failed.Some? ==> exists x :: x in done && Expand(df, x) == Failure(b.failed.value))
  }

  lemma {:induction false} RunFromCompletions(df: seq<Row>, interval: nat, done: seq<Entry>, store0: Store)
    requires interval > 0
    ensures FromCompletions(df, done, RunBatch(df, interval, done, store0))
    decreases |done|
  {
    if |done| == 0 {
      FromKeysIsDict(GsmIds(df));
    } else {
      var init := done[..|done| - 1];
      RunFromCompletions(df, interval, init, store0);
      assert forall x :: x in init ==> x in done;
      CompleteFromCompletions(df, interval, done, RunBatch(df, interval, init, store0));
    }
  }

  /** One completion keeps `FromCompletions`. */
  lemma CompleteFromCompletions(df: seq<Row>, interval: nat, done: seq<Entry>, b: Batch)
    requires interval > 0 && |done| > 0
    requires FromCompletions(df, done, b)
    ensures FromCompletions(df, done, Complete(b, df, interval, |done|, done[|done| - 1]))
  {
    var e := done[|done| - 1];
    if b.failed.None? {
      var recorded := b.(pending := Put(b.pending, e.key, e.runs));
      PutElements(b.pending, e.key, e.runs);
      assert forall x :: x in recorded.pending ==> x.runs == [] || x in done;
      var taken := recorded.pending[..Min(interval, |recorded.pending|)];
      if Checkpoint(|done|, interval, |df|) && ExpandAll(df, taken).Failure? {
        ExpandAllFails(df, taken);
        var x :| x in taken && Expand(df, x) == Failure(ExpandAll(df, taken).error);
        assert x in recorded.pending;
      }
    }
  }

  /** With the lookups as the pool delivers them, the loop fails only at a
      sample whose accession is in more than one row of the table and for
      which the archive lists runs. */
  lemma RunFailsOnlyOnSharedAccession(df: seq<Row>, interval: nat, archive: map<string, seq<string>>,
                                      done: seq<Entry>, store0: Store)
    requires interval > 0 && Completions(df, archive, done)
    ensures var b := RunBatch(df, interval, done, store0);
      b.failed.Some? ==>
        var key := b.failed.value.key;
        key in GsmIds(df) && key.Some? && |Matching(df, key)| > 1 && FetchSrr(key, archive) != []
  {
    RunFromCompletions(df, interval, done, store0);
    var b := RunBatch(df, interval, done, store0);
    if b.failed.Some? {
      var x :| x in done && Expand(df, x) == Failure(b.failed.value);
      ExpandCopies(df, x);
      MatchingRows(df, x.key);
      var r := Matching(df, x.key)[0];
      assert r in Matching(df, x.key);
      var i :| 0 <= i < |df| && df[i] == r;
      assert GsmIds(df)[i] == x.key;
    }
  }

  // Finding: a completion that arrives after its item was flushed is lost.

  const RowA: Row := [None, None, None, Some("A"), None, None, None, None, None, None, None]
  const RowB: Row := [None, None, None, Some("B"), None, None, None, None, None, None, None]

  const Df: seq<Row> := [RowA, RowB]
  const LateA := [Entry(Some("B"), ["R2"]), Entry(Some("A"), ["R1"])]

  lemma MatchingExample()
    ensures Matching(Df, Some("A")) == [RowA]
    ensures Matching(Df, Some("B")) == [RowB]
  {
    assert Df[..1] == [RowA] && Df[1] == RowB;
    assert [RowA][..0] == [];
    assert RowA[GeoAccessionColumn] == Some("A") && RowB[GeoAccessionColumn] == Some("B");
    assert "A" != "B" by { assert "A"[0] != "B"[0]; }
    assert Matching([], Some("A")) == [] && Matching([], Some("B")) == [];
    assert Matching([RowA], Some("A")) == [RowA];
    assert Matching([RowA], Some("B")) == [];
  }

  lemma ExpandExample()
    ensures Expand(Df, Entry(Some("A"), ["R1"])) == Success([RunRow(RowA, "R1")])
    ensures Expand(Df, Entry(Some("B"), ["R2"])) == Success([RunRow(RowB, "R2")])
  {
    MatchingExample();
    var a, b := Entry(Some("A"), ["R1"]), Entry(Some("B"), ["R2"]);
    ExpandCopies(Df, a);
    ExpandCopies(Df, b);
    assert Expand(Df, a).value == [RunRow(RowA, "R1")];
    assert Expand(Df, b).value == [RunRow(RowB, "R2")];
  }

  /** An archive listing run R1 for A and R2 for B. */
  const ArchiveAB: map<string, seq<string>> := map["A" := ["R1"], "B" := ["R2"]]

  /** The lookups of the example find the archive's runs. */
  lemma FetchExample()
    ensures FetchSrr(Some("A"), ArchiveAB) == ["R1"]
    ensures FetchSrr(Some("B"), ArchiveAB) == ["R2"]
  {
    assert StripChar("A", '"') == "A" by {
      assert LeadCount("A", OnlyChar('"')) == 0 && TrailCount("A", OnlyChar('"')) == 0;
    }
    assert StripChar("B", '"') == "B" by {
      assert LeadCount("B", OnlyChar('"')) == 0 && TrailCount("B", OnlyChar('"')) == 0;
    }
  }

  /** The completions of the example are what the pool delivers when B's
      lookup finishes before A's. */
  lemma LateAIsCompleted()
    ensures Completed([Some("B"), Some("A")], ArchiveAB) == LateA
    ensures Completions(Df, ArchiveAB, LateA)
  {
    FetchExample();
    assert GsmIds(Df) == [Some("A"), Some("B")];
    assert multiset([Some("B"), Some("A")]) == multiset([Some("A"), Some("B")]);
    CompletedAreCompletions(Df, ArchiveAB, [Some("B"), Some("A")]);
  }

  /** First checkpoint: B has completed, and A, still empty, is flushed. */
  lemma LostFirstCheckpoint()
    ensures RunBatch(Df, 1, LateA[..1], Store([], false))
      == Batch([Entry(Some("B"), ["R2"])], Store([Header], true), None)
  {
    var ea, eb := Entry(Some("A"), []), Entry(Some("B"), []);
    assert GsmIds(Df) == [Some("A"), Some("B")];
    assert FromKeys([Some("A"), Some("B")]) == [ea, eb] by {
      assert [Some("A"), Some("B")][..1] == [Some("A")];
      assert FromKeys([Some("A")]) == [ea] by {
        assert [Some("A")][..0] == [];
      }
      assert "A" != "B" by { assert "A"[0] != "B"[0]; }
    }
    assert LateA[..1][..0] == [];
    assert IndexOf([ea, eb], Some("B")) == Some(1) by {
      assert [ea, eb][1..] == [eb];
      assert "A" != "B" by { assert "A"[0] != "B"[0]; }
    }
    var recorded := [ea, Entry(Some("B"), ["R2"])];
    assert Put([ea, eb], Some("B"), ["R2"]) == recorded;
    assert ExpandAll(Df, [ea]) == Success([]) by {
      ExpandAllOne(Df, ea);
      ExpandCopies(Df, ea);
    }
    assert recorded[..1] == [ea];
    assert recorded[1..] == [Entry(Some("B"), ["R2"])];
  }

  /** Second checkpoint: A completes and goes to the end; B is flushed. */
  lemma LostSecondCheckpoint()
    ensures RunBatch(Df, 1, LateA, Store([], false))
      == Batch([Entry(Some("A"), ["R1"])], Store([Header, Data(RunRow(RowB, "R2"))], true), None)
  {
    LostFirstCheckpoint();
    RunBatchNext(Df, 1, LateA, 1, Store([], false));
    assert LateA[..2] == LateA;
    var b1 := Batch([Entry(Some("B"), ["R2"])], Store([Header], true), None);
    var recorded := [Entry(Some("B"), ["R2"]), Entry(Some("A"), ["R1"])];
    assert IndexOf(b1.pending, Some("A")) == None by {
      assert "A" != "B" by { assert "A"[0] != "B"[0]; }
    }
    assert Put(b1.pending, Some("A"), ["R1"]) == recorded;
    MatchingExample();
    assert ExpandAll(Df, recorded[..1]) == Success([RunRow(RowB, "R2")]) by {
      assert recorded[..1] == [recorded[0]];
      ExpandAllOne(Df, recorded[0]);
      ExpandExample();
    }
    assert recorded[1..] == [Entry(Some("A"), ["R1"])];
  }

  /** Two samples with one run each, a save interval of one, and the second
      lookup finishing first. The first checkpoint flushes A while its lookup
      is still running; when it completes, A is put back at the end of the
      dictionary, and the last checkpoint flushes only B. The loop ends
      without error, yet A's run never reaches the file. */
  lemma LostCompletion()
    ensures var b := RunBatch(Df, 1, LateA, Store([], false));
      b.failed.None?
      && ExpandAll(Df, LateA) == Success([RunRow(RowB, "R2"), RunRow(RowA, "R1")])
      && RunRow(RowA, "R1") !in DataRows(b.store.lines)
  {
    LostSecondCheckpoint();
    var lines := [Header, Data(RunRow(RowB, "R2"))];
    assert DataRows(lines) == [RunRow(RowB, "R2")] by {
      assert lines[..1] == [Header];
      assert [Header][..0] == [];
    }
    assert RowA != RowB by { assert RowA[GeoAccessionColumn] != RowB[GeoAccessionColumn]; }
    LateAExpands();
  }

  /** Both completions of the example expand without error. */
  lemma LateAExpands()
    ensures ExpandAll(Df, LateA) == Success([RunRow(RowB, "R2"), RunRow(RowA, "R1")])
  {
    var b, a := Entry(Some("B"), ["R2"]), Entry(Some("A"), ["R1"]);
    assert LateA == [b] + [a];
    ExpandAllOne(Df, b);
    ExpandAllOne(Df, a);
    ExpandExample();
    assert ExpandAll(Df, [b]) == Success([RunRow(RowB, "R2")]);
    assert ExpandAll(Df, [a]) == Success([RunRow(RowA, "R1")]);
    ExpandAllAppend(Df, [b], [a]);
    assert ExpandAll(Df, [b] + [a]) == Success([RunRow(RowB, "R2")] + [RunRow(RowA, "R1")]);
    assert ExpandAll(Df, LateA) == ExpandAll(Df, [b] + [a]);
    assert [RunRow(RowB, "R2")] + [RunRow(RowA, "R1")] == [RunRow(RowB, "R2"), RunRow(RowA, "R1")];
  }

  // The batching as evidently intended: each checkpoint saves the
  // completions since the previous one, in completion order.

  /** The `c`-th completion joins the queue; a checkpoint saves and empties
      the queue. */
  function CompleteInOrder(b: Batch, df: seq<Row>, interval: nat, c: nat, e: Entry): Batch
    requires interval > 0
  {
    if b.failed.Some? then b
    else
      var queue := b.pending + [e];
      if !Checkpoint(c, interval, |df|) then b.(pending := queue)
      else match ExpandAll(df, queue)
        case Failure(err) => b.(pending := queue, failed := Some(err))
        case Success(frame) => Batch([], Saved(b.store, frame), None)
  }

  function RunInOrder(df: seq<Row>, interval: nat, done: seq<Entry>, store0: Store): Batch
    requires interval > 0
  {
    if |done| == 0 then Batch([], store0, None)
    else CompleteInOrder(RunInOrder(df, interval, done[..|done| - 1], store0), df, interval, |done|, done[|done| - 1])
  }

  /** What the intended batching keeps true after the completions `done`:
      the queue holds the latest of them and all the earlier ones are saved
      in order, or an error was met among them. */
  predicate InOrderSoFar(df: seq<Row>, done: seq<Entry>, store0: Store, b: Batch) {
    (b.failed.Some? ==> ExpandAll(df, done).Failure?)
    && (b.failed.None? ==>
      |b.pending| <= |done|
      && b.pending == done[|done| - |b.pending|..]
      && ExpandAll(df, done[..|done| - |b.pending|]).Success?
      && DataRows(b.store.lines)
        == DataRows(store0.lines) + ExpandAll(df, done[..|done| - |b.pending|]).value)
  }

  lemma {:induction false} RunInOrderSoFar(df: seq<Row>, interval: nat, done: seq<Entry>, store0: Store)
    requires interval > 0
    ensures InOrderSoFar(df, done, store0, RunInOrder(df, interval, done, store0))
    decreases |done|
  {
    if |done| > 0 {
      var init := done[..|done| - 1];
      RunInOrderSoFar(df, interval, init, store0);
      assert done == init + [done[|done| - 1]];
      InOrderStep(df, interval, init, done[|done| - 1], store0, RunInOrder(df, interval, init, store0));
    }
  }

  /** One completion keeps `InOrderSoFar`. */
  lemma InOrderStep(df: seq<Row>, interval: nat, init: seq<Entry>, e: Entry, store0: Store, b: Batch)
    requires interval > 0 && InOrderSoFar(df, init, store0, b)
    ensures InOrderSoFar(df, init + [e], store0, CompleteInOrder(b, df, interval, |init| + 1, e))
  {
    if b.failed.Some? {
      ExpandAllAppend(df, init, [e]);
    } else if !Checkpoint(|init| + 1, interval, |df|) {
      QueueGrows(init, e, b.pending);
      assert CompleteInOrder(b, df, interval, |init| + 1, e) == b.(pending := b.pending + [e]);
    } else {
      InOrderCheckpoint(df, interval, init, e, store0, b);
    }
  }

  lemma InOrderCheckpoint(df: seq<Row>, interval: nat, init: seq<Entry>, e: Entry, store0: Store, b: Batch)
    requires interval > 0 && InOrderSoFar(df, init, store0, b) && b.failed.None?
    requires Checkpoint(|init| + 1, interval, |df|)
    ensures InOrderSoFar(df, init + [e], store0, CompleteInOrder(b, df, interval, |init| + 1, e))
  {
    var saved := init[..|init| - |b.pending|];
    var queue := b.pending + [e];
    QueueGrows(init, e, b.pending);
    var next := CompleteInOrder(b, df, interval, |init| + 1, e);
    if ExpandAll(df, queue).Success? {
      assert next == Batch([], Saved(b.store, ExpandAll(df, queue).value), None);
      InOrderSavesQueue(df, init + [e], saved, queue, store0, b.store);
    } else {
      assert next.failed.Some?;
      ExpandAllAppend(df, saved, queue);
    }
  }

  /** A checkpoint that saves the whole queue leaves every completion saved. */
  lemma InOrderSavesQueue(df: seq<Row>, done: seq<Entry>, saved: seq<Entry>, queue: seq<Entry>,
                          store0: Store, store: Store)
    requires done == saved + queue
    requires ExpandAll(df, saved).Success? && ExpandAll(df, queue).Success?
    requires DataRows(store.lines) == DataRows(store0.lines) + ExpandAll(df, saved).value
    ensures InOrderSoFar(df, done, store0, Batch([], Saved(store, ExpandAll(df, queue).value), None))
  {
    InOrderFlush(df, saved, queue, store0, store);
    assert done[..|done| - 0] == done;
  }

  /** The queue with one more completion is the end of the completions. */
  lemma QueueGrows(init: seq<Entry>, e: Entry, pending: seq<Entry>)
    requires |pending| <= |init| && pending == init[|init| - |pending|..]
    ensures var done := init + [e];
      var queue := pending + [e];
      |queue| <= |done|
      && done[|done| - |queue|..] == queue
      && done[..|done| - |queue|] == init[..|init| - |pending|]
      && done == init[..|init| - |pending|] + queue
  {
    var done := init + [e];
    assert init == init[..|init| - |pending|] + pending;
  }

  /** A checkpoint of the intended batching saves the whole queue. */
  lemma InOrderFlush(df: seq<Row>, saved: seq<Entry>, queue: seq<Entry>, store0: Store, store: Store)
    requires ExpandAll(df, saved).Success?
    requires DataRows(store.lines) == DataRows(store0.lines) + ExpandAll(df, saved).value
    ensures ExpandAll(df, queue).Failure? ==> ExpandAll(df, saved + queue).Failure?
    ensures ExpandAll(df, queue).Success? ==>
      ExpandAll(df, saved + queue).Success?
      && DataRows(Saved(store, ExpandAll(df, queue).value).lines)
        == DataRows(store0.lines) + ExpandAll(df, saved + queue).value
  {
    ExpandAllAppend(df, saved, queue);
    if ExpandAll(df, queue).Success? {
      var x, q := ExpandAll(df, saved).value, ExpandAll(df, queue).value;
      assert ExpandAll(df, saved + queue) == Success(x + q);
      SavedAppends(store, q);
      AppendAssociates(DataRows(store0.lines), x, q);
    }
  }

  /** With the intended batching, a run that ends without error has saved
      the rows of every completion exactly once, in completion order, and it
      ends without error exactly when every completion expands. */
  lemma InOrderSavesEveryCompletion(df: seq<Row>, interval: nat, done: seq<Entry>, store0: Store)
    requires interval > 0 && |done| == |df|
    ensures var b := RunInOrder(df, interval, done, store0);
      (b.failed.None? <==> ExpandAll(df, done).Success?)
      && (b.failed.None? ==> DataRows(b.store.lines) == DataRows(store0.lines) + ExpandAll(df, done).value)
  {
    RunInOrderSoFar(df, interval, done, store0);
    var b := RunInOrder(df, interval, done, store0);
    if |done| > 0 && b.failed.None? {
      assert b.pending == [];
      assert done[..|done|] == done;
    }
  }
}
