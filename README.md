# fastatoq: series-matrix ingestion, run expansion and FASTA to FASTQ conversion

This project models two text-processing tools in Dafny and proves properties of the models.

`series_to_csv.py` reads GEO series-matrix files into one table, with one row per sample. It then looks up
the sequencing runs (SRR accessions) of every sample and appends one CSV row per run, in batches.
`fatoq.py` turns a FASTA file into FASTQ records. A sequence longer than the maximum record length is cut
into numbered chunks.

Modules (every `.dfy` file is one module):

- `wrappers.dfy` (`Wrappers`): `Option` and `Result`.
- `py_strings.dfy` (`PyStrings`): the Python string operations the tools use, with Python's semantics.
  - `str.strip()` uses Python's `isspace` characters. `str.strip(c)`, `startswith` and `endswith` are also here.
  - `str.split(sep)` for one character, and `str.split()` on white space.
  - `str(n)` for a non-negative integer.
- `series_matrix.dfy` (`SeriesMatrix`): `parse_series_matrix`.
  - A file is its sequence of lines. Each line is lexed into its tag and its tab fields.
  - `ScanMatrixLines` is the loop over the lines that rebinds the locals. `AssembleFrame` is the code after the loop.
  - `ParseSeriesMatrix` runs the two in sequence. It is proved equal to `ParseSpec`, a declarative statement of the result in whole-file terms:
    - the last line of each tag;
    - the first three non-empty characteristic lines;
    - the lengths that decide success.
  - The DataFrame is its sequence of rows of eleven cells, in the source's column order. A cell is `None` where the source pads with `None`.
- `matrix_aggregate.dfy` (`MatrixAggregate`): `parse_all_series_matrix`.
  - The directory listing is an input sequence of (file name, lines) entries.
  - The loop parses every name that ends in `_series_matrix.txt`. The tables are concatenated in listing order.
  - The concatenation fails when there is no table at all.
- `srr_batch.dfy` (`SrrBatch`): the batching of `add_srr_and_save`.
  - The insertion-ordered dictionary `srr_dict` is a sequence of entries.
  - The CSV file is the class `CsvFile`: its lines plus an "exists" flag. `AppendFrame` appends to it in place.
  - The thread pool is replaced by its observable effect: the order in which the lookups complete, an input.
  - `FetchSrr` gives the runs of a sample from an archive passed in as a map. A key that is not a string, or an unknown accession, gives no runs.
  - `Completed` pairs each sample of the completion order with what `FetchSrr` returns for it. `Completions` states what any such sequence satisfies: one completion per row, each with its sample's runs.
  - `AddSrrAndSave` is the loop, over a completion order and an archive. It is proved against `RunBatch`, the state after a given sequence of completions.
- `fatoq.dfy` (`FastaToFastq`): the conversion loop of `fatoq.py`.
  - The input file is its list of lines. `readline()` past the end gives `""`. The output is the text written.
  - `ConvertFastaToFastq` is the `while True` loop, with `ReadInfo` (the chunking `for` loop) inside it.
  - Both are proved against `Convert`, which is split in two:
    - a scan: which reads the loop goes through, and whether it stops on an unbound read identifier;
    - a rendering: the records of each read and their text.
  - Lemmas about the rendering state the chunk bounds, exact reconstruction, record counts, identifiers and quality strings.

Where the code and its description disagree, the model follows the code:

- Per-sample values keep their double quotes. Only the series accession and the sample identifier list are quote-stripped.
- The row count `max_length` is computed when only the three characteristic columns are filled. So it is the longest of those three, not the longest column of the file.
- A longer sample column is not truncated. It makes the DataFrame construction fail (`RaggedColumns`).
- A single-valued `!Sample_*` tag that never occurs leaves its local unbound. The assignment after the loop then raises (`UnboundColumn`); the column is not padded. In particular, a file with a series accession and no sample lines fails rather than giving zero rows.
- "The first three characteristic lines" means the first three whose value list is non-empty. A characteristic line with no values leaves its slot free, because `not data[...]` holds for an empty list.
- A sample key with at least one run that matches more than one row makes the run-column assignment fail (`LengthMismatch`). The rows are not replicated. Under `Completions` this needs an accession shared by several rows for which the archive lists runs.
- A sample key with runs that matches no row gives one row per run, with every other cell empty. Under `Completions` this cannot happen: such a key is `None`, and its lookup gives no runs.
- The tables of several files are concatenated in listing order.

## Model

| member | source | states |
|---|---|---|
| PyStrings.StartsWithIsPrefix | series_to_csv.py:31 | `startswith` holds exactly when the prefix is the string's first characters |
| PyStrings.EndsWithIsSuffix | series_to_csv.py:78 | `endswith` holds exactly when the suffix is the string's last characters |
| PyStrings.TrimLeftRemovesRun | series_to_csv.py:32 | `strip` removes only the dropped characters at the front, and stops at a kept one or at the end |
| PyStrings.TrimRightRemovesRun | series_to_csv.py:32 | the same at the back |
| PyStrings.Strip | series_to_csv.py:32 | `s.strip()`: the string with its leading and trailing white space removed |
| PyStrings.StripChar | series_to_csv.py:32 | `s.strip(c)`: the string with the runs of `c` at both ends removed |
| PyStrings.Split | series_to_csv.py:32 | `split(sep)` returns at least one piece |
| PyStrings.SplitHasNoSeparator | series_to_csv.py:32 | no piece of `split(sep)` holds the separator |
| PyStrings.JoinSplit | series_to_csv.py:32 | joining the pieces of `split(sep)` with `sep` gives the string back |
| PyStrings.SplitJoin | series_to_csv.py:32 | splitting a join of separator-free pieces gives the pieces back |
| PyStrings.SplitAfterSeparator | fatoq.py:17 | a piece followed by the separator splits off as the first piece |
| PyStrings.WordIsMaximalRun | series_to_csv.py:34 | a word of `split()` is a maximal run of non-white-space characters |
| PyStrings.Words | series_to_csv.py:34 | `s.split()`: skip white space, take the maximal run of other characters as the next word, repeat until the end |
| PyStrings.WordsAreWords | series_to_csv.py:34 | every piece of `split()` is a non-empty run without white space |
| PyStrings.WordsKeepNonSpace | series_to_csv.py:34 | the pieces of `split()` laid end to end are exactly the string's non-white-space characters, in order |
| PyStrings.NonSpaceSkipsLead | series_to_csv.py:34 | leading white space adds nothing to the non-white-space characters |
| PyStrings.NonSpaceOfWord | series_to_csv.py:34 | a string that starts with a word keeps that whole word, then the non-white-space characters after it |
| PyStrings.WordsOfWord | series_to_csv.py:34 | a non-empty string without white space splits into itself alone |
| PyStrings.WordsAcrossSpace | series_to_csv.py:34 | `split()` breaks at every white-space character: the words of `a + c + b`, with `c` white space, are the words of `a` then those of `b` |
| PyStrings.WordsAfterSpaceRun | series_to_csv.py:34 | white space before a white-space character and `b` leaves exactly the words of `b` |
| PyStrings.WordBeforeSpace | series_to_csv.py:34 | a word of `a` is also the first word of `a + c + b` when `c` is white space, and the rest splits as the rest of `a`, then `c`, then `b` |
| PyStrings.LeadCountAppend | series_to_csv.py:32-34 | the leading white space of `x + y` is that of `x`, or all of `x` and then that of `y` |
| PyStrings.WordLengthAppend | series_to_csv.py:34 | the first word of `x + y` ends within `x`, or takes all of `x` and the first word of `y` |
| PyStrings.WordLengthOfWord | series_to_csv.py:34 | a string without white space is one run |
| PyStrings.Decimal | fatoq.py:22 | `str(n)` is a non-empty string of decimal digits |
| PyStrings.ParseDecimalOfDecimal | fatoq.py:22 | `int(str(n)) == n` |
| PyStrings.DecimalInjective | fatoq.py:22 | different numbers have different decimal strings |
| SeriesMatrix.LexAll | series_to_csv.py:30 | one lexed line per line of the file |
| SeriesMatrix.Classify | series_to_csv.py:31-47 | the tag of a raw line: the first of the if/elif prefix tests that holds, else untagged |
| SeriesMatrix.ScanLine | series_to_csv.py:31-54 | what one line does to the locals: the series accession and sample ids from the second field (quotes stripped; ids split on white space), a sample tag's values after the tag, a characteristic line into the first free slot; `None` for the `IndexError` of a series line without a second field |
| SeriesMatrix.Scanned | series_to_csv.py:30-54 | the locals after the first n lines, `ScanLine` applied line by line from the unbound start, or `None` once a line has raised |
| SeriesMatrix.Summary | series_to_csv.py:30-54 | the locals stated over the whole file: the last series line of each kind, the last line of each sample tag, the first three non-empty characteristic lines |
| SeriesMatrix.Assemble | series_to_csv.py:56-70 | the code after the loop: fail on the first unbound sample local, else pad every column to `max_length` and build the frame |
| SeriesMatrix.ParseSpec | series_to_csv.py:9-72 | the parse of a file: a malformed series line raises, else `Assemble` of the file's `Summary` |
| SeriesMatrix.CharLists | series_to_csv.py:49-54 | only non-empty characteristic lists fill a slot |
| SeriesMatrix.Pad | series_to_csv.py:66-67 | a padded column has `max(len, n)` cells: shorter ones reach `n`, longer ones keep their length |
| SeriesMatrix.BuildFrame | series_to_csv.py:70 | the DataFrame exists exactly when all eleven columns have one length, and cell (i, c) is entry i of column c; otherwise `RaggedColumns` |
| SeriesMatrix.MaxLenOfCharacteristics | series_to_csv.py:56 | `max_length` over the dictionary, with only the characteristic columns filled, is the longest of those three |
| SeriesMatrix.ScanOneLine | series_to_csv.py:31-54 | one pass of the if/elif chain is exactly `ScanLine`: it rebinds the local of the line's tag, or fails on a series line without a second field |
| SeriesMatrix.ScanMatrixLines | series_to_csv.py:30-54 | the scanning loop leaves the locals as `Scanned` of the whole file |
| SeriesMatrix.ScannedNext | series_to_csv.py:30-54 | one more line moves the scan on by `ScanLine`, and a raise ends the scan |
| SeriesMatrix.AssembleFrame | series_to_csv.py:56-70 | the code after the loop yields exactly `Assemble` of the locals |
| SeriesMatrix.ParseSeriesMatrix | series_to_csv.py:9-72 | the parse of a file is exactly `ParseSpec` of its lines |
| SeriesMatrix.ScanLineFails | series_to_csv.py:32-34 | a line raises exactly when it is a series line without a second tab field |
| SeriesMatrix.ScanLineSeries | series_to_csv.py:31-34 | only an accession (sample id) line changes the accession (sample ids), to its second field with quotes stripped (and split on white space) |
| SeriesMatrix.ScanLineSampleValue | series_to_csv.py:35-46 | a line rebinds a sample local only when it carries that tag, to its values after the tag |
| SeriesMatrix.ScanLineCharacters | series_to_csv.py:47-54 | a characteristic line fills the first empty slot, or is dropped when all three are full; other lines leave the slots alone |
| SeriesMatrix.ScannedFailsIffMalformed | series_to_csv.py:30-34 | scanning raises exactly when some line read so far is a series line without a value |
| SeriesMatrix.ScannedStaysFailed | series_to_csv.py:30-34 | once the loop has raised, no later line matters |
| SeriesMatrix.ScannedSeriesIsLast | series_to_csv.py:31-34 | after the loop, the accession and the sample ids are those of the last series line of each kind |
| SeriesMatrix.ScannedSampleValueIsLast | series_to_csv.py:35-46 | after the loop, each sample local holds the values of the last line with its tag: a later line overwrites an earlier one |
| SeriesMatrix.ScannedCharactersAreFirstThree | series_to_csv.py:47-54 | after the loop, the three slots hold the first three non-empty characteristic lines in file order; later ones are ignored |
| SeriesMatrix.ScannedIsSummary | series_to_csv.py:30-54 | a completed scan leaves the locals holding the file's whole-file `Summary` |
| SeriesMatrix.ScannedSamplesAgree | series_to_csv.py:35-46 | a completed scan leaves every sample local as the last line of its tag |
| SeriesMatrix.ParseSpecIsAssembledScan | series_to_csv.py:30-70 | a file without a malformed series line parses to what its completed scan assembles to |
| SeriesMatrix.AssembleSucceedsIff | series_to_csv.py:56-70 | assembly succeeds exactly when all six sample locals are bound and none is longer than `max_length`; otherwise it fails on the first unbound local, or with `RaggedColumns` |
| SeriesMatrix.PaddedLengths | series_to_csv.py:65-67 | after padding, all columns have one length exactly when the sample columns fit in `max_length` |
| SeriesMatrix.PaddedCell | series_to_csv.py:65-67 | a padded column holds its value at each index, and `None` past its end |
| SeriesMatrix.FrameCell | series_to_csv.py:65-70 | row i of the frame is position i of every padded column |
| SeriesMatrix.AssembleSeriesCells | series_to_csv.py:56-58 | the frame has `max_length` rows; every row carries the accession, and row i carries sample id i (cut at `max_length`, padded with `None`) |
| SeriesMatrix.ScanColumnOfTag | series_to_csv.py:59-64 | each sample tag's column holds the values of its local |
| SeriesMatrix.AssembleSampleCells | series_to_csv.py:59-67 | row i holds value i of each sample tag's last line, quotes kept, or `None` past its end |
| SeriesMatrix.AssembleCharacterCells | series_to_csv.py:65-70 | row i holds value i of each characteristic slot, or `None` past its end |
| SeriesMatrix.SamplesFitSummary | series_to_csv.py:56-64 | the sample locals fit exactly when every sample tag occurs and its last line holds at most `max_length` values |
| SeriesMatrix.ParseSucceedsIff | series_to_csv.py:30-70 | a file parses exactly when no series line lacks its value, all six sample tags occur, and the last line of each holds at most `max_length` values |
| SeriesMatrix.ParseRows | series_to_csv.py:30-70 | a parsed file has `max_length` rows, each with the last accession, its sample id and its characteristic values |
| SeriesMatrix.ParseGeoAccessions | series_to_csv.py:37-38 | the `Sample_geo_accession` cell of row i is value i of the last `!Sample_geo_accession` line, or `None` |
| SeriesMatrix.MissingSampleValueFails | series_to_csv.py:59-64 | an unbound sample local makes assembly fail on an unbound local |
| SeriesMatrix.MissingTagFails | series_to_csv.py:36-64 | a file in which some sample tag never occurs does not parse, and does not fail on lengths |
| SeriesMatrix.MissingTitleFails | series_to_csv.py:35-59 | without a `!Sample_title` line, a well-formed file fails on that tag |
| SeriesMatrix.PrefixFacts | series_to_csv.py:30 | the facts about the first n lines do not depend on the lines after them |
| SeriesMatrix.AppendOtherTag | series_to_csv.py:31-46 | a line of another tag leaves the last line of a tag as it was |
| SeriesMatrix.AppendKeepsWellFormed | series_to_csv.py:32-34 | a line that is not a series line cannot make the file raise |
| SeriesMatrix.AppendKeepsSlots | series_to_csv.py:47-54 | a line leaves the three slots unchanged unless it is a characteristic line arriving while a slot is free |
| SeriesMatrix.AppendIgnoredLine | series_to_csv.py:30-54 | an untagged line, or a fourth characteristic line, changes nothing the parse depends on |
| SeriesMatrix.IgnoredLineKeepsParse | series_to_csv.py:30-70 | such a line leaves the parsed table as it was |
| SeriesMatrix.LexAllAppend | series_to_csv.py:30 | lexing is line by line |
| SeriesMatrix.IgnoredRawLineKeepsParse | series_to_csv.py:30-70 | a raw line that no tag test matches, or a fourth non-empty characteristic line, leaves the parse of the file unchanged |
| MatrixAggregate.Collected | series_to_csv.py:76-81 | `all_dataframes` after the loop: the tables of the matrix files in listing order, or the first parse failure |
| MatrixAggregate.Aggregate | series_to_csv.py:75-85 | the combined table: the collected tables' rows stacked in order, a parse failure, or the error of concatenating no table |
| MatrixAggregate.ParseAllSeriesMatrix | series_to_csv.py:75-85 | the loop and the concatenation yield exactly `AggregateSpec` of the listing |
| MatrixAggregate.CollectedNext | series_to_csv.py:77-81 | one turn of the loop skips a non-matrix file, stops on a failing parse, or appends the file's table |
| MatrixAggregate.CollectedLast | series_to_csv.py:77-81 | the tables after the whole listing are those of all entries but the last, extended by the last entry's turn |
| MatrixAggregate.CollectedStaysFailed | series_to_csv.py:80 | once a parse has raised, later files change nothing |
| MatrixAggregate.MatrixFileIffSuffix | series_to_csv.py:78 | a file is read exactly when its name ends in `_series_matrix.txt` |
| MatrixAggregate.CollectedOnlyMatrixFiles | series_to_csv.py:77-78 | the other names of the listing are skipped |
| MatrixAggregate.OnlyMatrixFiles | series_to_csv.py:78 | the filter keeps a list of matrix files whole |
| MatrixAggregate.MatrixFilesAreMatrixFiles | series_to_csv.py:78 | every entry the filter keeps has the suffix |
| MatrixAggregate.CollectedIsEveryTable | series_to_csv.py:76-81 | the loop collects one table per matrix file, in order, exactly when every matrix file parses |
| MatrixAggregate.CollectedFailsAtFirstFailure | series_to_csv.py:77-81 | the first matrix file that fails decides the error |
| MatrixAggregate.FirstFailureStops | series_to_csv.py:80 | the loop raises at the first failing matrix file |
| MatrixAggregate.FlattenAppend | series_to_csv.py:84 | concatenating tables is associative over the list of tables |
| MatrixAggregate.MatrixFilesAppend | series_to_csv.py:77-78 | filtering a listing of two parts filters each part |
| MatrixAggregate.CollectedAppend | series_to_csv.py:76-81 | collecting a listing of two parts collects each part |
| MatrixAggregate.AggregateAppend | series_to_csv.py:75-85 | combining a listing of two parts stacks the rows of the first part on those of the second |
| MatrixAggregate.AggregateIsEveryTable | series_to_csv.py:75-85 | the combined table is every matrix file's table in listing order, and exists exactly when there is a matrix file and all of them parse |
| MatrixAggregate.Parsed | series_to_csv.py:80-81 | one table per file |
| MatrixAggregate.NoMatrixFileFails | series_to_csv.py:84 | a listing without a matrix file cannot be concatenated |
| MatrixAggregate.NoMatrixFiles | series_to_csv.py:78 | the filter keeps nothing of such a listing |
| SrrBatch.FetchSrr | series_to_csv.py:87-94 | `fetch_srr`: the runs the archive lists for the accession with its quotes stripped; none for a key that is not a string or an unknown accession |
| SrrBatch.Put | series_to_csv.py:112 | `srr_dict[gsm] = srrs`: a present key has its value replaced in place, a new key goes last |
| SrrBatch.Delete | series_to_csv.py:121 | `del srr_dict[gsm]`: the item with the key removed, the others in order |
| SrrBatch.FromKeys | series_to_csv.py:99 | `{gsm: [] for gsm in gsm_ids}`: the ids put one after the other with no runs, so a repeated id keeps its first place |
| SrrBatch.Matching | series_to_csv.py:117 | `df[df['Sample_geo_accession'] == gsm]`: the rows with that accession, in table order; none for a `None` key |
| SrrBatch.Expand | series_to_csv.py:117-119 | one item's rows: its matching row repeated once per run with the runs as the `SRR` column, empty cells when no row matches, `LengthMismatch` when runs meet several rows |
| SrrBatch.ExpandAll | series_to_csv.py:116-120 | `srr_expanded_df` after the inner loop: the rows of the items in order, or the first item's error |
| SrrBatch.Saved | series_to_csv.py:124 | the file after `to_csv(mode='a', header=not exists)`: the old lines, a header when it did not exist, one data line per row |
| SrrBatch.Checkpoint | series_to_csv.py:115 | completion c is a checkpoint when `save_interval` divides it or it is the last task |
| SrrBatch.Flush | series_to_csv.py:115-125 | a checkpoint: expand the first `save_interval` dictionary items, drop them and append their rows to the file, or stop with the error |
| SrrBatch.Complete | series_to_csv.py:106-125 | one turn of the loop: record the runs under the key, then flush at a checkpoint; nothing once the loop has raised |
| SrrBatch.RunBatch | series_to_csv.py:98-125 | the state after a sequence of completions: the initial dictionary and file, then `Complete` for each completion in turn |
| SrrBatch.Completed | series_to_csv.py:102-109 | the completions for a completion order: each sample of the order, in that order, with what `fetch_srr` returns for it |
| SrrBatch.CompletedAreCompletions | series_to_csv.py:102-109 | a completion order that is a rearrangement of the sample ids gives completions that satisfy `Completions` |
| SrrBatch.PutElements | series_to_csv.py:112 | a put keeps the items that were there, plus the new one |
| SrrBatch.ExpandAllFails | series_to_csv.py:116-120 | a failed expansion of several items fails on one of them, with that item's error |
| SrrBatch.RunFromCompletions | series_to_csv.py:98-125 | every dictionary item is still empty or is one of the completions, and an error that ended the loop is that of expanding one of the completions |
| SrrBatch.CompleteFromCompletions | series_to_csv.py:106-125 | one turn of the loop keeps that invariant |
| SrrBatch.RunFailsOnlyOnSharedAccession | series_to_csv.py:98-125 | for completions the pool can deliver, the loop raises only at a sample id that is a string, matches more than one row, and has runs in the archive |
| SrrBatch.KeysOf | series_to_csv.py:99 | one key per dictionary item |
| SrrBatch.IndexOf | series_to_csv.py:112 | a found index holds the key; no index means no item has the key |
| SrrBatch.PutRecords | series_to_csv.py:112 | `srr_dict[gsm] = srrs` records the runs under the key and leaves every other key alone; a present key keeps its place and a new key goes last |
| SrrBatch.IndexOfDistinct | series_to_csv.py:112 | in a dictionary, a key's index is its only position |
| SrrBatch.DeleteFirst | series_to_csv.py:121 | deleting the first key drops the first item |
| SrrBatch.FromKeysIsDict | series_to_csv.py:99 | the comprehension makes a dictionary of every sample id, each with no runs |
| SrrBatch.MatchingRows | series_to_csv.py:117 | the rows of a sample are exactly the table's rows carrying its accession |
| SrrBatch.ExpandCopies | series_to_csv.py:117-119 | a sample with k runs gives k rows carrying the runs in order: its single row once per run, or empty cells when it has no row; no runs give no rows; runs for a sample with more than one row are an error, `LengthMismatch` with the row and run counts |
| SrrBatch.ExpandAllLast | series_to_csv.py:116-120 | the frame of the taken items is extended one item at a time |
| SrrBatch.ExpandAllOne | series_to_csv.py:117-120 | the frame of one item is that item's rows |
| SrrBatch.ExpandAllAppend | series_to_csv.py:120 | the frame of two groups of items is the first group's rows, then the second's, or the first error |
| SrrBatch.GsmIds | series_to_csv.py:98 | one sample id per row |
| SrrBatch.DataLines | series_to_csv.py:124 | one CSV line per row |
| SrrBatch.SavedAppends | series_to_csv.py:124 | saving appends: the old lines stay in front, a header is written only when the file did not exist, and the data rows grow by the frame |
| SrrBatch.SavedKeepsShape | series_to_csv.py:124 | a file with one header at the top keeps that shape |
| SrrBatch.DataRowsHeader | series_to_csv.py:124 | a header line adds no data row |
| SrrBatch.DataRowsAppend | series_to_csv.py:124 | the data lines of a frame add its rows |
| SrrBatch.CsvFile.Absent | series_to_csv.py:124 | a file that does not exist yet is empty |
| SrrBatch.CsvFile.AppendFrame | series_to_csv.py:124 | `to_csv(mode='a', header=not exists)` changes the file exactly as `Saved` says |
| SrrBatch.AddSrrAndSave | series_to_csv.py:97-125 | when the lookups complete in a given order (one per row) against a given archive, the file and the error are exactly those of `RunBatch` over the `Completed` lookups |
| SrrBatch.RecordCompletion | series_to_csv.py:106-125 | one completion records the runs, then flushes at a checkpoint, as `Complete` says; the dictionary keeps distinct keys |
| SrrBatch.SaveCheckpoint | series_to_csv.py:115-125 | a checkpoint expands and deletes the first `save_interval` items and appends their rows, as `Flush` says |
| SrrBatch.RunBatchNext | series_to_csv.py:105-125 | one more completion moves the state on by `Complete` |
| SrrBatch.FlushFails | series_to_csv.py:116-120 | an error while expanding one taken item makes the flush fail with it |
| SrrBatch.DistinctSuffix | series_to_csv.py:121 | the items after some deletions still have distinct keys |
| SrrBatch.DeleteTaken | series_to_csv.py:116-121 | deleting the j-th taken item, after the first j are gone, drops the front item |
| SrrBatch.RunStaysFailed | series_to_csv.py:105-125 | once the loop has raised, later completions change nothing |
| SrrBatch.RunAppendOnly | series_to_csv.py:124 | the file only grows: what an earlier completion left stays in front |
| SrrBatch.RunKeepsShape | series_to_csv.py:124 | starting from an absent or well-shaped file, the header is written once, at the top |
| SrrBatch.NoWriteBetweenCheckpoints | series_to_csv.py:115 | between checkpoints the file is left alone |
| SrrBatch.CheckpointWritesOldest | series_to_csv.py:112-121 | a checkpoint writes the rows of the oldest `save_interval` dictionary items after recording the completion, and keeps the younger ones |
| SrrBatch.MatchingExample | series_to_csv.py:117 | in the two-sample example, each key matches its one row |
| SrrBatch.ExpandExample | series_to_csv.py:117-119 | in the example, each sample expands to one row |
| SrrBatch.LostFirstCheckpoint | series_to_csv.py:112-124 | in the example, the first checkpoint flushes A, which is still empty, and keeps B |
| SrrBatch.LostSecondCheckpoint | series_to_csv.py:112-124 | in the example, A goes back to the end of the dictionary and only B is written |
| SrrBatch.LostCompletion | series_to_csv.py:105-125 | the run ends without error and both completions expand, yet A's row never reaches the file |
| SrrBatch.LateAExpands | series_to_csv.py:117-120 | both completions of the example expand without error |
| SrrBatch.FetchExample | series_to_csv.py:87-94 | in the example, the lookups of A and B return R1 and R2 |
| SrrBatch.LateAIsCompleted | series_to_csv.py:87-109 | the completions of the example are what the pool delivers for the two samples when B's lookup finishes first, against an archive listing R1 for A and R2 for B |
| SrrBatch.CompleteInOrder | series_to_csv.py:106-125 | the intended turn of the loop: the completion joins a queue, and a checkpoint saves the whole queue and empties it, or stops with the error |
| SrrBatch.RunInOrder | series_to_csv.py:98-125 | the state of the intended batching after a sequence of completions |
| SrrBatch.RunInOrderSoFar | series_to_csv.py:105-125 | with batches of the completions since the last flush, every completion before the queue is saved in order |
| SrrBatch.InOrderStep | series_to_csv.py:105-125 | one completion keeps that invariant |
| SrrBatch.InOrderCheckpoint | series_to_csv.py:115-125 | a checkpoint keeps that invariant |
| SrrBatch.InOrderSavesQueue | series_to_csv.py:115-125 | saving the whole queue leaves every completion saved |
| SrrBatch.QueueGrows | series_to_csv.py:112 | the queue with one more completion is still the end of the completions |
| SrrBatch.InOrderFlush | series_to_csv.py:116-124 | a checkpoint of the intended batching saves the whole queue, or fails exactly when the queue does not expand |
| SrrBatch.InOrderSavesEveryCompletion | series_to_csv.py:105-125 | with the intended batching, a run ends without error exactly when every completion expands, and it then saves every completion's rows exactly once, in completion order |
| FastaToFastq.ChunkId | fatoq.py:22 | `read_id + '_' + str(i)`, the identifier of chunk i |
| FastaToFastq.Chunks | fatoq.py:20-29 | the chunks of a long read from chunk i on: `len_max` bases at a time, the last chunk holding what is left, chunk k named with index i + k |
| FastaToFastq.Records | fatoq.py:16-29 | the records of one read: itself when it has at most `len_max` bases, else its chunks from index 0 |
| FastaToFastq.NextReadId | fatoq.py:12-14 | the identifier after a header: `@` plus the header without its `>` characters when it starts with `>`, else the previous one, bound or not |
| FastaToFastq.ScanFrom | fatoq.py:8-15 | the reads from a header on: stop at an empty header, fail when the identifier is unbound, else take the header and the next line and go on two lines further |
| FastaToFastq.Convert | fatoq.py:7-30 | the whole conversion: the text of the records of every read the scan takes, and whether it stopped on an unbound identifier |
| FastaToFastq.Quality | fatoq.py:17 | `'F' * n` has n characters, all `F` |
| FastaToFastq.ReadLine | fatoq.py:9 | `readline()` past the end of the file gives the empty string |
| FastaToFastq.StripAll | fatoq.py:9 | one stripped line per line |
| FastaToFastq.StripOfEmpty | fatoq.py:10 | stripping the empty string gives the empty string |
| FastaToFastq.ReadStripped | fatoq.py:9 | stripping the line read is reading the stripped line, also past the end |
| FastaToFastq.ChunkBounds | fatoq.py:20-23 | every full chunk `[i*len_max, (i+1)*len_max)` lies within the sequence |
| FastaToFastq.ReadInfo | fatoq.py:16-29 | the text built for one read is the text of its records: the whole read when it fits, else its chunks |
| FastaToFastq.ChunksStep | fatoq.py:21-24 | the next full chunk the loop slices is the next chunk record |
| FastaToFastq.ChunksTail | fatoq.py:25-29 | after the full chunks, `seq[-lseq:]` is `seq[cnt*len_max:]`, and it makes one record exactly when `lseq` is non-zero |
| FastaToFastq.ReadStrippedLine | fatoq.py:9-15 | `f.readline().strip()` is the stripped line at the position, empty past the end |
| FastaToFastq.NextRead | fatoq.py:9-30 | one pass of the loop ends the conversion with its outcome (empty header, or unbound identifier), or appends the read's text and moves two lines on |
| FastaToFastq.ConvertFastaToFastq | fatoq.py:7-30 | the loop writes exactly `Convert` of the file: the records of every read up to the first empty header, or stops on an unbound identifier |
| FastaToFastq.ScanStep | fatoq.py:8-15 | one step of the scan: stop at an empty header, fail on an unbound identifier, or take the read and go on two lines further |
| FastaToFastq.RecordsOfOneMore | fatoq.py:30 | writing one more read appends the text of its records |
| FastaToFastq.AllRecordsAppend | fatoq.py:30 | the records of two groups of reads are those of the first, then those of the second |
| FastaToFastq.TextAppend | fatoq.py:30 | the text of two groups of records is the first text, then the second |
| FastaToFastq.ChunksRebuild | fatoq.py:20-29 | the chunks of a sequence, laid end to end, give back the sequence |
| FastaToFastq.ChunksShape | fatoq.py:20-29 | every chunk holds 1 to `len_max` bases, exactly `len_max` for all but the last, an `F` quality line as long as its bases, and chunk k is named `<read_id>_<i+k>` |
| FastaToFastq.ChunksCount | fatoq.py:20-29 | a sequence makes the fewest chunks of `len_max` that hold it: `ceil(len/len_max)`, at least two when it is longer than `len_max`, none when empty |
| FastaToFastq.RecordsRebuildRead | fatoq.py:16-29 | the records of a read give back its sequence |
| FastaToFastq.RecordsCount | fatoq.py:16-29 | a read that fits makes one record, a longer one `ceil(len/len_max)` of them |
| FastaToFastq.RecordsShape | fatoq.py:16-29 | every record holds at most `len_max` bases (exactly `len_max` for all but the last, at least one for a non-empty read), and its quality line is as many `F` characters |
| FastaToFastq.RecordsIds | fatoq.py:12-27 | a read that fits keeps its identifier and its bases; the records of a longer one are `<read_id>_0`, `<read_id>_1`, ... |
| FastaToFastq.ChunkIdsDistinct | fatoq.py:22 | different chunk indices give different identifiers |
| FastaToFastq.RecordsIdsDistinct | fatoq.py:21-27 | the records of one read have pairwise different identifiers |
| FastaToFastq.RecordTextLines | fatoq.py:17 | a record without newlines is written as exactly its four lines: identifier, bases, `+`, quality |
| FastaToFastq.TextLines | fatoq.py:17-30 | the text written is four lines per record, in order |
| FastaToFastq.ChunksHaveNoNewline | fatoq.py:20-29 | chunks of newline-free bases with a newline-free identifier hold no newline |
| FastaToFastq.RecordsHaveNoNewline | fatoq.py:16-29 | the records of a newline-free read hold no newline |
| FastaToFastq.BoundIdNeverFails | fatoq.py:12-14 | once a read identifier is bound, the conversion never fails |
| FastaToFastq.FailsIffFirstHeaderUnnamed | fatoq.py:9-17 | the conversion fails exactly when the first header is not empty and does not start with `>`, and it has then written nothing |
| FastaToFastq.ScanReadId | fatoq.py:12-15 | the read at a non-empty header is `@` plus the header without its `>` characters, or the previous identifier when there is no `>`; its bases are the next line, empty at the end of the file |
| FastaToFastq.StopsAtEmptyHeader | fatoq.py:9-11 | nothing after an empty header is read |
| FastaToFastq.StripAllAppend | fatoq.py:9 | stripping is line by line |
| FastaToFastq.EmptyHeaderEndsFile | fatoq.py:8-15 | a blank line after a whole number of header and sequence pairs ends the conversion: nothing after it is converted |
| FastaToFastq.ScanShift | fatoq.py:8-15 | each read takes exactly two lines: scanning after a prefix is scanning the rest on its own |
| FastaToFastq.StripKeeps | fatoq.py:9 | `strip()` leaves a string without white space at either end unchanged |
| FastaToFastq.HeaderOfCleanName | fatoq.py:12-14 | a header `>name` of a clean name is bound to `@name` |
| FastaToFastq.CleanLinesStripped | fatoq.py:9-15 | `strip()` leaves the lines of a well-formed FASTA file unchanged |
| FastaToFastq.ScanWellFormed | fatoq.py:8-15 | a well-formed FASTA file is read as every entry, in order, named `@name` |
| FastaToFastq.ConvertWellFormedFile | fatoq.py:7-30 | a well-formed FASTA file converts without error into the records of all its entries, in order |

## Left out

- The thread pool, `as_completed` and the `tqdm` progress bar are concurrency and display. The model takes the completion order as an input sequence and runs one loop over it.
- `fetch_srr` and the `SRAweb` client are network calls into a library that is not part of this model. `FetchSrr` stands for them: it looks the quote-stripped accession up in a given archive map, where an exception or an unknown accession gives no runs. The `print` of a failed lookup is left out.
- Filesystem I/O is left out:
  - `open`/`readlines` are a file's list of lines.
  - `os.listdir` is the input listing, in its given order.
  - `to_csv` and `os.path.exists` are the `CsvFile` lines and its "exists" flag.
  - The FASTA and FASTQ file handles are the input lines and the output text.
  - An I/O error while writing is not modelled.
- pandas is modelled as sequences of rows of eleven `Option<string>` cells. Column dtypes, the index, and the CSV quoting of values are left out.
- `down_and_update_sra.py` runs an external command in a thread pool and depends on files on disk. It is not part of this model.
- `main`, `argparse` and the `sys.argv` parsing in `fatoq.py` are left out.
- FastaToFastq.Convert: `len_max > 0` is required. With `len_max == 0` the source raises `ZeroDivisionError` on the first non-empty sequence, and a negative `len_max` slices nonsense. `len_max` comes from the command line.
- SrrBatch.AddSrrAndSave: `save_interval > 0` is required, because `% 0` raises. The only caller uses 500.
- FastaToFastq.ReadInfo: `int(len(seq) / len_max)` goes through floating point. The model uses exact integer division, which agrees for lengths below 2^53.

## Findings

| source | as written | input that shows it | evidently intended | confidence | as-written member | corrected member |
|---|---|---|---|---|---|---|
| series_to_csv.py:112-121 | A checkpoint flushes the first `save_interval` dictionary items, whether or not their lookups have completed. A lookup that completes after its key was flushed puts the key back at the end of the dictionary, and its runs can be left unwritten. | Two samples A and B, one run each, `save_interval = 1`, and B's lookup completing first. The first checkpoint flushes A while it is still empty. The second checkpoint flushes B. A's run is never written, and the loop ends without error. | Each checkpoint writes the completions since the last checkpoint, so that every completion's rows are written exactly once. | not executed | SrrBatch.LostCompletion | SrrBatch.InOrderSavesEveryCompletion |
