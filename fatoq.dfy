/**
 * The FASTA to FASTQ converter: reads header/sequence line pairs from a
 * FASTA file and writes each read as one or more four-line FASTQ records
 * whose quality string is all 'F'. A read longer than the maximum record
 * length is cut into chunks of that length plus a shorter tail, each chunk
 * named after the read with `_<index>` appended.
 *
 * The input file is the list of its lines (`readline()` past the end gives
 * the empty string) and the output file is the text written to it.
 */
module FastaToFastq {
  import opened Wrappers
  import opened PyStrings

  /** One FASTQ record: the `@` identifier line, the bases and the quality line. */
  datatype Record = Record(id: string, bases: string, qual: string)

  /**
   * Why the conversion stops early: the first header does not start with
   * '>', so the read identifier was never bound (Python's NameError).
   */
  datatype ConvertError = UnboundReadId

  /** What the converter leaves behind: the text written and the error it stopped on, if any. */
  datatype Outcome = Outcome(written: string, failed: Option<ConvertError>)

  /** A read as the converter sees it: its `@` identifier and its stripped sequence line. */
  datatype Read = Read(id: string, bases: string)

  /** The reads the converter goes through, and the error it stops on, if any. */
  datatype Scan = Scan(seen: seq<Read>, failed: Option<ConvertError>)

  // ----- One read ---------------------------------------------------------

  /** `'F' * n`: a quality string of `n` characters, all 'F'. */
  function Quality(n: nat): (q: string)
    ensures |q| == n && forall k :: 0 <= k < n ==> q[k] == 'F'
  {
    seq(n, _ => 'F')
  }

  /** `read_id + '_' + str(i)`: the identifier of chunk `i` of a long read. */
  function ChunkId(readId: string, i: nat): string {
    readId + "_" + Decimal(i)
  }

  /**
   * The chunks of `rest`, the part of a long read from chunk `i` on:
   * `len_max` bases at a time, the last chunk holding what is left.
   */
  function Chunks(readId: string, rest: string, lenMax: nat, i: nat): seq<Record>
    requires lenMax > 0
    decreases |rest|
  {
    if |rest| == 0 then []
    else
      var n := if |rest| < lenMax then |rest| else lenMax;
      [Record(ChunkId(readId, i), rest[..n], Quality(n))] + Chunks(readId, rest[n..], lenMax, i + 1)
  }

  /** The records one read becomes: itself when short enough, otherwise its chunks. */
  function Records(readId: string, s: string, lenMax: nat): seq<Record>
    requires lenMax > 0
  {
    if |s| <= lenMax then [Record(readId, s, Quality(|s|))] else Chunks(readId, s, lenMax, 0)
  }

  /** The text of one record: identifier, bases, `+` and quality, each ended by a newline. */
  function RecordText(r: Record): string {
    r.id + "\n" + r.bases + "\n+\n" + r.qual + "\n"
  }

  /** The text of several records, one after the other. */
  function Text(rs: seq<Record>): string {
    if |rs| == 0 then "" else RecordText(rs[0]) + Text(rs[1..])
  }

  /** All bases of several records, one after the other. */
  function Bases(rs: seq<Record>): string {
    if |rs| == 0 then "" else rs[0].bases + Bases(rs[1..])
  }

  /** The records of several reads, one read after the other. */
  function AllRecords(items: seq<Read>, lenMax: nat): seq<Record>
    requires lenMax > 0
  {
    if |items| == 0 then []
    else Records(items[0].id, items[0].bases, lenMax) + AllRecords(items[1..], lenMax)
  }

  /** The lines of several records: four per record. */
  function OutputLines(rs: seq<Record>): seq<string> {
    if |rs| == 0 then [] else [rs[0].id, rs[0].bases, "+", rs[0].qual] + OutputLines(rs[1..])
  }

  // ----- The file ---------------------------------------------------------

  /** `f.readline()` on the line at `pos`: the empty string past the end of the file. */
  function ReadLine(lines: seq<string>, pos: nat): (l: string)
    ensures pos >= |lines| ==> l == ""
  {
    if pos < |lines| then lines[pos] else ""
  }

  /** Every line with `strip()` applied: all the converter looks at. */
  function StripAll(lines: seq<string>): (ls: seq<string>)
    ensures |ls| == |lines|
  {
    seq(|lines|, i requires 0 <= i < |lines| => Strip(lines[i]))
  }

  /** The read identifier after a header: `'@' + name.strip('>')` when it starts with '>', else the previous one. */
  function NextReadId(name: string, readId: Option<string>): Option<string> {
    if StartsWith(name, ">") then Some("@" + StripChar(name, '>')) else readId
  }

  /**
   * The reads in the stripped lines `ls` from the header at `pos` on, with
   * `readId` the identifier bound so far: stop at an empty header, fail when
   * the identifier is unbound, else take the read and go on two lines further.
   */
  function ScanFrom(ls: seq<string>, pos: nat, readId: Option<string>): Scan
    decreases |ls| - pos
  {
    var name := ReadLine(ls, pos);
    if name == "" then Scan([], None)
    else
      var id := NextReadId(name, readId);
      if id.None? then Scan([], Some(UnboundReadId))
      else
        var rest := ScanFrom(ls, pos + 2, id);
        Scan([Read(id.value, ReadLine(ls, pos + 1))] + rest.seen, rest.failed)
  }

  /** The reads of a whole FASTA file. */
  function ScanFile(lines: seq<string>): Scan {
    ScanFrom(StripAll(lines), 0, None)
  }

  /** The whole conversion of a FASTA file: the records of every read it goes through. */
  function Convert(lines: seq<string>, lenMax: nat): Outcome
    requires lenMax > 0
  {
    var sc := ScanFile(lines);
    Outcome(Text(AllRecords(sc.seen, lenMax)), sc.failed)
  }

  lemma StripOfEmpty()
    ensures Strip("") == ""
  {
    assert TrimLeft("", WhiteSpace) == "";
  }

  /** Stripping the line read is reading the stripped line, also past the end of the file. */
  lemma ReadStripped(lines: seq<string>, pos: nat)
    ensures Strip(ReadLine(lines, pos)) == ReadLine(StripAll(lines), pos)
  {
    if pos >= |lines| {
      StripOfEmpty();
    }
  }

  // ----- The program ------------------------------------------------------

  /** Division facts the chunk arithmetic relies on. */
  lemma ChunkBounds(n: nat, lenMax: nat, i: nat)
    requires lenMax > 0 && i < n / lenMax
    ensures (i + 1) * lenMax == i * lenMax + lenMax
    ensures (i + 1) * lenMax <= (n / lenMax) * lenMax <= n
  {
  }

  /**
   * The text of one read, built as the source builds `read_info`:
   * `int(len / len_max)` full chunks by slicing, then the `len % len_max`
   * bases left over, if any.
   */
  method ReadInfo(readId: string, s: string, lenMax: nat) returns (info: string)
    requires lenMax > 0
    ensures info == Text(Records(readId, s, lenMax))
  {
    if |s| <= lenMax {
      info := RecordText(Record(readId, s, Quality(|s|)));
      assert info == RecordText(Record(readId, s, Quality(|s|))) + Text([]);
    } else {
      info := "";
      var cnt := |s| / lenMax;
      var i := 0;
      assert s[0 * lenMax..] == s;
      while i < cnt
        invariant 0 <= i <= cnt && i * lenMax <= |s|
        invariant info + Text(Chunks(readId, s[i * lenMax..], lenMax, i)) == Text(Records(readId, s, lenMax))
      {
        ChunkBounds(|s|, lenMax, i);
        var tmpId := readId + "_" + Decimal(i);
        var tmpSeq := s[i * lenMax..(i + 1) * lenMax];
        ChunksStep(readId, s, lenMax, i);
        info := info + RecordText(Record(tmpId, tmpSeq, Quality(lenMax)));
        i := i + 1;
      }
      var lseq := |s| % lenMax;
      ChunksTail(readId, s, lenMax);
      if lseq != 0 {
        var tmpId := readId + "_" + Decimal(cnt);
        var tmpSeq := s[|s| - lseq..];
        info := info + RecordText(Record(tmpId, tmpSeq, Quality(lseq)));
      }
    }
  }

  /** The next full chunk of a long read, as `ReadInfo` slices it. */
  lemma ChunksStep(readId: string, s: string, lenMax: nat, i: nat)
    requires lenMax > 0 && (i + 1) * lenMax == i * lenMax + lenMax <= |s|
    ensures Text(Chunks(readId, s[i * lenMax..], lenMax, i))
      == RecordText(Record(ChunkId(readId, i), s[i * lenMax..(i + 1) * lenMax], Quality(lenMax)))
         + Text(Chunks(readId, s[(i + 1) * lenMax..], lenMax, i + 1))
  {
    var rest := s[i * lenMax..];
    assert rest[..lenMax] == s[i * lenMax..(i + 1) * lenMax];
    assert rest[lenMax..] == s[(i + 1) * lenMax..];
    var head := Record(ChunkId(readId, i), rest[..lenMax], Quality(lenMax));
    var tail := Chunks(readId, rest[lenMax..], lenMax, i + 1);
    assert Chunks(readId, rest, lenMax, i) == [head] + tail;
    assert ([head] + tail)[1..] == tail;
  }

  /** What is left after the full chunks of a long read: `len % len_max` bases, as one record if any. */
  lemma ChunksTail(readId: string, s: string, lenMax: nat)
    requires lenMax > 0
    ensures var cnt := |s| / lenMax;
            var lseq := |s| % lenMax;
            && cnt * lenMax <= |s|
            && |s| - lseq == cnt * lenMax
            && Text(Chunks(readId, s[cnt * lenMax..], lenMax, cnt))
               == (if lseq != 0 then RecordText(Record(ChunkId(readId, cnt), s[|s| - lseq..], Quality(lseq))) else "")
  {
    var cnt := |s| / lenMax;
    var lseq := |s| % lenMax;
    var rest := s[cnt * lenMax..];
    assert |rest| == lseq < lenMax;
    if lseq != 0 {
      assert rest[..lseq] == rest;
      assert rest[lseq..] == [];
      var r := Record(ChunkId(readId, cnt), rest, Quality(lseq));
      assert Chunks(readId, rest, lenMax, cnt) == [r] + [];
      assert Text([r]) == RecordText(r) + Text([]);
    }
  }

  /** `f.readline().strip()` on the line at `pos`. */
  method ReadStrippedLine(lines: seq<string>, pos: nat) returns (l: string)
    ensures l == ReadLine(StripAll(lines), pos)
    ensures pos >= |lines| ==> l == ""
  {
    l := Strip(ReadLine(lines, pos));
    ReadStripped(lines, pos);
  }

  /**
   * What the converter's loop keeps: `out` is the text of the reads `done`
   * so far, and those reads followed by the scan from the header at `pos` make
   * the scan of the whole file.
   */
  ghost predicate Progress(lines: seq<string>, lenMax: nat, pos: nat, readId: Option<string>,
                           done: seq<Read>, out: string)
    requires lenMax > 0
  {
    && ScanFile(lines).seen == done + ScanFrom(StripAll(lines), pos, readId).seen
    && ScanFile(lines).failed == ScanFrom(StripAll(lines), pos, readId).failed
    && out == Text(AllRecords(done, lenMax))
  }

  /**
   * One pass of the converter's loop: read the header and bind the
   * identifier, read the sequence line and build the text of the read. It
   * either ends the conversion (empty header or unbound identifier) or keeps
   * `Progress` two lines further with the read's text appended.
   */
  method NextRead(lines: seq<string>, lenMax: nat, pos: nat, readId: Option<string>, ghost done: seq<Read>, out: string)
    returns (stop: bool, id: Option<string>, info: string, ghost r: Read)
    requires lenMax > 0 && Progress(lines, lenMax, pos, readId, done, out)
    ensures stop ==> Convert(lines, lenMax) == Outcome(out, None)
    ensures !stop && id.None? ==> Convert(lines, lenMax) == Outcome(out, Some(UnboundReadId))
    ensures !stop && id.Some? ==> pos < |lines| && Progress(lines, lenMax, pos + 2, id, done + [r], out + info)
  {
    ScanStep(StripAll(lines), pos, readId);
    var name := ReadStrippedLine(lines, pos);
    stop := name == "";
    id := readId;
    info := "";
    r := Read("", "");
    if stop {
      assert done + [] == done;
      return;
    }
    id := NextReadId(name, readId);
    var s := ReadStrippedLine(lines, pos + 1);
    if id.None? {
      assert done + [] == done;
      return;
    }
    info := ReadInfo(id.value, s, lenMax);
    r := Read(id.value, s);
    ghost var next := ScanFrom(StripAll(lines), pos + 2, id).seen;
    AppendAssociates(done, [r], next);
    RecordsOfOneMore(done, r, lenMax);
  }

  /** The converter's main loop: header, sequence, records, until an empty header. */
  method ConvertFastaToFastq(lines: seq<string>, lenMax: nat) returns (out: string, failed: Option<ConvertError>)
    requires lenMax > 0
    ensures Outcome(out, failed) == Convert(lines, lenMax)
  {
    out := "";
    failed := None;
    var pos := 0;
    var readId: Option<string> := None;
    ghost var done: seq<Read> := [];
    assert [] + ScanFile(lines).seen == ScanFile(lines).seen;
    while true
      invariant pos <= |lines| + 1 && Progress(lines, lenMax, pos, readId, done, out)
      decreases |lines| + 1 - pos
    {
      var stop, id, info, r := NextRead(lines, lenMax, pos, readId, done, out);
      if stop {
        break;
      }
      readId := id;
      if readId.None? {
        failed := Some(UnboundReadId);
        return;
      }
      out := out + info;
      done := done + [r];
      pos := pos + 2;
    }
  }

  /** What one step of `ScanFrom` does, for the loop above. */
  lemma ScanStep(ls: seq<string>, pos: nat, readId: Option<string>)
    ensures ReadLine(ls, pos) == "" ==> ScanFrom(ls, pos, readId) == Scan([], None)
    ensures ReadLine(ls, pos) != "" ==> pos < |ls|
    ensures ReadLine(ls, pos) != "" && NextReadId(ReadLine(ls, pos), readId).None? ==>
      ScanFrom(ls, pos, readId) == Scan([], Some(UnboundReadId))
    ensures ReadLine(ls, pos) != "" && NextReadId(ReadLine(ls, pos), readId).Some? ==>
      var id := NextReadId(ReadLine(ls, pos), readId);
      ScanFrom(ls, pos, readId)
        == Scan([Read(id.value, ReadLine(ls, pos + 1))] + ScanFrom(ls, pos + 2, id).seen, ScanFrom(ls, pos + 2, id).failed)
  {
  }

  /** Writing one more read appends its records' text. */
  lemma RecordsOfOneMore(done: seq<Read>, r: Read, lenMax: nat)
    requires lenMax > 0
    ensures Text(AllRecords(done + [r], lenMax)) == Text(AllRecords(done, lenMax)) + Text(Records(r.id, r.bases, lenMax))
  {
    AllRecordsAppend(done, [r], lenMax);
    assert AllRecords([r], lenMax) == Records(r.id, r.bases, lenMax) + AllRecords([], lenMax);
    assert Records(r.id, r.bases, lenMax) + [] == Records(r.id, r.bases, lenMax);
    TextAppend(AllRecords(done, lenMax), Records(r.id, r.bases, lenMax));
  }

  lemma {:induction false} AllRecordsAppend(a: seq<Read>, b: seq<Read>, lenMax: nat)
    requires lenMax > 0
    ensures AllRecords(a + b, lenMax) == AllRecords(a, lenMax) + AllRecords(b, lenMax)
  {
    if |a| > 0 {
      assert (a + b)[1..] == a[1..] + b;
      AllRecordsAppend(a[1..], b, lenMax);
      AppendAssociates(Records(a[0].id, a[0].bases, lenMax), AllRecords(a[1..], lenMax), AllRecords(b, lenMax));
    } else {
      assert a + b == b;
    }
  }

  lemma {:induction false} TextAppend(a: seq<Record>, b: seq<Record>)
    ensures Text(a + b) == Text(a) + Text(b)
  {
    if |a| > 0 {
      assert (a + b)[1..] == a[1..] + b;
      TextAppend(a[1..], b);
      AppendAssociates(RecordText(a[0]), Text(a[1..]), Text(b));
    } else {
      assert a + b == b;
    }
  }

  // ----- Properties of one read -------------------------------------------

  /** The chunks of `rest` give back its bases, in order. */
  lemma {:induction false} ChunksRebuild(readId: string, rest: string, lenMax: nat, i: nat)
    requires lenMax > 0
    ensures Bases(Chunks(readId, rest, lenMax, i)) == rest
    decreases |rest|
  {
    if |rest| > 0 {
      var n := if |rest| < lenMax then |rest| else lenMax;
      var head := Record(ChunkId(readId, i), rest[..n], Quality(n));
      var tail := Chunks(readId, rest[n..], lenMax, i + 1);
      ChunksRebuild(readId, rest[n..], lenMax, i + 1);
      assert ([head] + tail)[1..] == tail;
      assert rest[..n] + rest[n..] == rest;
    }
  }

  /**
   * Every chunk of `rest` holds between one and `len_max` bases, exactly
   * `len_max` for all but the last, with a quality line of as many 'F'
   * characters, and chunk `k` is named `<read_id>_<i + k>`.
   */
  lemma {:induction false} ChunksShape(readId: string, rest: string, lenMax: nat, i: nat)
    requires lenMax > 0
    ensures forall k :: 0 <= k < |Chunks(readId, rest, lenMax, i)| ==>
              && 0 < |Chunks(readId, rest, lenMax, i)[k].bases| <= lenMax
              && (k < |Chunks(readId, rest, lenMax, i)| - 1 ==> |Chunks(readId, rest, lenMax, i)[k].bases| == lenMax)
              && Chunks(readId, rest, lenMax, i)[k].qual == Quality(|Chunks(readId, rest, lenMax, i)[k].bases|)
              && Chunks(readId, rest, lenMax, i)[k].id == ChunkId(readId, i + k)
    decreases |rest|
  {
    if |rest| > 0 {
      var cs := Chunks(readId, rest, lenMax, i);
      var n := if |rest| < lenMax then |rest| else lenMax;
      var tail := Chunks(readId, rest[n..], lenMax, i + 1);
      ChunksShape(readId, rest[n..], lenMax, i + 1);
      assert cs[1..] == tail;
      assert |tail| > 0 ==> n == lenMax;
      forall k | 1 <= k < |cs| ensures cs[k] == tail[k - 1] {
      }
    }
  }

  /**
   * `rest` makes no chunk when empty, otherwise the fewest chunks of
   * `len_max` bases that hold it: `ceil(len / len_max)`, at least two when
   * it is longer than `len_max`.
   */
  lemma {:induction false} ChunksCount(readId: string, rest: string, lenMax: nat, i: nat)
    requires lenMax > 0
    ensures var m := |Chunks(readId, rest, lenMax, i)|;
            && (|rest| == 0 <==> m == 0)
            && (|rest| > 0 ==> (m - 1) * lenMax < |rest| <= m * lenMax)
            && (|rest| > lenMax ==> m >= 2)
    decreases |rest|
  {
    if |rest| > 0 {
      var n := if |rest| < lenMax then |rest| else lenMax;
      var m' := |Chunks(readId, rest[n..], lenMax, i + 1)|;
      ChunksCount(readId, rest[n..], lenMax, i + 1);
      assert (m' + 1) * lenMax == m' * lenMax + lenMax;
    }
  }

  /** The records of a read give back its bases, in order. */
  lemma RecordsRebuildRead(readId: string, s: string, lenMax: nat)
    requires lenMax > 0
    ensures Bases(Records(readId, s, lenMax)) == s
  {
    if |s| <= lenMax {
      assert Bases([Record(readId, s, Quality(|s|))]) == s + Bases([]);
    } else {
      ChunksRebuild(readId, s, lenMax, 0);
    }
  }

  /**
   * A read becomes one record when it fits, else `ceil(len / len_max)`
   * records: the fewest records of `len_max` bases that hold the whole read.
   */
  lemma RecordsCount(readId: string, s: string, lenMax: nat)
    requires lenMax > 0
    ensures |s| <= lenMax ==> |Records(readId, s, lenMax)| == 1
    ensures |s| > lenMax ==>
      var n := |Records(readId, s, lenMax)|;
      n >= 2 && (n - 1) * lenMax < |s| <= n * lenMax
  {
    ChunksCount(readId, s, lenMax, 0);
  }

  /**
   * Every record of a read holds at most `len_max` bases (exactly `len_max`
   * for all but the last), at least one when the read is not empty, and a
   * quality line of as many 'F' characters.
   */
  lemma RecordsShape(readId: string, s: string, lenMax: nat)
    requires lenMax > 0
    ensures forall i :: 0 <= i < |Records(readId, s, lenMax)| ==>
              && |Records(readId, s, lenMax)[i].bases| <= lenMax
              && (|s| > 0 ==> |Records(readId, s, lenMax)[i].bases| > 0)
              && (i < |Records(readId, s, lenMax)| - 1 ==> |Records(readId, s, lenMax)[i].bases| == lenMax)
              && Records(readId, s, lenMax)[i].qual == Quality(|Records(readId, s, lenMax)[i].bases|)
  {
    if |s| > lenMax {
      ChunksShape(readId, s, lenMax, 0);
    }
  }

  /** A short read keeps its identifier; the chunks of a long one are `<read_id>_0`, `<read_id>_1`, ... */
  lemma RecordsIds(readId: string, s: string, lenMax: nat)
    requires lenMax > 0
    ensures |s| <= lenMax ==> Records(readId, s, lenMax) == [Record(readId, s, Quality(|s|))]
    ensures |s| > lenMax ==>
      forall i :: 0 <= i < |Records(readId, s, lenMax)| ==> Records(readId, s, lenMax)[i].id == readId + "_" + Decimal(i)
  {
    if |s| > lenMax {
      ChunksShape(readId, s, lenMax, 0);
    }
  }

  /** Different chunk indices give different identifiers. */
  lemma ChunkIdsDistinct(readId: string, i: nat, j: nat)
    requires i != j
    ensures ChunkId(readId, i) != ChunkId(readId, j)
  {
    var p := |readId| + 1;
    if ChunkId(readId, i) == ChunkId(readId, j) {
      assert ChunkId(readId, i)[p..] == Decimal(i);
      assert ChunkId(readId, j)[p..] == Decimal(j);
      DecimalInjective(i, j);
    }
  }

  /** The records of one read have pairwise different identifiers. */
  lemma RecordsIdsDistinct(readId: string, s: string, lenMax: nat)
    requires lenMax > 0
    ensures forall i, j :: 0 <= i < j < |Records(readId, s, lenMax)| ==>
              Records(readId, s, lenMax)[i].id != Records(readId, s, lenMax)[j].id
  {
    var rs := Records(readId, s, lenMax);
    if |s| > lenMax {
      RecordsIds(readId, s, lenMax);
      forall i, j | 0 <= i < j < |rs| ensures rs[i].id != rs[j].id {
        ChunkIdsDistinct(readId, i, j);
      }
    }
  }

  // ----- Properties of the output text ------------------------------------

  predicate NoNewline(r: Record) {
    '\n' !in r.id && '\n' !in r.bases && '\n' !in r.qual
  }

  /** A record without newlines in its fields is written as exactly its four lines. */
  lemma RecordTextLines(r: Record, t: string)
    requires NoNewline(r)
    ensures Split(RecordText(r) + t, '\n') == [r.id, r.bases, "+", r.qual] + Split(t, '\n')
  {
    var nl := '\n';
    var rest := Split(t, nl);
    assert RecordText(r) + t == r.id + [nl] + (r.bases + [nl] + ("+" + [nl] + (r.qual + [nl] + t)));
    FourLines(r.id, r.bases, r.qual, t);
    assert [r.id] + ([r.bases] + (["+"] + ([r.qual] + rest))) == [r.id, r.bases, "+", r.qual] + rest;
  }

  /** Four newline-free lines, each ended by a newline, split off in front of `t`. */
  lemma FourLines(a: string, b: string, q: string, t: string)
    requires '\n' !in a && '\n' !in b && '\n' !in q
    ensures Split(a + ['\n'] + (b + ['\n'] + ("+" + ['\n'] + (q + ['\n'] + t))), '\n')
      == [a] + ([b] + (["+"] + ([q] + Split(t, '\n'))))
  {
    var nl := '\n';
    var d := q + [nl] + t;
    var c := "+" + [nl] + d;
    var e := b + [nl] + c;
    SplitAfterSeparator(q, t, nl);
    SplitAfterSeparator("+", d, nl);
    SplitAfterSeparator(b, c, nl);
    SplitAfterSeparator(a, e, nl);
  }

  /** The text of records splits into four lines per record (plus the empty piece after the last newline). */
  lemma {:induction false} TextLines(rs: seq<Record>)
    requires forall i :: 0 <= i < |rs| ==> NoNewline(rs[i])
    ensures Split(Text(rs), '\n') == OutputLines(rs) + [""]
  {
    if |rs| > 0 {
      TextLines(rs[1..]);
      RecordTextLines(rs[0], Text(rs[1..]));
    }
  }

  /** Chunks cut from bases without newlines, named from an identifier without one, hold no newline. */
  lemma {:induction false} ChunksHaveNoNewline(readId: string, rest: string, lenMax: nat, i: nat)
    requires lenMax > 0 && '\n' !in readId && '\n' !in rest
    ensures forall r :: r in Chunks(readId, rest, lenMax, i) ==> NoNewline(r)
    decreases |rest|
  {
    if |rest| > 0 {
      var cs := Chunks(readId, rest, lenMax, i);
      var n := if |rest| < lenMax then |rest| else lenMax;
      var tail := Chunks(readId, rest[n..], lenMax, i + 1);
      assert '\n' !in rest[n..] by {
        assert forall j :: 0 <= j < |rest| - n ==> rest[n..][j] == rest[n + j];
      }
      ChunksHaveNoNewline(readId, rest[n..], lenMax, i + 1);
      assert '\n' !in rest[..n] by {
        assert forall j :: 0 <= j < n ==> rest[..n][j] == rest[j];
      }
      assert '\n' !in Decimal(i) by {
        assert forall j :: 0 <= j < |Decimal(i)| ==> '0' <= Decimal(i)[j] <= '9';
      }
      assert NoNewline(cs[0]);
      assert cs == [cs[0]] + tail;
    }
  }

  /** The records of a read whose bases hold no newline have no newline in any field. */
  lemma RecordsHaveNoNewline(readId: string, s: string, lenMax: nat)
    requires lenMax > 0 && '\n' !in readId && '\n' !in s
    ensures forall i :: 0 <= i < |Records(readId, s, lenMax)| ==> NoNewline(Records(readId, s, lenMax)[i])
  {
    var rs := Records(readId, s, lenMax);
    if |s| > lenMax {
      ChunksHaveNoNewline(readId, s, lenMax, 0);
      assert forall i :: 0 <= i < |rs| ==> rs[i] in rs;
    } else {
      assert '\n' !in Quality(|s|);
    }
  }

  // ----- Properties of the whole conversion -------------------------------

  /** Once a read identifier is bound the conversion never fails. */
  lemma {:induction false} BoundIdNeverFails(ls: seq<string>, pos: nat, readId: string)
    ensures ScanFrom(ls, pos, Some(readId)).failed == None
    decreases |ls| - pos
  {
    var name := ReadLine(ls, pos);
    if name != "" {
      BoundIdNeverFails(ls, pos + 2, NextReadId(name, Some(readId)).value);
    }
  }

  /**
   * The conversion fails exactly when the first header is not empty and does
   * not start with '>'; it has then written nothing.
   */
  lemma FailsIffFirstHeaderUnnamed(lines: seq<string>, lenMax: nat)
    requires lenMax > 0
    ensures Convert(lines, lenMax).failed.Some? <==>
      |lines| > 0 && Strip(lines[0]) != "" && !StartsWith(Strip(lines[0]), ">")
    ensures Convert(lines, lenMax).failed.Some? ==> Convert(lines, lenMax).written == ""
  {
    var ls := StripAll(lines);
    var name := ReadLine(ls, 0);
    if name != "" {
      assert name == Strip(lines[0]);
      if StartsWith(name, ">") {
        BoundIdNeverFails(ls, 2, "@" + StripChar(name, '>'));
      }
    }
  }

  /**
   * The read at a non-empty header is identified by `@` and the header
   * without its '>' characters, or by the previous read's identifier when the
   * header has no '>'; its bases are the next line, empty at the end of the
   * file.
   */
  lemma ScanReadId(ls: seq<string>, pos: nat, readId: string)
    requires pos < |ls| && ls[pos] != ""
    ensures |ScanFrom(ls, pos, Some(readId)).seen| > 0
    ensures ScanFrom(ls, pos, Some(readId)).seen[0].bases == (if pos + 1 < |ls| then ls[pos + 1] else "")
    ensures StartsWith(ls[pos], ">") ==>
      ScanFrom(ls, pos, Some(readId)).seen[0].id == "@" + StripChar(ls[pos], '>')
    ensures !StartsWith(ls[pos], ">") ==> ScanFrom(ls, pos, Some(readId)).seen[0].id == readId
  {
  }

  /** Nothing after an empty header at a header position is read. */
  lemma {:induction false} StopsAtEmptyHeader(ls: seq<string>, tail: seq<string>, pos: nat, readId: Option<string>)
    requires pos <= |ls| && (|ls| - pos) % 2 == 0
    ensures ScanFrom(ls + [""] + tail, pos, readId) == ScanFrom(ls, pos, readId)
    decreases |ls| - pos
  {
    var all := ls + [""] + tail;
    if pos < |ls| {
      assert ReadLine(all, pos) == ReadLine(ls, pos);
      assert ReadLine(all, pos + 1) == ReadLine(ls, pos + 1);
      var name := ReadLine(ls, pos);
      if name != "" {
        StopsAtEmptyHeader(ls, tail, pos + 2, NextReadId(name, readId));
      }
    } else {
      assert ReadLine(all, pos) == "";
    }
  }

  lemma StripAllAppend(a: seq<string>, b: seq<string>)
    ensures StripAll(a + b) == StripAll(a) + StripAll(b)
  {
    assert forall i :: 0 <= i < |a + b| ==> StripAll(a + b)[i] == (StripAll(a) + StripAll(b))[i];
  }

  /**
   * A line that is empty once stripped, after a whole number of header and
   * sequence pairs, ends the file: nothing after it is converted.
   */
  lemma EmptyHeaderEndsFile(lines: seq<string>, blank: string, tail: seq<string>, lenMax: nat)
    requires lenMax > 0 && |lines| % 2 == 0 && Strip(blank) == ""
    ensures Convert(lines + [blank] + tail, lenMax) == Convert(lines, lenMax)
  {
    StripAllAppend(lines + [blank], tail);
    StripAllAppend(lines, [blank]);
    assert StripAll([blank]) == [""];
    StopsAtEmptyHeader(StripAll(lines), StripAll(tail), 0, None);
  }

  /** Scanning after a prefix of lines is scanning the rest on its own. */
  lemma {:induction false} ScanShift(pre: seq<string>, rest: seq<string>, pos: nat, readId: Option<string>)
    ensures ScanFrom(pre + rest, |pre| + pos, readId) == ScanFrom(rest, pos, readId)
    decreases |rest| - pos
  {
    var all := pre + rest;
    assert ReadLine(all, |pre| + pos) == ReadLine(rest, pos);
    assert ReadLine(all, |pre| + pos + 1) == ReadLine(rest, pos + 1);
    var name := ReadLine(rest, pos);
    if name != "" {
      ScanShift(pre, rest, pos + 2, NextReadId(name, readId));
    }
  }

  // ----- A reference: well-formed FASTA -----------------------------------

  /** An entry of a well-formed FASTA file: its name (after '>') and its bases. */
  datatype FastaEntry = FastaEntry(name: string, bases: string)

  /** A name that survives `strip()` and `strip('>')` unchanged. */
  predicate CleanName(n: string) {
    |n| > 0 && !IsSpace(n[0]) && !IsSpace(n[|n| - 1]) && n[0] != '>' && n[|n| - 1] != '>'
  }

  /** Bases that survive `strip()` unchanged. */
  predicate CleanBases(b: string) {
    |b| == 0 || (!IsSpace(b[0]) && !IsSpace(b[|b| - 1]))
  }

  predicate CleanEntry(e: FastaEntry) {
    CleanName(e.name) && CleanBases(e.bases)
  }

  /** The lines of a FASTA file holding `entries`: `>name` then the bases, per entry. */
  function FastaLines(entries: seq<FastaEntry>): seq<string> {
    if |entries| == 0 then [] else [">" + entries[0].name, entries[0].bases] + FastaLines(entries[1..])
  }

  /** The reads of `entries`, each identified by `@name`. */
  function Named(entries: seq<FastaEntry>): seq<Read> {
    if |entries| == 0 then [] else [Read("@" + entries[0].name, entries[0].bases)] + Named(entries[1..])
  }

  lemma StripKeeps(s: string)
    requires |s| == 0 || (!IsSpace(s[0]) && !IsSpace(s[|s| - 1]))
    ensures Strip(s) == s
  {
    assert LeadCount(s, WhiteSpace) == 0;
    assert TrimLeft(s, WhiteSpace) == s;
    assert TrailCount(s, WhiteSpace) == 0;
  }

  lemma HeaderOfCleanName(n: string)
    requires CleanName(n)
    ensures Strip(">" + n) == ">" + n
    ensures StartsWith(">" + n, ">")
    ensures StripChar(">" + n, '>') == n
  {
    var h := ">" + n;
    StripKeeps(h);
    assert h[1..] == n;
    assert LeadCount(n, OnlyChar('>')) == 0;
    assert LeadCount(h, OnlyChar('>')) == 1;
    assert TrimLeft(h, OnlyChar('>')) == n;
    assert TrailCount(n, OnlyChar('>')) == 0;
  }

  /** The lines of a well-formed FASTA file are left as they are by `strip()`. */
  lemma {:induction false} CleanLinesStripped(entries: seq<FastaEntry>)
    requires forall i :: 0 <= i < |entries| ==> CleanEntry(entries[i])
    ensures StripAll(FastaLines(entries)) == FastaLines(entries)
  {
    if |entries| > 0 {
      var e := entries[0];
      assert CleanEntry(e);
      HeaderOfCleanName(e.name);
      StripKeeps(e.bases);
      CleanLinesStripped(entries[1..]);
      var pre := [">" + e.name, e.bases];
      StripAllAppend(pre, FastaLines(entries[1..]));
      assert StripAll(pre) == pre;
    }
  }

  /** Scanning the lines of a well-formed FASTA file gives every entry, in order, named `@name`. */
  lemma {:induction false} ScanWellFormed(entries: seq<FastaEntry>, readId: Option<string>)
    requires forall i :: 0 <= i < |entries| ==> CleanEntry(entries[i])
    ensures ScanFrom(FastaLines(entries), 0, readId) == Scan(Named(entries), None)
  {
    if |entries| > 0 {
      var lines := FastaLines(entries);
      var e := entries[0];
      assert CleanEntry(e);
      HeaderOfCleanName(e.name);
      var pre := [">" + e.name, e.bases];
      assert lines == pre + FastaLines(entries[1..]);
      assert ReadLine(lines, 0) == ">" + e.name;
      assert ReadLine(lines, 1) == e.bases;
      var id := Some("@" + e.name);
      ScanShift(pre, FastaLines(entries[1..]), 0, id);
      ScanWellFormed(entries[1..], id);
    }
  }

  /**
   * A well-formed FASTA file converts without error into the records of all
   * its entries, in order, each entry's records identified from `@name`.
   */
  lemma ConvertWellFormedFile(entries: seq<FastaEntry>, lenMax: nat)
    requires lenMax > 0
    requires forall i :: 0 <= i < |entries| ==> CleanEntry(entries[i])
    ensures Convert(FastaLines(entries), lenMax) == Outcome(Text(AllRecords(Named(entries), lenMax)), None)
  {
    CleanLinesStripped(entries);
    ScanWellFormed(entries, None);
  }
}
