/** What is reported after the frame loop: which parts of the report,
    the log and the CSV file are written, the frame column of their
    rows, and the names of the two files.  File contents other than the
    frame column (the printf'ed floating-point fields) are left out. */
module Report {
  import opened Text
  import opened Benchmark
  import PreScan

  /** Width of the frame column of the log's performance table. */
  const FRAME_COLUMN_WIDTH: nat := 12

  // ---------------------------------------------------------------------
  // Gating
  // ---------------------------------------------------------------------

  /** bRuntimeTooShort: set when the elapsed time is under 500 ms. */
  predicate TooShort(elapsedMS: int) {
    elapsedMS < PreScan.MIN_RUNTIME as int
  }

  /** The FPS, memory and CPU summary is printed once a whole stride of
      frames was read. */
  predicate WritesStatistics(framesRead: nat, interval: nat) {
    framesRead >= interval
  }

  /** The [Runtime info] block is printed only for a run that was not too
      short, and its statistics lines only once a whole stride was read. */
  predicate PrintsStatistics(elapsedMS: int, framesRead: nat, interval: nat) {
    !TooShort(elapsedMS) && WritesStatistics(framesRead, interval)
  }

  /** The log's [Performance data] table needs a record and a run that
      was not too short. */
  predicate WritesLogTable(records: nat, tooShort: bool) {
    records > 0 && !tooShort
  }

  /** The CSV file is created only when asked for, for a run that was not
      too short and raised no engine error. */
  predicate AttemptsCsv(createCSV: bool, tooShort: bool, avsError: string) {
    createCSV && !tooShort && avsError == ""
  }

  /** The CSV file gets its header and rows only with two records or more. */
  predicate WritesCsvRows(records: nat) {
    records > 1
  }

  /** For a run the loop did not abort, the stride test of the summary
      holds exactly when there is at least one performance record, so the
      statistics are printed exactly when the run was not too short and
      there is a record. */
  lemma StatisticsIffRecords(cfg: Config, samples: seq<Sample>)
    requires ValidRun(cfg, samples)
    ensures var o := RunFrom(cfg, samples, 0, Initial(cfg));
      !o.end.Failed? ==> (WritesStatistics(o.st.framesRead, cfg.interval) <==> |o.st.perf| >= 1)
    ensures var o := RunFrom(cfg, samples, 0, Initial(cfg));
      !o.end.Failed? ==>
        (PrintsStatistics(o.st.elapsedMS, o.st.framesRead, cfg.interval) <==>
           !TooShort(o.st.elapsedMS) && |o.st.perf| >= 1)
  {
    RunRecordCount(cfg, samples);
    var o := RunFrom(cfg, samples, 0, Initial(cfg));
    if !o.end.Failed? {
      StatisticsGate(o.st.elapsedMS, o.st.framesRead, cfg.interval, |o.st.perf|);
    }
  }

  /** The summary gates over one stride count. */
  lemma StatisticsGate(elapsedMS: int, framesRead: nat, interval: nat, records: nat)
    requires interval >= 1 && records == framesRead / interval
    ensures WritesStatistics(framesRead, interval) <==> records >= 1
    ensures PrintsStatistics(elapsedMS, framesRead, interval) <==> !TooShort(elapsedMS) && records >= 1
  {
    DivAtLeast(framesRead, interval, 1);
  }

  /** A completed run that was long enough writes the log table exactly
      when the range holds at least one stride, and CSV rows exactly when
      it holds at least two. */
  lemma CompletedRunTables(cfg: Config, samples: seq<Sample>)
    requires ValidRun(cfg, samples)
    requires RunFrom(cfg, samples, 0, Initial(cfg)).end == Completed
    ensures var o := RunFrom(cfg, samples, 0, Initial(cfg));
      WritesLogTable(|o.st.perf|, TooShort(o.st.elapsedMS)) <==>
        cfg.range.toProcess >= cfg.interval && !TooShort(o.st.elapsedMS)
    ensures var o := RunFrom(cfg, samples, 0, Initial(cfg));
      WritesCsvRows(|o.st.perf|) <==> cfg.range.toProcess >= 2 * cfg.interval
  {
    RunRecordCount(cfg, samples);
    DivAtLeast(cfg.range.toProcess, cfg.interval, 1);
    DivAtLeast(cfg.range.toProcess, cfg.interval, 2);
  }

  /** At least m strides fit exactly when the quotient is at least m. */
  lemma DivAtLeast(n: nat, d: nat, m: nat)
    requires d >= 1
    ensures n / d >= m <==> n >= m * d
  {
    var q := n / d;
    assert n == q * d + n % d;
    if q >= m {
      MulMonotone(m, q, d);
    } else {
      MulMonotone(q + 1, m, d);
    }
  }

  // ---------------------------------------------------------------------
  // Row layout
  // ---------------------------------------------------------------------

  /** `frame + 1` as the log's and the CSV's `%u` prints it (an unsigned
      int, so the frame 4294967295 would print as 0). */
  function PrintedFrame(frame: nat): nat {
    U32(frame + 1)
  }

  /** The log row's frame column: `12 - len` spaces, then the number.  A
      32-bit number has at most ten digits, so the padding never goes
      negative. */
  function LogFrameColumn(frame: nat): string {
    var digits := Decimal(PrintedFrame(frame));
    assert Pow10(10) == 10000000000 by { Pow10Values(); }
    DecimalLength(PrintedFrame(frame), 10);
    Repeat(' ', FRAME_COLUMN_WIDTH - |digits|) + digits
  }

  /** The frame column is always 12 characters wide and right-aligned:
      stripping the leading spaces and reading the digits back gives the
      frame number plus one. */
  lemma LogFrameColumnSpec(frame: nat)
    requires frame + 1 < UINT32_MODULUS
    ensures |LogFrameColumn(frame)| == FRAME_COLUMN_WIDTH
    ensures var col := LogFrameColumn(frame);
      var k := |Decimal(frame + 1)|;
      1 <= k <= 10 &&
      (forall i :: 0 <= i < FRAME_COLUMN_WIDTH - k ==> col[i] == ' ') &&
      col[FRAME_COLUMN_WIDTH - k..] == Decimal(frame + 1) &&
      DigitsValue(col[FRAME_COLUMN_WIDTH - k..]) == frame + 1
  {
    assert Pow10(10) == 10000000000 by { Pow10Values(); }
    DecimalLength(frame + 1, 10);
    DecimalRoundTrip(frame + 1);
    var col := LogFrameColumn(frame);
    var k := |Decimal(frame + 1)|;
    assert col == Repeat(' ', FRAME_COLUMN_WIDTH - k) + Decimal(frame + 1);
    assert col[FRAME_COLUMN_WIDTH - k..] == Decimal(frame + 1);
  }

  /** A CSV row: the printed frame, then the other fields after a comma. */
  function CsvRow(frame: nat, otherFields: string): string {
    Decimal(PrintedFrame(frame)) + "," + otherFields
  }

  /** The CSV row's first field, up to the first comma, reads back as the
      frame number plus one. */
  lemma CsvRowFrameField(frame: nat, otherFields: string)
    requires frame + 1 < UINT32_MODULUS
    ensures var row := CsvRow(frame, otherFields);
      var p := FindFirstOf(row, {','}, 0);
      p.Some? && AllDigits(row[..p.value]) && DigitsValue(row[..p.value]) == frame + 1
  {
    var d := Decimal(frame + 1);
    var row := CsvRow(frame, otherFields);
    DecimalRoundTrip(frame + 1);
    assert row[|d|] == ',';
    var p := FindFirstOf(row, {','}, 0);
    assert p.Some?;
    assert p.value == |d|;
    assert row[..p.value] == d;
  }

  // ---------------------------------------------------------------------
  // File names
  // ---------------------------------------------------------------------

  /** The log (ext ".log") or CSV (ext ".csv") name next to the script:
      the script path without its last four characters when it is longer
      than four, then " [date time]" when the suffix is switched on. */
  function OutputFileName(avsFile: string, dateTime: Option<string>, ext: string): string {
    var base := if |avsFile| > 4 then avsFile[..|avsFile| - 4] else avsFile;
    var suffix := if dateTime.Some? then " [" + dateTime.value + "]" else "";
    base + suffix + ext
  }

  /** The output file takes the script's name with ".avs" replaced. */
  lemma OutputFileNameSpec(avsFile: string, dateTime: Option<string>, ext: string)
    ensures EndsWith(OutputFileName(avsFile, dateTime, ext), ext)
    ensures var r := OutputFileName(avsFile, dateTime, ext);
      |avsFile| > 4 && EndsWith(avsFile, ".avs") && dateTime.None? ==> r[..|r| - |ext|] + ".avs" == avsFile
    ensures |avsFile| > 4 ==> StartsWith(OutputFileName(avsFile, dateTime, ext), avsFile[..|avsFile| - 4])
  {
    var r := OutputFileName(avsFile, dateTime, ext);
    if |avsFile| > 4 {
      assert r[..|avsFile| - 4] == avsFile[..|avsFile| - 4];
      if EndsWith(avsFile, ".avs") && dateTime.None? {
        assert r[..|r| - |ext|] == avsFile[..|avsFile| - 4];
        assert avsFile == avsFile[..|avsFile| - 4] + ".avs";
      }
    }
  }

  /** The highest position from `i` down to 1 that holds a backslash
      (position 0 is never looked at). */
  function LastSeparator(s: string, i: nat): (r: Option<nat>)
    requires i < |s|
    ensures r.Some? ==> 1 <= r.value <= i && s[r.value] == '\\'
    ensures r.Some? ==> forall j :: r.value < j <= i ==> s[j] != '\\'
    ensures r.None? ==> forall j :: 1 <= j <= i ==> s[j] != '\\'
  {
    if i == 0 then None
    else if s[i] == '\\' then Some(i)
    else LastSeparator(s, i - 1)
  }

  /** With a log directory configured, the directory part of the name is
      replaced by it; a name without a backslash after its first
      character keeps its place. */
  function Redirected(name: string, logDirectory: string): string
    requires |name| >= 1
  {
    if logDirectory == "" then name
    else match LastSeparator(name, |name| - 1)
      case None => name
      case Some(p) => logDirectory + "\\" + name[p + 1..]
  }

  /** The backward search loop of the source. */
  method RedirectToLogDirectory(name: string, logDirectory: string) returns (r: string)
    requires |name| >= 1
    ensures r == Redirected(name, logDirectory)
  {
    r := name;
    if logDirectory != "" {
      var pos := |name| - 1;
      while pos > 0
        invariant 0 <= pos < |name|
        invariant LastSeparator(name, |name| - 1) == LastSeparator(name, pos)
        decreases pos
      {
        if name[pos] == '\\' {
          r := logDirectory + "\\" + name[pos + 1..];
          break;
        }
        pos := pos - 1;
      }
    }
  }

  /** With a log directory, a name with a backslash after its first
      character becomes the directory, a backslash and the part after the
      name's last backslash; any other name is kept. */
  lemma RedirectedSpec(name: string, logDirectory: string)
    requires |name| >= 1 && logDirectory != ""
    ensures LastSeparator(name, |name| - 1).None? ==> Redirected(name, logDirectory) == name
    ensures LastSeparator(name, |name| - 1).Some? ==>
      var p := LastSeparator(name, |name| - 1).value;
      Redirected(name, logDirectory) == logDirectory + "\\" + name[p + 1..] &&
      '\\' !in name[p + 1..]
  {
    var found := LastSeparator(name, |name| - 1);
    if found.Some? {
      NoSeparatorAfter(name, found.value);
    }
  }

  lemma NoSeparatorAfter(name: string, p: nat)
    requires p < |name| && forall j :: p < j <= |name| - 1 ==> name[j] != '\\'
    ensures '\\' !in name[p + 1..]
  {
    var rest := name[p + 1..];
    forall c | 0 <= c < |rest|
      ensures rest[c] != '\\'
    {
      assert rest[c] == name[p + 1 + c];
    }
  }

  /** Redirection keeps the file's own name, so the result still ends
      with the extension. */
  lemma RedirectedKeepsFileName(name: string, logDirectory: string, ext: string)
    requires |name| >= 1 && logDirectory != ""
    requires EndsWith(name, ext) && '\\' !in ext
    ensures EndsWith(Redirected(name, logDirectory), ext)
  {
    var found := LastSeparator(name, |name| - 1);
    if found.Some? {
      AfterLastSeparator(name, found.value, logDirectory, ext);
    }
  }

  lemma AfterLastSeparator(name: string, p: nat, logDirectory: string, ext: string)
    requires p < |name| && name[p] == '\\' && forall j :: p < j < |name| ==> name[j] != '\\'
    requires EndsWith(name, ext) && '\\' !in ext
    ensures EndsWith(logDirectory + "\\" + name[p + 1..], ext)
  {
    var rest := name[p + 1..];
    SuffixOfSlice(name, p + 1, |ext|);
    SuffixOfConcat(logDirectory + "\\", rest, |ext|);
  }

  lemma SuffixOfSlice(s: string, i: nat, k: nat)
    requires i + k <= |s|
    ensures s[i..][|s| - i - k..] == s[|s| - k..]
  {
  }

  lemma SuffixOfConcat(a: string, b: string, k: nat)
    requires k <= |b|
    ensures (a + b)[|a + b| - k..] == b[|b| - k..]
  {
  }
}
