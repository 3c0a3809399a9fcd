/** The two sources of settings: the command-line switches of main and
    the lines of AVSMeter.ini read by ParseINIFile.  Files, directories
    and the INI file itself are given as values: the set of existing
    directories and files, and the INI file's lines. */
module Options {
  import opened Text
  import opened Utility
  import Benchmark

  /** The start and stop frame of a frame range that did not parse. */
  const INVALID_FRAME: int := 0xFF_FFFF_FFFF
  /** The largest time limit, in seconds. */
  const MAX_TIME_LIMIT: int := 999999

  // ---------------------------------------------------------------------
  // Values shared by both sources
  // ---------------------------------------------------------------------

  datatype RangeSpec = RangeSpec(start: int, stop: int)

  /** The text after "FrameRange=" or "-range=": at least three
      characters, a comma at position 1 to 27, and IsNumeric on both
      sides; each side is then read with _atoi64. */
  function SplitRange(t: string): Option<RangeSpec> {
    if |t| < 3 then None
    else match Find(t, ",")
      case None => None
      case Some(p) =>
        if p < 1 || p > 27 then None
        else if Numeric(t[..p]) && Numeric(t[p + 1..]) then Some(RangeSpec(Atoi64(t[..p]), Atoi64(t[p + 1..])))
        else None
  }

  /** A range text is accepted exactly when its first comma is at
      position 1 to 27 with IsNumeric text on both sides. */
  lemma SplitRangeSpec(t: string)
    ensures SplitRange(t).Some? <==>
      exists p :: 1 <= p <= 27 && p < |t| && OccursAt(t, ",", p) && (forall j: nat :: j < p ==> !OccursAt(t, ",", j)) &&
                  Numeric(t[..p]) && Numeric(t[p + 1..])
    ensures SplitRange(t).Some? ==>
      exists p :: 1 <= p <= 27 && p < |t| && t[p] == ',' &&
                  SplitRange(t).value == RangeSpec(Atoi64(t[..p]), Atoi64(t[p + 1..]))
  {
    var f := Find(t, ",");
    if SplitRange(t).Some? {
      assert OccursAt(t, ",", f.value);
      assert t[f.value..f.value + 1] == ",";
      assert t[f.value] == ',';
    }
    if exists p :: 1 <= p <= 27 && p < |t| && OccursAt(t, ",", p) && (forall j: nat :: j < p ==> !OccursAt(t, ",", j)) &&
                  Numeric(t[..p]) && Numeric(t[p + 1..]) {
      var p :| 1 <= p <= 27 && p < |t| && OccursAt(t, ",", p) && (forall j: nat :: j < p ==> !OccursAt(t, ",", j)) &&
               Numeric(t[..p]) && Numeric(t[p + 1..]);
      assert Contains(t, ",");
      assert f.Some?;
      assert f.value == p;
      assert Numeric(t[p + 1..]) && |t[p + 1..]| >= 1;
    }
  }

  /** A range the INI parser could not read leaves both ends at the
      invalid marker, which the benchmark then refuses for every clip (a
      clip has fewer than 2^32 frames). */
  lemma InvalidMarkerRefused(frames: nat, rangeText: string)
    requires frames < UINT32_MODULUS
    ensures Benchmark.ResolveRange(INVALID_FRAME, INVALID_FRAME, frames, rangeText).RangeError?
  {
  }

  /** A process priority, as the source reads it: IsNumeric, then atol
      truncated to a BYTE, then accepted when the byte is 1, 2 or 3. */
  datatype PriorityResult = NotNumeric | OutOfRange(value: int) | Priority(level: nat)

  function ByteOf(x: int): nat {
    x % 256
  }

  function PriorityAsWritten(t: string): PriorityResult {
    if !Numeric(t) then NotNumeric
    else
      var b := ByteOf(Atoi(t));
      if b < 1 || b > 3 then OutOfRange(b) else Priority(b)
  }

  /** The check meant for the number itself, before any narrowing. */
  function PriorityChecked(t: string): PriorityResult {
    if !Numeric(t) then NotNumeric
    else
      var v := Atoi(t);
      if v < 1 || v > 3 then OutOfRange(v) else Priority(v)
  }

  /** As written the cast runs before the check, so "257" (and "258",
      "259", "-255", ...) passes as a priority that was never asked for. */
  lemma PriorityCastAcceptsOutOfRange()
    ensures Atoi("257") == 257
    ensures PriorityAsWritten("257") == Priority(1)
    ensures forall t :: Numeric(t) && 1 <= ByteOf(Atoi(t)) <= 3 ==> PriorityAsWritten(t).Priority?
  {
    assert DigitRun("257") == 3;
    assert "257"[..3] == "257";
    assert DigitsValue("257") == 257 by {
      assert "257"[..2] == "25";
      assert "25"[..1] == "2";
    }
    assert ParseLeadingInt("257") == 257;
  }

  /** The checked priority accepts exactly the numbers 1 to 3 and keeps
      the number; it agrees with the source on every input the source
      reads as a number from 0 to 255. */
  lemma PriorityCheckedSpec(t: string)
    ensures PriorityChecked(t).Priority? <==> Numeric(t) && 1 <= Atoi(t) <= 3
    ensures PriorityChecked(t).Priority? ==> PriorityChecked(t).level == Atoi(t)
    ensures Numeric(t) && 0 <= Atoi(t) < 256 ==> PriorityChecked(t) == PriorityAsWritten(t)
  {
  }

  /** A time limit: IsNumeric, then atoi; the INI also takes -1 for "no
      limit", the command line takes only 1 to 999999. */
  datatype TimeLimitResult = TimeLimitNotNumeric | TimeLimitOutOfRange(value: int) | TimeLimit(seconds: int)

  function ReadTimeLimit(t: string, allowNoLimit: bool): TimeLimitResult {
    if !Numeric(t) then TimeLimitNotNumeric
    else
      var v := Atoi(t);
      if allowNoLimit && v == -1 then TimeLimit(v)
      else if v < 1 || v > MAX_TIME_LIMIT then TimeLimitOutOfRange(v)
      else TimeLimit(v)
  }

  /** An accepted time limit is -1 (only from the INI) or 1 to 999999
      seconds, so the frame loop's `limit * 1000` stays below 2^31. */
  lemma ReadTimeLimitSpec(t: string, allowNoLimit: bool)
    ensures var r := ReadTimeLimit(t, allowNoLimit);
      r.TimeLimit? <==> Numeric(t) && ((allowNoLimit && Atoi(t) == -1) || 1 <= Atoi(t) <= MAX_TIME_LIMIT)
    ensures var r := ReadTimeLimit(t, allowNoLimit);
      r.TimeLimit? ==> r.seconds == Atoi(t) && r.seconds * 1000 <= INT32_MAX &&
                       (r.seconds == -1 || 1 <= r.seconds)
  {
  }

  // ---------------------------------------------------------------------
  // Command-line switches
  // ---------------------------------------------------------------------

  /** What one command-line argument is, once trimmed and lower-cased. */
  datatype Switch =
    | AvsInfoMode                       // "avsinfo"
    | CustomAvsDll                      // "-avsdll"
    | CustomPluginDir                   // "-c"
    | OmitPreScan                       // "-o"
    | LogFunctions                      // "-lf"
    | InfoOnly                          // "-i", "-info"
    | CreateLog                         // "-l", "-log"
    | CreateCsv                         // "-csv"
    | GpuInfo                           // "-gpu"
    | RangeSwitch(range: Option<RangeSpec>)
    | PrioritySwitch(priority: PriorityResult)
    | TimeLimitSwitch(limit: TimeLimitResult)
    | ScriptFile                        // longer than four, ends in ".avs"
    | OtherArgument                     // auto-completion or "Invalid argument"

  function ArgumentKey(arg: string): string {
    StrToLC(StrTrim(arg))
  }

  /** The chain of tests in main's argument loop, in its order. */
  function ClassifyArgument(arg: string): Switch {
    var a := ArgumentKey(arg);
    if a == "avsinfo" then AvsInfoMode
    else if a == "-avsdll" then CustomAvsDll
    else if a == "-c" then CustomPluginDir
    else if a == "-o" then OmitPreScan
    else if a == "-lf" then LogFunctions
    else if a == "-i" || a == "-info" then InfoOnly
    else if a == "-l" || a == "-log" then CreateLog
    else if a == "-csv" then CreateCsv
    else if a == "-gpu" then GpuInfo
    else if StartsWith(a, "-range=") then RangeSwitch(SplitRange(a[7..]))
    else if StartsWith(a, "-priority=") then PrioritySwitch(PriorityAsWritten(a[10..]))
    else if StartsWith(a, "-timelimit=") then TimeLimitSwitch(ReadTimeLimit(a[11..], false))
    else if |a| > 4 && EndsWith(a, ".avs") then ScriptFile
    else OtherArgument
  }

  /** Switches are recognised regardless of case and of surrounding
      white space: two arguments with the same key are the same switch. */
  lemma ClassifyIgnoresCaseAndBlanks(a: string, b: string)
    requires ArgumentKey(a) == ArgumentKey(b)
    ensures ClassifyArgument(a) == ClassifyArgument(b)
  {
  }

  /** "-range=" and "-timelimit=" take their value from the lower-cased
      argument; a script is any other argument ending in ".avs" in any
      case. */
  lemma ClassifyScript(arg: string)
    requires |ArgumentKey(arg)| > 4 && EndsWith(ArgumentKey(arg), ".avs")
    requires !StartsWith(ArgumentKey(arg), "-")
    ensures ClassifyArgument(arg) == ScriptFile
  {
    var a := ArgumentKey(arg);
    assert a[0] != '-';
    assert !StartsWith(a, "-range=") && !StartsWith(a, "-priority=") && !StartsWith(a, "-timelimit=");
  }

  // ---------------------------------------------------------------------
  // AVSMeter.ini
  // ---------------------------------------------------------------------

  /** The on/off settings, by their INI key, in the order ParseINIFile
      tests them. */
  const BoolKeys: seq<string> := [
    "displayfps", "displaytpf", "createlog", "createcsv", "logfiledatetimesuffix",
    "pausebeforeexit", "invokedistributor", "allowonlyoneinstance", "monitorgpuload",
    "usecolor", "conusestdout", "displayefficiencyindex", "logestimatedtime",
    "autocompleteextension", "logusefilesavedialog"]

  /** The settings ParseINIFile writes; the on/off settings are kept by
      INI key (monitorgpuload is bGPUInfo). */
  datatype Settings = Settings(
    logDirectory: string,
    avsDll: string,
    startFrame: int,
    stopFrame: int,
    processPriority: nat,
    timeLimit: int,
    frameRange: string,
    flags: map<string, bool>)

  /** The defaults set before the file is read. */
  function Defaults(): Settings {
    Settings("", "", 0, -1, 2, -1, "",
      map["displayfps" := true, "displaytpf" := false, "createlog" := false, "createcsv" := false,
          "logfiledatetimesuffix" := false, "pausebeforeexit" := false, "invokedistributor" := true,
          "allowonlyoneinstance" := true, "monitorgpuload" := false, "usecolor" := true,
          "conusestdout" := false, "displayefficiencyindex" := false, "logestimatedtime" := false,
          "autocompleteextension" := false, "logusefilesavedialog" := false])
  }

  /** Which directories and files exist (DirectoryExists, FileExists). */
  datatype FileSystem = FileSystem(dirs: set<string>, files: set<string>)

  /** What a settings value promises once ParseINIFile accepted it: every
      on/off setting is there, the log directory and the DLL exist when
      given, the priority is 1 to 3 and the time limit -1 or 1 to 999999. */
  ghost predicate Accepted(s: Settings, fs: FileSystem) {
    (forall k :: k in BoolKeys ==> k in s.flags) &&
    (s.logDirectory == "" || s.logDirectory in fs.dirs) &&
    (s.avsDll == "" || s.avsDll in fs.files) &&
    1 <= s.processPriority <= 3 &&
    (s.timeLimit == -1 || 1 <= s.timeLimit <= MAX_TIME_LIMIT)
  }

  lemma DefaultsAccepted(fs: FileSystem)
    ensures Accepted(Defaults(), fs)
    ensures Defaults().startFrame == 0 && Defaults().stopFrame == -1 && Defaults().timeLimit == -1
  {
  }

  /** The line's processed form; the original-case form is StrTrim(line). */
  function LineKey(line: string): string {
    StrTrim(StrToLC(StrTrim(line)))
  }

  /** s.substr(pos): std::out_of_range when pos is past the end. */
  function Substr(s: string, pos: nat): Option<string> {
    if pos <= |s| then Some(s[pos..]) else None
  }

  /** std::remove of every ' '. */
  function RemoveSpaces(s: string): (r: string)
    ensures forall i :: 0 <= i < |r| ==> r[i] != ' '
    ensures |r| <= |s|
  {
    if s == [] then []
    else if s[0] == ' ' then RemoveSpaces(s[1..])
    else [s[0]] + RemoveSpaces(s[1..])
  }

  /** The value of an on/off line: longer than three characters and
      ending in "=0" or "=1". */
  function BoolValue(key: string): Option<bool> {
    if |key| > 3 && EndsWith(key, "=0") then Some(false)
    else if |key| > 3 && EndsWith(key, "=1") then Some(true)
    else None
  }

  /** The on/off tests in order: every key the line starts with is set. */
  function ApplyFlags(flags: map<string, bool>, key: string, v: bool, keys: seq<string>): map<string, bool>
    decreases keys
  {
    if keys == [] then flags
    else ApplyFlags(if StartsWith(key, keys[0]) then flags[keys[0] := v] else flags, key, v, keys[1..])
  }

  /** The effect of one line: go on with new settings, return an error
      text, or throw std::out_of_range from a substr (which nothing
      catches). */
  datatype LineResult = Continue(s: Settings) | Fail(msg: string) | Aborted

  function ApplyLine(s: Settings, line: string, fs: FileSystem): LineResult {
    var org := StrTrim(line);
    var key := LineKey(line);
    if StartsWith(key, "#") || key == "" then Continue(s)
    else if StartsWith(key, "logdirectory") then LogDirectoryLine(s, org, fs)
    else if StartsWith(key, "avsdll") then AvsDllLine(s, org, fs)
    else if StartsWith(key, "processpriority") then PriorityLine(s, org, key)
    else if StartsWith(key, "timelimit") then TimeLimitLine(s, org, key)
    else if StartsWith(key, "framerange") then FrameRangeLine(s, org, key)
    else FlagLine(s, key)
  }

  /** "LogDirectory=": the value after the 13th character, without
      trailing backslashes, trimmed; it must be an existing directory or
      empty. */
  function LogDirectoryLine(s: Settings, org: string, fs: FileSystem): LineResult {
    match Substr(org, 13)
    case None => Aborted
    case Some(d) =>
      var dir := StrTrim(match FindLastNotOf(d, {'\\'}) case None => "" case Some(i) => d[..i + 1]);
      if dir !in fs.dirs && dir != "" then
        Fail("\nLog directory specified in AVSMeter.ini does not exist:\n\"" + dir + "\"\n")
      else Continue(s.(logDirectory := dir))
  }

  /** "AVSDLL=": the trimmed value must be an existing file or empty. */
  function AvsDllLine(s: Settings, org: string, fs: FileSystem): LineResult {
    match Substr(org, 7)
    case None => Aborted
    case Some(d) =>
      var dll := StrTrim(d);
      if dll !in fs.files && dll != "" then
        Fail("\nThe file specified in AVSMeter.ini does not exist:\nAVSDLL=" + dll + "\n")
      else Continue(s.(avsDll := dll))
  }

  /** "ProcessPriority=": read as the command line reads "-priority=". */
  function PriorityLine(s: Settings, org: string, key: string): LineResult {
    match Substr(key, 16)
    case None => Aborted
    case Some(t) =>
      match PriorityAsWritten(t)
      case NotNumeric => Fail("\nINI setting is invalid:\n\"" + org + "\"\nThe value must '1', '2' or '3'\n")
      case OutOfRange(_) => Fail("\nINI setting is invalid:\n\"" + org + "\"\nThe value must be '1', '2' or '3'\n")
      case Priority(level) => Continue(s.(processPriority := level))
  }

  function TimeLimitMessage(org: string): string {
    "\nINI setting is invalid:\n\"" + org + "\"\nValue must be '-1' (no time limit) or between '1' and '999999'\n"
  }

  /** "TimeLimit=": -1 or 1 to 999999. */
  function TimeLimitLine(s: Settings, org: string, key: string): LineResult {
    match Substr(key, 10)
    case None => Aborted
    case Some(t) =>
      match ReadTimeLimit(t, true)
      case TimeLimit(v) => Continue(s.(timeLimit := v))
      case _ => Fail(TimeLimitMessage(org))
  }

  /** "FrameRange=": the text is kept, both ends are first set to the
      invalid marker and then read from the value with its spaces
      removed; a value that does not split leaves the markers. */
  function FrameRangeLine(s: Settings, org: string, key: string): LineResult {
    var s1 := s.(frameRange := org, startFrame := INVALID_FRAME, stopFrame := INVALID_FRAME);
    match Substr(RemoveSpaces(key), 11)
    case None => Aborted
    case Some(t) =>
      match SplitRange(t)
      case None => Continue(s1)
      case Some(r) => Continue(s1.(startFrame := r.start, stopFrame := r.stop))
  }

  /** Any other line: an on/off setting when it ends in "=0" or "=1"
      (every key it starts with is set), otherwise ignored. */
  function FlagLine(s: Settings, key: string): LineResult {
    match BoolValue(key)
    case None => Continue(s)
    case Some(v) => Continue(s.(flags := ApplyFlags(s.flags, key, v, BoolKeys)))
  }

  /** The outcome of ParseINIFile. */
  datatype IniResult = IniOk(s: Settings) | IniError(msg: string) | IniAborted

  /** The read loop over the INI file's lines. */
  function ParseLines(s: Settings, lines: seq<string>, fs: FileSystem): IniResult
    decreases lines
  {
    if lines == [] then IniOk(s)
    else match ApplyLine(s, lines[0], fs)
      case Continue(s') => ParseLines(s', lines[1..], fs)
      case Fail(msg) => IniError(msg)
      case Aborted => IniAborted
  }

  /** The INI file: missing, present but not readable, or its lines. */
  datatype IniFile = Missing | Unreadable | Lines(lines: seq<string>)

  /** The defaults over the settings before the call: sFrameRange is the
      one field ParseINIFile does not reset. */
  function Reset(prior: Settings): Settings {
    Defaults().(frameRange := prior.frameRange)
  }

  /** ParseINIFile: defaults, then the lines; the file is (re)written with
      the settings afterwards, which can fail. */
  function ParseINI(prior: Settings, file: IniFile, iniPath: string, fs: FileSystem, canWrite: bool): IniResult {
    match file
    case Missing => if canWrite then IniOk(Reset(prior)) else IniError("\nCannot create \"" + iniPath + "\"\n")
    case Unreadable => IniError("\nCannot open \"" + iniPath + "\"\n")
    case Lines(lines) =>
      match ParseLines(Reset(prior), lines, fs)
      case IniOk(s) => if canWrite then IniOk(s) else IniError("\nCannot create \"" + iniPath + "\"\n")
      case other => other
  }

  // ---------------------------------------------------------------------
  // What the INI rules guarantee
  // ---------------------------------------------------------------------

  lemma {:induction false} ApplyFlagsKeepsKeys(flags: map<string, bool>, key: string, v: bool, keys: seq<string>)
    requires forall k :: k in keys ==> k in BoolKeys
    ensures ApplyFlags(flags, key, v, keys).Keys == flags.Keys + (set k | k in keys && StartsWith(key, k))
    decreases keys
  {
    if keys != [] {
      ApplyFlagsKeepsKeys(if StartsWith(key, keys[0]) then flags[keys[0] := v] else flags, key, v, keys[1..]);
      assert keys == [keys[0]] + keys[1..];
    }
  }

  /** The on/off tests set every listed key the line starts with to the
      line's value and leave every other entry alone. */
  lemma {:induction false} ApplyFlagsValue(flags: map<string, bool>, key: string, v: bool, keys: seq<string>)
    requires forall k :: k in keys ==> k in flags
    ensures ApplyFlags(flags, key, v, keys).Keys == flags.Keys
    ensures forall k :: k in flags ==>
      ApplyFlags(flags, key, v, keys)[k] == if k in keys && StartsWith(key, k) then v else flags[k]
    decreases keys
  {
    if keys != [] {
      var next := if StartsWith(key, keys[0]) then flags[keys[0] := v] else flags;
      ApplyFlagsValue(next, key, v, keys[1..]);
      assert keys == [keys[0]] + keys[1..];
      forall k | k in flags
        ensures ApplyFlags(flags, key, v, keys)[k] == if k in keys && StartsWith(key, k) then v else flags[k]
      {
        if k == keys[0] && StartsWith(key, k) {
          assert next[k] == v;
        }
      }
    }
  }

  /** An on/off line changes only the flags: each table key the line
      starts with gets the value of its last digit; a line with no such
      value changes nothing. */
  lemma FlagLineSpec(s: Settings, key: string)
    requires forall k :: k in BoolKeys ==> k in s.flags
    ensures FlagLine(s, key).Continue?
    ensures BoolValue(key).None? ==> FlagLine(s, key).s == s
    ensures BoolValue(key).Some? ==>
      var r := FlagLine(s, key).s;
      r == s.(flags := r.flags) && r.flags.Keys == s.flags.Keys &&
      forall k :: k in s.flags ==>
        r.flags[k] == if k in BoolKeys && StartsWith(key, k) then BoolValue(key).value else s.flags[k]
  {
    if BoolValue(key).Some? {
      ApplyFlagsValue(s.flags, key, BoolValue(key).value, BoolKeys);
    }
  }

  /** A line is an on/off setting exactly when it is longer than three
      characters and ends in "=0" or "=1"; the value is its last digit. */
  lemma BoolValueSpec(key: string)
    ensures BoolValue(key).Some? <==> |key| > 3 && key[|key| - 1] in {'0', '1'} && key[|key| - 2] == '='
    ensures BoolValue(key).Some? ==> (BoolValue(key).value <==> key[|key| - 1] == '1')
  {
    if |key| > 3 {
      assert EndsWith(key, "=0") <==> key[|key| - 2..] == "=0";
      assert key[|key| - 2..] == [key[|key| - 2], key[|key| - 1]];
    }
  }

  /** Every line that does not stop the parse keeps Accepted. */
  lemma ApplyLineKeepsAccepted(s: Settings, line: string, fs: FileSystem)
    requires Accepted(s, fs)
    ensures ApplyLine(s, line, fs).Continue? ==> Accepted(ApplyLine(s, line, fs).s, fs)
  {
    var org := StrTrim(line);
    var key := LineKey(line);
    if StartsWith(key, "#") || key == "" {
    } else if StartsWith(key, "logdirectory") {
      LogDirectoryLineKeeps(s, org, fs);
    } else if StartsWith(key, "avsdll") {
      AvsDllLineKeeps(s, org, fs);
    } else if StartsWith(key, "processpriority") {
      PriorityLineKeeps(s, org, key, fs);
    } else if StartsWith(key, "timelimit") {
      TimeLimitLineKeeps(s, org, key, fs);
    } else if StartsWith(key, "framerange") {
      FrameRangeLineKeeps(s, org, key, fs);
    } else {
      FlagLineKeeps(s, key, fs);
    }
  }

  lemma LogDirectoryLineKeeps(s: Settings, org: string, fs: FileSystem)
    requires Accepted(s, fs)
    ensures LogDirectoryLine(s, org, fs).Continue? ==> Accepted(LogDirectoryLine(s, org, fs).s, fs)
  {
  }

  lemma AvsDllLineKeeps(s: Settings, org: string, fs: FileSystem)
    requires Accepted(s, fs)
    ensures AvsDllLine(s, org, fs).Continue? ==> Accepted(AvsDllLine(s, org, fs).s, fs)
  {
  }

  lemma PriorityLineKeeps(s: Settings, org: string, key: string, fs: FileSystem)
    requires Accepted(s, fs)
    ensures PriorityLine(s, org, key).Continue? ==> Accepted(PriorityLine(s, org, key).s, fs)
  {
  }

  lemma TimeLimitLineKeeps(s: Settings, org: string, key: string, fs: FileSystem)
    requires Accepted(s, fs)
    ensures TimeLimitLine(s, org, key).Continue? ==> Accepted(TimeLimitLine(s, org, key).s, fs)
  {
  }

  lemma FrameRangeLineKeeps(s: Settings, org: string, key: string, fs: FileSystem)
    requires Accepted(s, fs)
    ensures FrameRangeLine(s, org, key).Continue? ==> Accepted(FrameRangeLine(s, org, key).s, fs)
  {
  }

  lemma FlagLineKeeps(s: Settings, key: string, fs: FileSystem)
    requires Accepted(s, fs)
    ensures FlagLine(s, key).Continue? ==> Accepted(FlagLine(s, key).s, fs)
  {
    match BoolValue(key)
    case None =>
    case Some(v) => ApplyFlagsKeepsKeys(s.flags, key, v, BoolKeys);
  }

  /** A parse that gets through every line ends with Accepted settings. */
  lemma {:induction false} ParseLinesKeepsAccepted(s: Settings, lines: seq<string>, fs: FileSystem)
    requires Accepted(s, fs)
    ensures ParseLines(s, lines, fs).IniOk? ==> Accepted(ParseLines(s, lines, fs).s, fs)
    decreases lines
  {
    if lines != [] {
      ApplyLineKeepsAccepted(s, lines[0], fs);
      if ApplyLine(s, lines[0], fs).Continue? {
        ParseLinesKeepsAccepted(ApplyLine(s, lines[0], fs).s, lines[1..], fs);
      }
    }
  }

  /** Whatever the file holds, settings ParseINIFile accepts are Accepted. */
  lemma ParseINIAccepted(prior: Settings, file: IniFile, iniPath: string, fs: FileSystem, canWrite: bool)
    ensures var r := ParseINI(prior, file, iniPath, fs, canWrite);
      r.IniOk? ==> Accepted(r.s, fs)
  {
    DefaultsAccepted(fs);
    if file.Lines? {
      ParseLinesKeepsAccepted(Reset(prior), file.lines, fs);
    }
  }

  /** Comment lines and blank lines change nothing. */
  predicate Ignorable(line: string) {
    var key := LineKey(line);
    StartsWith(key, "#") || key == ""
  }

  lemma {:induction false} IgnorableLinesKeepSettings(s: Settings, lines: seq<string>, fs: FileSystem)
    requires forall i :: 0 <= i < |lines| ==> Ignorable(lines[i])
    ensures ParseLines(s, lines, fs) == IniOk(s)
  {
    if lines != [] {
      assert Ignorable(lines[0]);
      IgnorableLinesKeepSettings(s, lines[1..], fs);
    }
  }

  /** A framerange line goes to FrameRangeLine: the keys tested before it
      all differ from "framerange" in their first character. */
  lemma FrameRangeLineDispatch(s: Settings, line: string, fs: FileSystem)
    requires StartsWith(LineKey(line), "framerange")
    ensures ApplyLine(s, line, fs) == FrameRangeLine(s, StrTrim(line), LineKey(line))
  {
    var key := LineKey(line);
    FirstCharDiffers(key, "framerange", "#");
    FirstCharDiffers(key, "framerange", "logdirectory");
    FirstCharDiffers(key, "framerange", "avsdll");
    FirstCharDiffers(key, "framerange", "processpriority");
    FirstCharDiffers(key, "framerange", "timelimit");
  }

  lemma FirstCharDiffers(key: string, p: string, q: string)
    requires StartsWith(key, p) && |p| >= 1 && |q| >= 1 && p[0] != q[0]
    ensures !StartsWith(key, q) && key != ""
  {
    assert key[0] == p[0];
  }

  /** A framerange line records its text, changes nothing but the range,
      and, unless its value splits, leaves both ends at the invalid
      marker; it throws only when the value is missing altogether. */
  lemma FrameRangeLineSpec(s: Settings, org: string, key: string)
    ensures FrameRangeLine(s, org, key).Aborted? <==> |RemoveSpaces(key)| < 11
    ensures var r := FrameRangeLine(s, org, key);
      r.Continue? ==>
        var range := SplitRange(RemoveSpaces(key)[11..]);
        r.s == s.(frameRange := org, startFrame := r.s.startFrame, stopFrame := r.s.stopFrame) &&
        (range.None? ==> r.s.startFrame == INVALID_FRAME && r.s.stopFrame == INVALID_FRAME) &&
        (range.Some? ==> RangeSpec(r.s.startFrame, r.s.stopFrame) == range.value)
  {
  }

  // ---------------------------------------------------------------------
  // The global Settings and ParseINIFile
  // ---------------------------------------------------------------------

  /** How one line ends: next line, return an error text, or an uncaught
      std::out_of_range. */
  datatype LineStatus = NextLine | ReturnError(msg: string) | Throws

  function StatusOf(r: LineResult): LineStatus {
    match r
    case Continue(_) => NextLine
    case Fail(msg) => ReturnError(msg)
    case Aborted => Throws
  }

  /** The program's global Settings record, which ParseINIFile overwrites
      field by field. */
  class GlobalSettings {
    var current: Settings

    /** The global starts from the defaults, which ParseINIFile then
        resets (all but the frame range) before reading the file. */
    constructor()
      ensures current == Defaults()
    {
      current := Defaults();
    }

    /** The body of the read loop for one line. */
    method ReadLine(line: string, fs: FileSystem) returns (status: LineStatus)
      modifies this
      ensures status == StatusOf(ApplyLine(old(current), line, fs))
      ensures status == NextLine ==> current == ApplyLine(old(current), line, fs).s
    {
      var org := StrTrim(line);
      var key := StrTrim(StrToLC(org));
      if StartsWith(key, "#") || key == "" {
        status := NextLine;
      } else if StartsWith(key, "logdirectory") {
        status := ReadLogDirectory(org, fs);
      } else if StartsWith(key, "avsdll") {
        status := ReadAvsDll(org, fs);
      } else if StartsWith(key, "processpriority") {
        status := ReadPriority(org, key);
      } else if StartsWith(key, "timelimit") {
        status := ReadTimeLimitLine(org, key);
      } else if StartsWith(key, "framerange") {
        status := ReadFrameRange(org, key);
      } else {
        ReadFlags(key);
        status := NextLine;
      }
    }

    method ReadLogDirectory(org: string, fs: FileSystem) returns (status: LineStatus)
      modifies this
      ensures status == StatusOf(LogDirectoryLine(old(current), org, fs))
      ensures status == NextLine ==> current == LogDirectoryLine(old(current), org, fs).s
    {
      if |org| < 13 {
        return Throws;
      }
      var d := org[13..];
      var last := FindLastNotOf(d, {'\\'});
      d := if last.None? then "" else d[..last.value + 1];
      d := StrTrim(d);
      if d !in fs.dirs && d != "" {
        return ReturnError("\nLog directory specified in AVSMeter.ini does not exist:\n\"" + d + "\"\n");
      }
      current := current.(logDirectory := d);
      return NextLine;
    }

    method ReadAvsDll(org: string, fs: FileSystem) returns (status: LineStatus)
      modifies this
      ensures status == StatusOf(AvsDllLine(old(current), org, fs))
      ensures status == NextLine ==> current == AvsDllLine(old(current), org, fs).s
    {
      if |org| < 7 {
        return Throws;
      }
      var d := StrTrim(org[7..]);
      if d !in fs.files && d != "" {
        return ReturnError("\nThe file specified in AVSMeter.ini does not exist:\nAVSDLL=" + d + "\n");
      }
      current := current.(avsDll := d);
      return NextLine;
    }

    method ReadPriority(org: string, key: string) returns (status: LineStatus)
      modifies this
      ensures status == StatusOf(PriorityLine(old(current), org, key))
      ensures status == NextLine ==> current == PriorityLine(old(current), org, key).s
    {
      if |key| < 16 {
        return Throws;
      }
      var t := key[16..];
      var numeric := IsNumeric(t);
      if !numeric {
        return ReturnError("\nINI setting is invalid:\n\"" + org + "\"\nThe value must '1', '2' or '3'\n");
      }
      var b := ByteOf(Atoi(t));
      if b < 1 || b > 3 {
        return ReturnError("\nINI setting is invalid:\n\"" + org + "\"\nThe value must be '1', '2' or '3'\n");
      }
      current := current.(processPriority := b);
      return NextLine;
    }

    method ReadTimeLimitLine(org: string, key: string) returns (status: LineStatus)
      modifies this
      ensures status == StatusOf(TimeLimitLine(old(current), org, key))
      ensures status == NextLine ==> current == TimeLimitLine(old(current), org, key).s
    {
      if |key| < 10 {
        return Throws;
      }
      var t := key[10..];
      assert Substr(key, 10) == Some(t);
      var numeric := IsNumeric(t);
      if numeric {
        var v := Atoi(t);
        if v == -1 || (1 <= v <= MAX_TIME_LIMIT) {
          assert ReadTimeLimit(t, true) == TimeLimit(v);
          current := current.(timeLimit := v);
          return NextLine;
        }
      }
      assert !ReadTimeLimit(t, true).TimeLimit?;
      return ReturnError(TimeLimitMessage(org));
    }

    method ReadFrameRange(org: string, key: string) returns (status: LineStatus)
      modifies this
      ensures status == StatusOf(FrameRangeLine(old(current), org, key))
      ensures status == NextLine ==> current == FrameRangeLine(old(current), org, key).s
    {
      var c := RemoveSpaces(key);
      current := current.(frameRange := org, startFrame := INVALID_FRAME, stopFrame := INVALID_FRAME);
      if |c| < 11 {
        return Throws;
      }
      var range := SplitRange(c[11..]);
      if range.Some? {
        current := current.(startFrame := range.value.start, stopFrame := range.value.stop);
      }
      return NextLine;
    }

    /** The on/off tests, one per key of BoolKeys in order. */
    method ReadFlags(key: string)
      modifies this
      ensures FlagLine(old(current), key).Continue?
      ensures current == FlagLine(old(current), key).s
    {
      var value := BoolValue(key);
      if value.Some? {
        var i := 0;
        ghost var flags0 := current.flags;
        while i < |BoolKeys|
          invariant 0 <= i <= |BoolKeys|
          invariant current == old(current).(flags := current.flags)
          invariant ApplyFlags(flags0, key, value.value, BoolKeys) == ApplyFlags(current.flags, key, value.value, BoolKeys[i..])
        {
          if StartsWith(key, BoolKeys[i]) {
            current := current.(flags := current.flags[BoolKeys[i] := value.value]);
          }
          i := i + 1;
        }
      }
    }

    /** ParseINIFile: the defaults, then line after line until one fails;
        `aborted` stands for the uncaught exception. */
    method ParseINIFile(file: IniFile, iniPath: string, fs: FileSystem, canWrite: bool)
      returns (error: string, aborted: bool)
      modifies this
      ensures var r := ParseINI(old(current), file, iniPath, fs, canWrite);
        (aborted <==> r.IniAborted?) &&
        (r.IniError? ==> error == r.msg) &&
        (r.IniOk? ==> error == "" && current == r.s)
    {
      current := Reset(current);
      aborted := false;
      match file {
        case Missing =>
          error := if canWrite then "" else "\nCannot create \"" + iniPath + "\"\n";
          return;
        case Unreadable =>
          error := "\nCannot open \"" + iniPath + "\"\n";
          return;
        case Lines(lines) =>
          ghost var start := current;
          var i := 0;
          while i < |lines|
            invariant 0 <= i <= |lines|
            invariant ParseLines(start, lines, fs) == ParseLines(current, lines[i..], fs)
          {
            assert lines[i..][1..] == lines[i + 1..];
            var status := ReadLine(lines[i], fs);
            match status {
              case NextLine =>
              case ReturnError(msg) =>
                error := msg;
                return;
              case Throws =>
                error := "";
                aborted := true;
                return;
            }
            i := i + 1;
          }
          error := if canWrite then "" else "\nCannot create \"" + iniPath + "\"\n";
      }
    }
  }
}
