/** The plugin and runtime bookkeeping of CAvisynthInfo: the export-name
    scan that classifies a plugin DLL, the directory walk that lists
    plugins without duplicates and sorts them, the Visual Studio runtime
    hint, the installed-runtime product match and the trim of the
    version number.  Memory-mapped PE images, the file system and the
    registry are replaced by the values read from them. */
module AvisynthInfo {
  import opened Text
  import opened Utility
  import opened Common

  // ---------------------------------------------------------------------
  // Version number
  // ---------------------------------------------------------------------

  /** The "%f" text of VersionNumber without its trailing zeros, never
      shorter than four characters ("2.600000" becomes "2.60"). */
  function VersionTrimmed(s: string): (r: string)
    requires s != []
    ensures r != [] && |r| <= |s|
  {
    if |s| <= 4 || s[|s| - 1] != '0' then s else VersionTrimmed(s[..|s| - 1])
  }

  /** The countdown loop on x in GetInfo. */
  method TrimVersionNumber(sTemp: string) returns (r: string)
    requires sTemp != []
    ensures r == VersionTrimmed(sTemp)
  {
    var x := |sTemp| - 1;
    assert sTemp[..x + 1] == sTemp;
    while x > 3
      invariant 0 <= x < |sTemp|
      invariant VersionTrimmed(sTemp) == VersionTrimmed(sTemp[..x + 1])
    {
      if sTemp[x] != '0' {
        break;
      }
      assert sTemp[..x + 1][..x] == sTemp[..x];
      x := x - 1;
    }
    r := sTemp[..x + 1];
  }

  /** The trim keeps a prefix of at least four characters (all of a
      shorter text), removes only '0's, and what it keeps past index 3
      does not end in '0'. */
  lemma {:induction false} VersionTrimShape(s: string)
    requires s != []
    ensures var r := VersionTrimmed(s);
      r == s[..|r|] &&
      (|s| <= 4 ==> r == s) &&
      (|s| > 4 ==> |r| >= 4) &&
      (|r| > 4 ==> r[|r| - 1] != '0') &&
      (forall j :: |r| <= j < |s| ==> s[j] == '0')
    decreases |s|
  {
    if !(|s| <= 4 || s[|s| - 1] != '0') {
      var init := s[..|s| - 1];
      VersionTrimShape(init);
      var r := VersionTrimmed(init);
      assert s[..|r|] == init[..|r|];
      forall j | |r| <= j < |s|
        ensures s[j] == '0'
      {
        if j < |s| - 1 {
          assert s[j] == init[j];
        }
      }
    }
  }

  lemma VersionTrimExamples()
    ensures VersionTrimmed("2.600000") == "2.60"
    ensures VersionTrimmed("2.610000") == "2.61"
    ensures VersionTrimmed("3.000000") == "3.00"
  {
    assert "2.600000"[..7] == "2.60000";
    assert "2.60000"[..6] == "2.6000";
    assert "2.6000"[..5] == "2.600";
    assert "2.600"[..4] == "2.60";
    assert "2.610000"[..7] == "2.61000";
    assert "2.61000"[..6] == "2.6100";
    assert "2.6100"[..5] == "2.610";
    assert "2.610"[..4] == "2.61";
    assert "3.000000"[..7] == "3.00000";
    assert "3.00000"[..6] == "3.0000";
    assert "3.0000"[..5] == "3.000";
    assert "3.000"[..4] == "3.00";
  }

  // ---------------------------------------------------------------------
  // GetPluginType: the export-name scan
  // ---------------------------------------------------------------------

  /** The six classifications GetPluginType can report. */
  datatype PluginType = Uncategorized | AvsCpp26 | AvsCpp25 | AvsCpp20 | AvsC25 | AvsC20

  /** The s_Msg text of each classification. */
  function TypeName(t: PluginType): string {
    match t
    case Uncategorized => "UNCATEGORIZED"
    case AvsCpp26 => "AVSCPP26"
    case AvsCpp25 => "AVSCPP25"
    case AvsCpp20 => "AVSCPP20"
    case AvsC25 => "AVSC25"
    case AvsC20 => "AVSC20"
  }

  /** What one export name does to the scan: stop it with a final value,
      or go on with a new current value. */
  datatype ScanStep = Stop(final: PluginType) | Go(current: PluginType)

  /** The body of the scan loop for one name, in the order of its tests:
      the C++ 2.0 entry point is recorded before the C entry points are
      looked at, so a C entry point in the same name wins. */
  function ExportStep(name: string, is64: bool, current: PluginType): ScanStep {
    var n := StrToLC(name);
    if Contains(n, "avisynthplugininit3") then Stop(AvsCpp26)
    else if Contains(n, "avisynthplugininit2") then Stop(AvsCpp25)
    else
      var t := if Contains(n, "avisynthplugininit") then AvsCpp20 else current;
      if Contains(n, "avisynth_c_plugin_init@4") then Stop(AvsC25)
      else if Contains(n, "avisynth_c_plugin_init") then Go(if is64 then AvsC25 else AvsC20)
      else Go(t)
  }

  /** The scan over the export names, in table order, from `current`. */
  function ExportScan(names: seq<string>, is64: bool, current: PluginType): PluginType
    decreases |names|
  {
    if names == [] then current
    else match ExportStep(names[0], is64, current)
      case Stop(t) => t
      case Go(t) => ExportScan(names[1..], is64, t)
  }

  /** The for-loop over the export names. */
  method ScanExports(names: seq<string>, is64: bool) returns (t: PluginType)
    ensures t == ExportScan(names, is64, Uncategorized)
  {
    t := Uncategorized;
    var i := 0;
    while i < |names|
      invariant i <= |names|
      invariant ExportScan(names, is64, Uncategorized) == ExportScan(names[i..], is64, t)
    {
      var name := StrToLC(names[i]);
      assert ExportScan(names[i..], is64, t) == match ExportStep(names[i], is64, t)
        case Stop(f) => f
        case Go(g) => ExportScan(names[i + 1..], is64, g);
      if Contains(name, "avisynthplugininit3") {
        t := AvsCpp26;
        break;
      }
      if Contains(name, "avisynthplugininit2") {
        t := AvsCpp25;
        break;
      }
      if Contains(name, "avisynthplugininit") {
        t := AvsCpp20;
      }
      if Contains(name, "avisynth_c_plugin_init@4") {
        t := AvsC25;
        break;
      }
      if Contains(name, "avisynth_c_plugin_init") && is64 {
        t := AvsC25;
      }
      if Contains(name, "avisynth_c_plugin_init") && !is64 {
        t := AvsC20;
      }
      i := i + 1;
    }
  }

  /** The names that end the scan at once, and the value they end it with. */
  predicate Stops(name: string) {
    var n := StrToLC(name);
    Contains(n, "avisynthplugininit3") || Contains(n, "avisynthplugininit2") ||
    Contains(n, "avisynth_c_plugin_init@4")
  }

  function StopType(name: string): PluginType {
    var n := StrToLC(name);
    if Contains(n, "avisynthplugininit3") then AvsCpp26
    else if Contains(n, "avisynthplugininit2") then AvsCpp25
    else AvsC25
  }

  /** A name that mentions an entry point at all. */
  predicate Marker(name: string) {
    var n := StrToLC(name);
    Contains(n, "avisynthplugininit") || Contains(n, "avisynth_c_plugin_init")
  }

  /** The value a marker that does not stop the scan sets. */
  function ContinueType(name: string, is64: bool): PluginType {
    if Contains(StrToLC(name), "avisynth_c_plugin_init") then (if is64 then AvsC25 else AvsC20)
    else AvsCpp20
  }

  lemma ContainsLonger(s: string, p: string, q: string)
    requires Contains(s, p + q)
    ensures Contains(s, p)
  {
    var i: nat :| i <= |s| && OccursAt(s, p + q, i);
    assert s[i..i + |p|] == (p + q)[..|p|] == p;
    assert OccursAt(s, p, i);
  }

  /** Every name that stops the scan is a marker. */
  lemma StopsIsMarker(name: string)
    requires Stops(name)
    ensures Marker(name)
  {
    var n := StrToLC(name);
    assert "avisynthplugininit3" == "avisynthplugininit" + "3";
    assert "avisynthplugininit2" == "avisynthplugininit" + "2";
    assert "avisynth_c_plugin_init@4" == "avisynth_c_plugin_init" + "@4";
    if Contains(n, "avisynthplugininit3") {
      ContainsLonger(n, "avisynthplugininit", "3");
    } else if Contains(n, "avisynthplugininit2") {
      ContainsLonger(n, "avisynthplugininit", "2");
    } else {
      ContainsLonger(n, "avisynth_c_plugin_init", "@4");
    }
  }

  /** The first name that stops the scan decides it, whatever comes after
      it and whatever was recorded before. */
  lemma {:induction false} FirstStopDecides(names: seq<string>, is64: bool, current: PluginType, k: nat)
    requires k < |names| && Stops(names[k])
    requires forall j :: 0 <= j < k ==> !Stops(names[j])
    ensures ExportScan(names, is64, current) == StopType(names[k])
    decreases k
  {
    if k > 0 {
      var g := ExportStep(names[0], is64, current).current;
      assert ExportScan(names, is64, current) == ExportScan(names[1..], is64, g);
      FirstStopDecides(names[1..], is64, g, k - 1);
    }
  }

  /** Without a marker among the names the scan keeps its starting value:
      UNCATEGORIZED for GetPluginType. */
  lemma {:induction false} NoMarkerKeepsCurrent(names: seq<string>, is64: bool, current: PluginType)
    requires forall j :: 0 <= j < |names| ==> !Marker(names[j])
    ensures ExportScan(names, is64, current) == current
    decreases |names|
  {
    if names != [] {
      if Stops(names[0]) {
        StopsIsMarker(names[0]);
      }
      NoMarkerKeepsCurrent(names[1..], is64, current);
    }
  }

  /** Scanning one more name after names that do not stop the scan. */
  lemma {:induction false} ScanSnoc(names: seq<string>, n: string, is64: bool, current: PluginType)
    requires forall j :: 0 <= j < |names| ==> !Stops(names[j])
    ensures ExportScan(names + [n], is64, current) ==
      match ExportStep(n, is64, ExportScan(names, is64, current))
      case Stop(t) => t
      case Go(t) => t
    decreases |names|
  {
    if names == [] {
      assert ([] + [n])[1..] == [];
    } else {
      var g := ExportStep(names[0], is64, current).current;
      assert (names + [n])[0] == names[0];
      assert (names + [n])[1..] == names[1..] + [n];
      ScanSnoc(names[1..], n, is64, g);
    }
  }

  /** A continuing marker in the last place overwrites whatever the names
      before it set. */
  lemma LaterMarkerOverwrites(names: seq<string>, n: string, is64: bool, current: PluginType)
    requires forall j :: 0 <= j < |names| ==> !Stops(names[j])
    requires Marker(n) && !Stops(n)
    ensures ExportScan(names + [n], is64, current) == ContinueType(n, is64)
  {
    ScanSnoc(names, n, is64, current);
  }

  // ---------------------------------------------------------------------
  // GetPluginType: loading the image
  // ---------------------------------------------------------------------

  /** How far the export directory of a mapped image could be followed. */
  datatype ExportTable =
    | NoExportDirectory          // its virtual address is 0
    | DirectoryNotMapped         // ImageRvaToVa of the directory gave null
    | NamesNotMapped             // ImageRvaToVa of the name table gave null
    | Names(names: seq<string>)  // the export names, in table order

  /** An exception raised while the image is read: a C++ exception with
      its what() text, or a structured exception with the system error
      text (possibly empty). */
  datatype Fault = StdException(what: string) | OtherFault(sysError: string)

  /** What MapAndLoad and the reads of the mapped image deliver: whether
      reading the Machine field faulted, the machine type, how far the
      export directory could be followed, and whether a read after the
      Machine field (the export directory, the name table or a name)
      faulted. */
  datatype PEImage =
    | Unmappable(sysError: string)
    | Image(headerFault: Option<Fault>, i386: bool, exports: ExportTable, walkFault: Option<Fault>)

  /** GetPluginType's outcome: TRUE with a classification, or FALSE with
      an error message; b_Is64BitDLL in both cases. */
  datatype TypeResult = Typed(t: PluginType, is64: bool) | Failed(msg: string, is64: bool)

  function LoadErrorText(dll: string, sysError: string): string {
    if sysError != "" then "Error loading \"" + dll + "\":\n" + sysError
    else "Error loading \"" + dll + "\""
  }

  function FaultText(dll: string, f: Fault): string {
    match f
    case StdException(what) => "\"" + dll + "\"\n" + what
    case OtherFault(sys) =>
      if sys != "" then "\"" + dll + "\"\n" + sys else "Unknown exception:\n\"" + dll + "\""
  }

  /** GetPluginType(dll) for a process whose bitness is `process64`.  The
      Machine field is read first: a fault there leaves b_Is64BitDLL
      FALSE, and a bitness mismatch returns before anything else is read,
      so a fault later in the image cannot affect it. */
  function PluginTypeOf(dll: string, img: PEImage, process64: bool): TypeResult {
    match img
    case Unmappable(sys) => Failed(LoadErrorText(dll, sys), false)
    case Image(headerFault, i386, exports, walkFault) =>
      if headerFault.Some? then Failed(FaultText(dll, headerFault.value), false)
      else if !i386 != process64 then Typed(Uncategorized, !i386)
      else if walkFault.Some? then Failed(FaultText(dll, walkFault.value), !i386)
      else if exports.Names? then Typed(ExportScan(exports.names, !i386, Uncategorized), !i386)
      else Typed(Uncategorized, !i386)
  }

  /** GetPluginType, with its early returns. */
  method GetPluginType(dll: string, img: PEImage, process64: bool) returns (r: TypeResult)
    ensures r == PluginTypeOf(dll, img, process64)
  {
    if img.Unmappable? {
      return Failed(LoadErrorText(dll, img.sysError), false);
    }
    if img.headerFault.Some? {
      return Failed(FaultText(dll, img.headerFault.value), false);
    }
    var is64 := !img.i386;
    if is64 != process64 {
      return Typed(Uncategorized, is64);
    }
    if img.walkFault.Some? {
      return Failed(FaultText(dll, img.walkFault.value), is64);
    }
    if !img.exports.Names? {
      return Typed(Uncategorized, is64);
    }
    var t := ScanExports(img.exports.names, is64);
    return Typed(t, is64);
  }

  /** GetPluginType fails exactly when the image cannot be mapped, the
      Machine field cannot be read, or the bitness matches and a later
      read faults.  An image of the other bitness is UNCATEGORIZED whatever
      follows the Machine field; one of the right bitness without an
      export directory or name table is UNCATEGORIZED; otherwise the
      export scan decides. */
  lemma PluginTypeOutcomes(dll: string, img: PEImage, process64: bool)
    ensures var r := PluginTypeOf(dll, img, process64);
      r.Failed? <==>
        (img.Unmappable? || img.headerFault.Some? || (!img.i386 == process64 && img.walkFault.Some?))
    ensures var r := PluginTypeOf(dll, img, process64);
      r.is64 <==> img.Image? && img.headerFault.None? && !img.i386
    ensures img.Image? && img.headerFault.None? && !img.i386 != process64 ==>
      PluginTypeOf(dll, img, process64) == Typed(Uncategorized, !img.i386)
    ensures img.Image? && img.headerFault.None? && img.walkFault.None? && !img.exports.Names? ==>
      PluginTypeOf(dll, img, process64) == Typed(Uncategorized, !img.i386)
    ensures img.Image? && img.headerFault.None? && img.walkFault.None? && !img.i386 == process64 &&
            img.exports.Names? ==>
      PluginTypeOf(dll, img, process64) == Typed(ExportScan(img.exports.names, process64, Uncategorized), process64)
  {
  }

  /** Every failure message is non-empty, so a failed DLL always gives an
      entry in the error list. */
  lemma FailureMessageNonEmpty(dll: string, img: PEImage, process64: bool)
    requires PluginTypeOf(dll, img, process64).Failed?
    ensures PluginTypeOf(dll, img, process64).msg != ""
  {
  }

  // ---------------------------------------------------------------------
  // EnumPluginDLLs
  // ---------------------------------------------------------------------

  /** One hit of the FindFirstFile/FindNextFile enumeration. */
  datatype DirEntry = DirEntry(fileName: string, isDirectory: bool, image: PEImage)

  /** The category of a DLL plugin in the plugin list, without its bitness. */
  function Kind(t: PluginType): string {
    match t
    case AvsC25 => "C 2.5 Plugins"
    case AvsC20 => "C 2.0 Plugins"
    case AvsCpp26 => "CPP 2.6 Plugins"
    case AvsCpp25 => "CPP 2.5 Plugins"
    case AvsCpp20 => "CPP 2.0 Plugins"
    case Uncategorized => "Uncategorized DLLs"
  }

  function Bits(is64: bool): string {
    if is64 then " (64 Bit)" else " (32 Bit)"
  }

  /** The category of a DLL plugin in the plugin list. */
  function CategoryLabel(t: PluginType, is64: bool): string {
    Kind(t) + Bits(is64)
  }

  lemma KindInjective(t: PluginType, u: PluginType)
    requires Kind(t) == Kind(u)
    ensures t == u
  {
    var k := Kind(t);
    if |k| == 13 {
      assert k[4] == Kind(t)[4] == Kind(u)[4];
    } else if |k| == 15 {
      assert k[6] == Kind(t)[6] == Kind(u)[6];
    }
  }

  /** Each (classification, bitness) has its own label, so exactly one of
      the twelve label tests of EnumPluginDLLs fires. */
  lemma CategoryLabelInjective(t: PluginType, b: bool, u: PluginType, c: bool)
    requires CategoryLabel(t, b) == CategoryLabel(u, c)
    ensures t == u && b == c
  {
    var l := CategoryLabel(t, b);
    var n := |Kind(t)|;
    assert |Kind(u)| == n;
    assert Kind(t) == l[..n] == Kind(u);
    KindInjective(t, u);
    assert l[n + 2] == Bits(b)[2] == Bits(c)[2];
  }

  /** What becomes of one accepted file. */
  datatype FileOutcome = Listed(line: string) | Rejected(msg: string)

  function Classify(path: string, img: PEImage, process64: bool): FileOutcome {
    var lc := StrToLC(path);
    if EndsWith(lc, ".dll") then
      match PluginTypeOf(path, img, process64)
      case Failed(msg, _) => Rejected(msg)
      case Typed(t, is64) => Listed(CategoryLabel(t, is64) + "|" + path)
    else if EndsWith(lc, ".avsi") then Listed("Scripts (AVSI)|" + path)
    else Listed("Uncategorized files|" + path)
  }

  /** The extension tests for one new file, with the lower-cased path. */
  method ClassifyFile(path: string, lc: string, img: PEImage, process64: bool) returns (outcome: FileOutcome)
    requires lc == StrToLC(path)
    ensures outcome == Classify(path, img, process64)
  {
    if EndsWith(lc, ".dll") {
      var r := GetPluginType(path, img, process64);
      match r {
        case Failed(msg, _) =>
          outcome := Rejected(msg);
        case Typed(t, is64) =>
          outcome := Listed(CategoryLabel(t, is64) + "|" + path);
      }
    } else if EndsWith(lc, ".avsi") {
      outcome := Listed("Scripts (AVSI)|" + path);
    } else {
      outcome := Listed("Uncategorized files|" + path);
    }
  }

  /** A file the enumeration accepted: its full path and its image. */
  datatype AcceptedFile = AcceptedFile(path: string, image: PEImage)

  /** The state the enumeration builds: the two member lists, the set of
      lower-cased paths seen, and (for the proofs) the accepted files in
      the order they were met. */
  datatype Acc = Acc(plugins: seq<string>, errors: seq<string>, seen: set<string>, files: seq<AcceptedFile>)

  function AddEntry(a: Acc, dir: string, e: DirEntry, process64: bool): Acc {
    if e.isDirectory then a
    else
      var path := dir + "\\" + e.fileName;
      var lc := StrToLC(path);
      if lc in a.seen then a
      else
        var b := a.(seen := a.seen + {lc}, files := a.files + [AcceptedFile(path, e.image)]);
        match Classify(path, e.image, process64)
        case Listed(line) => b.(plugins := b.plugins + [line])
        case Rejected(msg) => if msg != "" then b.(errors := b.errors + [msg]) else b
  }

  function AddEntries(a: Acc, dir: string, es: seq<DirEntry>, process64: bool): Acc {
    if es == [] then a
    else AddEntry(AddEntries(a, dir, es[..|es| - 1], process64), dir, es[|es| - 1], process64)
  }

  /** The directory of a plugin-directory entry: what follows ":\t" (the
      registry value name comes first), or all but the first character
      when there is none, as find's npos plus 2 wraps to 1. */
  function DirOf(entry: string): string
    requires entry != ""
  {
    match Find(entry, ":\t")
    case Some(p) => entry[p + 2..]
    case None => entry[1..]
  }

  /** The entries FindFirstFile enumerates; a directory it cannot open has none. */
  function ListingOf(listing: map<string, seq<DirEntry>>, dir: string): seq<DirEntry> {
    if dir in listing then listing[dir] else []
  }

  function AddDirs(a: Acc, dirs: seq<string>, listing: map<string, seq<DirEntry>>, process64: bool): Acc {
    if dirs == [] then a
    else
      var b := AddDirs(a, dirs[..|dirs| - 1], listing, process64);
      var d := dirs[|dirs| - 1];
      if d == "" then b else AddEntries(b, DirOf(d), ListingOf(listing, DirOf(d)), process64)
  }

  // ----- sorting by CompareNoCase -----

  predicate SortedNoCase(s: seq<string>) {
    forall i, j :: 0 <= i < j < |s| ==> !LessNoCase(s[j], s[i])
  }

  function InsertNoCase(x: string, s: seq<string>): seq<string>
    decreases |s|
  {
    if s == [] then [x]
    else if !LessNoCase(s[0], x) then [x] + s
    else [s[0]] + InsertNoCase(x, s[1..])
  }

  /** sort(vPlugins, CompareNoCase): any ordering it may produce is a
      sorted permutation, and this is one. */
  function SortNoCase(s: seq<string>): seq<string>
    decreases |s|
  {
    if s == [] then [] else InsertNoCase(s[0], SortNoCase(s[1..]))
  }

  lemma {:induction false} InsertNoCasePermutes(x: string, s: seq<string>)
    ensures multiset(InsertNoCase(x, s)) == multiset(s) + multiset{x}
    decreases |s|
  {
    if s != [] && LessNoCase(s[0], x) {
      InsertNoCasePermutes(x, s[1..]);
      assert s == [s[0]] + s[1..];
    }
  }

  lemma ConsSorted(h: string, t: seq<string>)
    requires SortedNoCase(t)
    requires forall j :: 0 <= j < |t| ==> !LessNoCase(t[j], h)
    ensures SortedNoCase([h] + t)
  {
    var r := [h] + t;
    forall i, j | 0 <= i < j < |r|
      ensures !LessNoCase(r[j], r[i])
    {
      assert r[j] == t[j - 1];
      if i > 0 {
        assert r[i] == t[i - 1];
      }
    }
  }

  lemma TailSorted(s: seq<string>)
    requires s != [] && SortedNoCase(s)
    ensures SortedNoCase(s[1..])
    ensures forall j :: 0 <= j < |s| - 1 ==> !LessNoCase(s[1..][j], s[0])
  {
    var rest := s[1..];
    forall i, j | 0 <= i < j < |rest|
      ensures !LessNoCase(rest[j], rest[i])
    {
      assert rest[i] == s[i + 1] && rest[j] == s[j + 1];
    }
    forall j | 0 <= j < |rest|
      ensures !LessNoCase(rest[j], s[0])
    {
      assert rest[j] == s[j + 1];
    }
  }

  /** Inserting an element no smaller than `h` into a list whose elements
      are no smaller than `h` keeps every element no smaller than `h`. */
  lemma InsertKeepsBound(h: string, x: string, t: seq<string>)
    requires !LessNoCase(x, h)
    requires forall j :: 0 <= j < |t| ==> !LessNoCase(t[j], h)
    ensures forall j :: 0 <= j < |InsertNoCase(x, t)| ==> !LessNoCase(InsertNoCase(x, t)[j], h)
  {
    InsertNoCasePermutes(x, t);
    var ins := InsertNoCase(x, t);
    forall j | 0 <= j < |ins|
      ensures !LessNoCase(ins[j], h)
    {
      assert ins[j] in multiset(t) + multiset{x};
      if ins[j] != x {
        var k :| 0 <= k < |t| && t[k] == ins[j];
      }
    }
  }

  lemma {:induction false} InsertNoCaseSorted(x: string, s: seq<string>)
    requires SortedNoCase(s)
    ensures SortedNoCase(InsertNoCase(x, s))
    decreases |s|
  {
    if s == [] {
    } else if !LessNoCase(s[0], x) {
      forall j | 0 <= j < |s|
        ensures !LessNoCase(s[j], x)
      {
        if j > 0 {
          NotLessTransitive(x, s[0], s[j]);
        }
      }
      ConsSorted(x, s);
    } else {
      var rest := s[1..];
      TailSorted(s);
      InsertNoCaseSorted(x, rest);
      Asymmetric(s[0], x);
      InsertKeepsBound(s[0], x, rest);
      ConsSorted(s[0], InsertNoCase(x, rest));
    }
  }

  /** The sorted plugin list holds the same entries and is in
      CompareNoCase order. */
  lemma {:induction false} SortNoCaseCorrect(s: seq<string>)
    ensures SortedNoCase(SortNoCase(s))
    ensures multiset(SortNoCase(s)) == multiset(s)
    decreases |s|
  {
    if s != [] {
      SortNoCaseCorrect(s[1..]);
      InsertNoCaseSorted(s[0], SortNoCase(s[1..]));
      InsertNoCasePermutes(s[0], SortNoCase(s[1..]));
      assert s == [s[0]] + s[1..];
    }
  }

  // ----- properties of the enumeration -----

  /** The plugin line one accepted file gives, if any. */
  function LineOf(f: AcceptedFile, process64: bool): seq<string> {
    match Classify(f.path, f.image, process64)
    case Listed(line) => [line]
    case Rejected(_) => []
  }

  /** The error entry one accepted file gives, if any. */
  function ErrorOf(f: AcceptedFile, process64: bool): seq<string> {
    match Classify(f.path, f.image, process64)
    case Listed(_) => []
    case Rejected(msg) => if msg != "" then [msg] else []
  }

  /** The plugin-list lines the accepted files give, in order. */
  function FileLines(fs: seq<AcceptedFile>, process64: bool): seq<string> {
    if fs == [] then []
    else FileLines(fs[..|fs| - 1], process64) + LineOf(fs[|fs| - 1], process64)
  }

  /** The error-list entries the accepted files give, in order. */
  function FileErrors(fs: seq<AcceptedFile>, process64: bool): seq<string> {
    if fs == [] then []
    else FileErrors(fs[..|fs| - 1], process64) + ErrorOf(fs[|fs| - 1], process64)
  }

  /** Each accepted file gives exactly one line or one error. */
  lemma {:induction false} FileOutcomesCount(fs: seq<AcceptedFile>, process64: bool)
    ensures |FileLines(fs, process64)| + |FileErrors(fs, process64)| == |fs|
  {
    if fs != [] {
      var f := fs[|fs| - 1];
      FileOutcomesCount(fs[..|fs| - 1], process64);
      if Classify(f.path, f.image, process64).Rejected? {
        ClassifyRejected(f.path, f.image, process64);
      }
    }
  }

  lemma FileOutcomesSnoc(fs: seq<AcceptedFile>, f: AcceptedFile, process64: bool)
    ensures FileLines(fs + [f], process64) == FileLines(fs, process64) + LineOf(f, process64)
    ensures FileErrors(fs + [f], process64) == FileErrors(fs, process64) + ErrorOf(f, process64)
  {
    assert (fs + [f])[..|fs|] == fs;
  }

  /** The lower-cased accepted paths. */
  ghost function LowerPaths(files: seq<AcceptedFile>): set<string> {
    set f | f in files :: StrToLC(f.path)
  }

  /** No two accepted paths are equal ignoring case. */
  ghost predicate DistinctNoCase(files: seq<AcceptedFile>) {
    forall i, j :: 0 <= i < j < |files| ==> StrToLC(files[i].path) != StrToLC(files[j].path)
  }

  /** The invariant of the enumeration, from the lists `plugins0` and
      `errors0` it started with: the duplicate set is exactly the accepted
      paths lower-cased, no path is accepted twice, and the two lists are
      their starting contents followed by what the accepted files give,
      in the order the files were accepted. */
  ghost predicate AccValid(a: Acc, plugins0: seq<string>, errors0: seq<string>, process64: bool) {
    a.seen == LowerPaths(a.files) && DistinctNoCase(a.files) &&
    a.plugins == plugins0 + FileLines(a.files, process64) &&
    a.errors == errors0 + FileErrors(a.files, process64)
  }

  /** Every file (not directory) of the listing of `dir` has been looked at. */
  ghost predicate Covered(seen: set<string>, dir: string, es: seq<DirEntry>) {
    forall k :: 0 <= k < |es| && !es[k].isDirectory ==> StrToLC(dir + "\\" + es[k].fileName) in seen
  }

  /** `f` is the `k`-th entry of the listing of the `i`-th plugin
      directory, and that entry is a file. */
  ghost predicate ListedEntry(dirs: seq<string>, listing: map<string, seq<DirEntry>>, i: int, k: int, f: AcceptedFile) {
    0 <= i < |dirs| && dirs[i] != "" &&
    var dir := DirOf(dirs[i]);
    var es := ListingOf(listing, dir);
    0 <= k < |es| && !es[k].isDirectory && f == AcceptedFile(dir + "\\" + es[k].fileName, es[k].image)
  }

  lemma CoveredGrows(s: set<string>, t: set<string>, dir: string, es: seq<DirEntry>)
    requires Covered(s, dir, es) && s <= t
    ensures Covered(t, dir, es)
  {
  }

  lemma LowerPathsSnoc(files: seq<AcceptedFile>, nf: AcceptedFile)
    ensures LowerPaths(files + [nf]) == LowerPaths(files) + {StrToLC(nf.path)}
  {
    assert forall f :: f in files + [nf] <==> f in files || f == nf;
  }

  lemma DistinctSnoc(files: seq<AcceptedFile>, nf: AcceptedFile)
    requires DistinctNoCase(files) && StrToLC(nf.path) !in LowerPaths(files)
    ensures DistinctNoCase(files + [nf])
  {
    var fs := files + [nf];
    forall i, j | 0 <= i < j < |fs|
      ensures StrToLC(fs[i].path) != StrToLC(fs[j].path)
    {
      assert fs[i] == files[i];
      if j == |files| {
        assert StrToLC(files[i].path) in LowerPaths(files);
      } else {
        assert fs[j] == files[j];
      }
    }
  }

  /** The accepting branch of AddEntry records the file and appends its
      line or error. */
  lemma AcceptShape(a: Acc, dir: string, e: DirEntry, process64: bool)
    requires !e.isDirectory && StrToLC(dir + "\\" + e.fileName) !in a.seen
    ensures var nf := AcceptedFile(dir + "\\" + e.fileName, e.image);
      AddEntry(a, dir, e, process64) ==
        Acc(a.plugins + LineOf(nf, process64), a.errors + ErrorOf(nf, process64),
            a.seen + {StrToLC(nf.path)}, a.files + [nf])
  {
  }

  /** The accepting branch of AddEntry keeps the invariant. */
  lemma AcceptValid(a: Acc, plugins0: seq<string>, errors0: seq<string>, dir: string, e: DirEntry, process64: bool)
    requires AccValid(a, plugins0, errors0, process64)
    requires !e.isDirectory && StrToLC(dir + "\\" + e.fileName) !in a.seen
    ensures AccValid(AddEntry(a, dir, e, process64), plugins0, errors0, process64)
  {
    var nf := AcceptedFile(dir + "\\" + e.fileName, e.image);
    AcceptShape(a, dir, e, process64);
    LowerPathsSnoc(a.files, nf);
    DistinctSnoc(a.files, nf);
    FileOutcomesSnoc(a.files, nf, process64);
  }

  lemma AddEntryValid(a: Acc, plugins0: seq<string>, errors0: seq<string>, dir: string, e: DirEntry, process64: bool)
    requires AccValid(a, plugins0, errors0, process64)
    ensures AccValid(AddEntry(a, dir, e, process64), plugins0, errors0, process64)
    ensures a.seen <= AddEntry(a, dir, e, process64).seen
    ensures !e.isDirectory ==> StrToLC(dir + "\\" + e.fileName) in AddEntry(a, dir, e, process64).seen
    ensures forall f :: f in AddEntry(a, dir, e, process64).files ==>
      f in a.files || (!e.isDirectory && f == AcceptedFile(dir + "\\" + e.fileName, e.image))
  {
    if !e.isDirectory && StrToLC(dir + "\\" + e.fileName) !in a.seen {
      AcceptShape(a, dir, e, process64);
      AcceptValid(a, plugins0, errors0, dir, e, process64);
    } else {
      assert AddEntry(a, dir, e, process64) == a;
    }
  }

  lemma {:induction false} AddEntriesValid(a: Acc, plugins0: seq<string>, errors0: seq<string>,
                                           dir: string, es: seq<DirEntry>, process64: bool)
    requires AccValid(a, plugins0, errors0, process64)
    ensures AccValid(AddEntries(a, dir, es, process64), plugins0, errors0, process64)
    ensures a.seen <= AddEntries(a, dir, es, process64).seen
    ensures Covered(AddEntries(a, dir, es, process64).seen, dir, es)
    ensures forall f :: f in AddEntries(a, dir, es, process64).files ==>
      f in a.files ||
      exists k :: 0 <= k < |es| && !es[k].isDirectory && f == AcceptedFile(dir + "\\" + es[k].fileName, es[k].image)
    decreases |es|
  {
    if es != [] {
      var init := es[..|es| - 1];
      var e := es[|es| - 1];
      AddEntriesValid(a, plugins0, errors0, dir, init, process64);
      var b := AddEntries(a, dir, init, process64);
      AddEntryValid(b, plugins0, errors0, dir, e, process64);
      var r := AddEntries(a, dir, es, process64);
      assert r == AddEntry(b, dir, e, process64);
      CoveredGrows(b.seen, r.seen, dir, init);
      CoveredSnoc(r.seen, dir, es);
      forall f | f in r.files
        ensures f in a.files ||
          exists k :: 0 <= k < |es| && !es[k].isDirectory && f == AcceptedFile(dir + "\\" + es[k].fileName, es[k].image)
      {
        if f !in b.files {
          assert es[|es| - 1] == e;
        } else if f !in a.files {
          var k :| 0 <= k < |init| && !init[k].isDirectory && f == AcceptedFile(dir + "\\" + init[k].fileName, init[k].image);
          assert es[k] == init[k];
        }
      }
    }
  }

  lemma CoveredSnoc(seen: set<string>, dir: string, es: seq<DirEntry>)
    requires es != [] && Covered(seen, dir, es[..|es| - 1])
    requires !es[|es| - 1].isDirectory ==> StrToLC(dir + "\\" + es[|es| - 1].fileName) in seen
    ensures Covered(seen, dir, es)
  {
    var init := es[..|es| - 1];
    forall k | 0 <= k < |es| && !es[k].isDirectory
      ensures StrToLC(dir + "\\" + es[k].fileName) in seen
    {
      if k < |es| - 1 {
        assert es[k] == init[k];
      }
    }
  }

  /** Over the whole walk: every non-directory file of every listed
      directory is looked at; each accepted file is a file (never a
      directory) met in the listing of a plugin directory, accepted at
      most once ignoring case; and the two lists grow by exactly the line
      or the error each accepted file gives, in the order of acceptance. */
  lemma {:induction false} AddDirsValid(a: Acc, plugins0: seq<string>, errors0: seq<string>, dirs: seq<string>,
                                        listing: map<string, seq<DirEntry>>, process64: bool)
    requires AccValid(a, plugins0, errors0, process64)
    ensures AccValid(AddDirs(a, dirs, listing, process64), plugins0, errors0, process64)
    ensures a.seen <= AddDirs(a, dirs, listing, process64).seen
    ensures forall i :: 0 <= i < |dirs| && dirs[i] != "" ==>
      Covered(AddDirs(a, dirs, listing, process64).seen, DirOf(dirs[i]), ListingOf(listing, DirOf(dirs[i])))
    ensures forall f :: f in AddDirs(a, dirs, listing, process64).files ==>
      f in a.files || exists i, k :: ListedEntry(dirs, listing, i, k, f)
    decreases |dirs|
  {
    if dirs != [] {
      var init := dirs[..|dirs| - 1];
      AddDirsValid(a, plugins0, errors0, init, listing, process64);
      var b := AddDirs(a, init, listing, process64);
      var d := dirs[|dirs| - 1];
      var last := |dirs| - 1;
      if d != "" {
        AddEntriesValid(b, plugins0, errors0, DirOf(d), ListingOf(listing, DirOf(d)), process64);
      }
      var r := AddDirs(a, dirs, listing, process64);
      forall i | 0 <= i < |dirs| && dirs[i] != ""
        ensures Covered(r.seen, DirOf(dirs[i]), ListingOf(listing, DirOf(dirs[i])))
      {
        if i < |dirs| - 1 {
          assert dirs[i] == init[i];
          CoveredGrows(b.seen, r.seen, DirOf(dirs[i]), ListingOf(listing, DirOf(dirs[i])));
        }
      }
      forall f | f in r.files
        ensures f in a.files || exists i, k :: ListedEntry(dirs, listing, i, k, f)
      {
        if f in b.files {
          if f !in a.files {
            var i, k :| ListedEntry(init, listing, i, k, f);
            assert dirs[i] == init[i];
            assert ListedEntry(dirs, listing, i, k, f);
          }
        } else {
          var es := ListingOf(listing, DirOf(d));
          var k :| 0 <= k < |es| && !es[k].isDirectory && f == AcceptedFile(DirOf(d) + "\\" + es[k].fileName, es[k].image);
          assert ListedEntry(dirs, listing, last, k, f);
        }
      }
    }
  }

  /** The whole enumeration from empty lists: the plugin and error lists
      are exactly what the accepted files give, one entry per file, and
      every accepted file comes from a plugin directory's listing. */
  lemma EnumerationOutcome(dirs: seq<string>, listing: map<string, seq<DirEntry>>, process64: bool)
    ensures var a := AddDirs(Acc([], [], {}, []), dirs, listing, process64);
      a.plugins == FileLines(a.files, process64) && a.errors == FileErrors(a.files, process64) &&
      |a.plugins| + |a.errors| == |a.files| && DistinctNoCase(a.files) &&
      (forall f :: f in a.files ==> exists i, k :: ListedEntry(dirs, listing, i, k, f))
  {
    var a0 := Acc([], [], {}, []);
    assert LowerPaths(a0.files) == {};
    AddDirsValid(a0, [], [], dirs, listing, process64);
    var a := AddDirs(a0, dirs, listing, process64);
    FileOutcomesCount(a.files, process64);
    assert [] + FileLines(a.files, process64) == FileLines(a.files, process64);
    assert [] + FileErrors(a.files, process64) == FileErrors(a.files, process64);
  }

  /** A file is rejected exactly when it is a .dll that GetPluginType
      fails on, and then always with a message. */
  lemma ClassifyRejected(path: string, img: PEImage, process64: bool)
    ensures Classify(path, img, process64).Rejected? <==>
      EndsWith(StrToLC(path), ".dll") && PluginTypeOf(path, img, process64).Failed?
    ensures Classify(path, img, process64).Rejected? ==> Classify(path, img, process64).msg != ""
  {
    if PluginTypeOf(path, img, process64).Failed? {
      FailureMessageNonEmpty(path, img, process64);
    }
  }

  /** Every listed file is a category, a '|', and the path: a DLL its
      classification and bitness, a .avsi file a script, anything else an
      uncategorized file. */
  lemma ClassifyListed(path: string, img: PEImage, process64: bool)
    requires Classify(path, img, process64).Listed?
    ensures var line := Classify(path, img, process64).line;
      var lc := StrToLC(path);
      (EndsWith(lc, ".dll") ==>
         exists t, b :: PluginTypeOf(path, img, process64) == Typed(t, b) && line == CategoryLabel(t, b) + "|" + path) &&
      (!EndsWith(lc, ".dll") && EndsWith(lc, ".avsi") ==> line == "Scripts (AVSI)|" + path) &&
      (!EndsWith(lc, ".dll") && !EndsWith(lc, ".avsi") ==> line == "Uncategorized files|" + path)
  {
    var r := PluginTypeOf(path, img, process64);
    if EndsWith(StrToLC(path), ".dll") {
      assert Classify(path, img, process64) == Listed(CategoryLabel(r.t, r.is64) + "|" + path);
    }
  }

  // ---------------------------------------------------------------------
  // The class
  // ---------------------------------------------------------------------

  class CAvisynthInfo {
    var vPluginDirs: seq<string>
    var vPlugins: seq<string>
    var vPluginErrors: seq<string>
    var sVersionNumber: string
    var bIs64BitAVSDLL: bool

    constructor(pluginDirs: seq<string>, is64BitAVSDLL: bool)
      ensures vPluginDirs == pluginDirs && bIs64BitAVSDLL == is64BitAVSDLL
      ensures vPlugins == [] && vPluginErrors == [] && sVersionNumber == ""
    {
      vPluginDirs := pluginDirs;
      vPlugins := [];
      vPluginErrors := [];
      sVersionNumber := "";
      bIs64BitAVSDLL := is64BitAVSDLL;
    }

    /** The version-number part of GetInfo; None when Invoke throws NotFound. */
    method SetVersionNumber(formatted: Option<string>)
      requires formatted.Some? ==> formatted.value != ""
      modifies this
      ensures sVersionNumber == (if formatted.Some? then VersionTrimmed(formatted.value)
                                 else "Cannot invoke \"VersionNumber\"")
      ensures vPluginDirs == old(vPluginDirs) && vPlugins == old(vPlugins)
      ensures vPluginErrors == old(vPluginErrors) && bIs64BitAVSDLL == old(bIs64BitAVSDLL)
    {
      if formatted.Some? {
        sVersionNumber := TrimVersionNumber(formatted.value);
      } else {
        sVersionNumber := "Cannot invoke \"VersionNumber\"";
      }
    }

    /** The inner FindFirstFile/FindNextFile loop for one directory. */
    method EnumDirectory(dir: string, entries: seq<DirEntry>, process64: bool,
                         seen0: set<string>, ghost files0: seq<AcceptedFile>)
      returns (seen: set<string>, ghost files: seq<AcceptedFile>)
      modifies this
      ensures Acc(vPlugins, vPluginErrors, seen, files) ==
        AddEntries(Acc(old(vPlugins), old(vPluginErrors), seen0, files0), dir, entries, process64)
      ensures vPluginDirs == old(vPluginDirs) && sVersionNumber == old(sVersionNumber)
      ensures bIs64BitAVSDLL == old(bIs64BitAVSDLL)
    {
      ghost var a0 := Acc(vPlugins, vPluginErrors, seen0, files0);
      seen, files := seen0, files0;
      var i := 0;
      while i < |entries|
        invariant i <= |entries|
        invariant Acc(vPlugins, vPluginErrors, seen, files) == AddEntries(a0, dir, entries[..i], process64)
        invariant vPluginDirs == old(vPluginDirs) && sVersionNumber == old(sVersionNumber)
        invariant bIs64BitAVSDLL == old(bIs64BitAVSDLL)
      {
        var e := entries[i];
        assert entries[..i + 1][..i] == entries[..i];
        if !e.isDirectory {
          var path := dir + "\\" + e.fileName;
          var lc := StrToLC(path);
          if lc !in seen {
            seen := seen + {lc};
            files := files + [AcceptedFile(path, e.image)];
            var outcome := ClassifyFile(path, lc, e.image, process64);
            match outcome {
              case Listed(line) =>
                vPlugins := vPlugins + [line];
              case Rejected(msg) =>
                if msg != "" {
                  vPluginErrors := vPluginErrors + [msg];
                }
            }
          }
        }
        i := i + 1;
      }
      assert entries[..i] == entries;
    }

    /** EnumPluginDLLs: walk every plugin directory, then sort the list. */
    method EnumPluginDLLs(listing: map<string, seq<DirEntry>>, process64: bool)
      modifies this
      ensures var a := AddDirs(Acc(old(vPlugins), old(vPluginErrors), {}, []), old(vPluginDirs), listing, process64);
        vPluginErrors == a.errors && vPlugins == SortNoCase(a.plugins)
      ensures vPluginDirs == old(vPluginDirs) && sVersionNumber == old(sVersionNumber)
      ensures bIs64BitAVSDLL == old(bIs64BitAVSDLL)
    {
      ghost var a0 := Acc(vPlugins, vPluginErrors, {}, []);
      var seen: set<string> := {};
      ghost var files: seq<AcceptedFile> := [];
      var u := 0;
      while u < |vPluginDirs|
        invariant u <= |vPluginDirs|
        invariant vPluginDirs == old(vPluginDirs) && sVersionNumber == old(sVersionNumber)
        invariant bIs64BitAVSDLL == old(bIs64BitAVSDLL)
        invariant Acc(vPlugins, vPluginErrors, seen, files) == AddDirs(a0, vPluginDirs[..u], listing, process64)
      {
        var d := vPluginDirs[u];
        assert vPluginDirs[..u + 1][..u] == vPluginDirs[..u];
        if d != "" {
          var dir := DirOf(d);
          seen, files := EnumDirectory(dir, ListingOf(listing, dir), process64, seen, files);
        }
        u := u + 1;
      }
      assert vPluginDirs[..u] == vPluginDirs;
      vPlugins := SortNoCase(vPlugins);
    }

    /** The product-name test of IsRuntimeInstalled over the ProductName
        values of the installer keys; None where a key or its value could
        not be read. */
    method IsRuntimeInstalled(productNames: seq<Option<string>>, version: string) returns (installed: bool)
      ensures installed <==> exists i :: (0 <= i < |productNames| && productNames[i].Some? &&
                                          RuntimeProduct(productNames[i].value, version, bIs64BitAVSDLL))
    {
      installed := false;
      var k := 0;
      while k < |productNames|
        invariant k <= |productNames|
        invariant installed <==> exists i :: (0 <= i < k && productNames[i].Some? &&
                                            RuntimeProduct(productNames[i].value, version, bIs64BitAVSDLL))
      {
        if productNames[k].Some? {
          var value := StrToLC(productNames[k].value);
          var bVersion := Contains(value, version);
          var bVC := Contains(value, "visual c++");
          var bRedist := Contains(value, "redistributable") || Contains(value, "runtime");
          var b64Bit := Contains(value, "x64");
          if bVersion && bVC && bRedist && !b64Bit && !bIs64BitAVSDLL {
            installed := true;
          }
          if bVersion && bVC && bRedist && b64Bit && bIs64BitAVSDLL {
            installed := true;
          }
        }
        k := k + 1;
      }
    }
  }

  /** A product name that counts as an installed runtime: lower-cased, it
      names the version, "visual c++" and "redistributable" or "runtime",
      and names "x64" exactly when the Avisynth DLL is 64-bit. */
  predicate RuntimeProduct(product: string, version: string, is64BitAVSDLL: bool) {
    var v := StrToLC(product);
    Contains(v, version) && Contains(v, "visual c++") &&
    (Contains(v, "redistributable") || Contains(v, "runtime")) &&
    (Contains(v, "x64") <==> is64BitAVSDLL)
  }

  // ---------------------------------------------------------------------
  // GetDLLDependencies: the runtime hint
  // ---------------------------------------------------------------------

  /** A Visual Studio runtime generation and the DLL names that betray it. */
  datatype Runtime = Runtime(name: string, dlls: seq<string>)

  const Runtimes: seq<Runtime> := [
    Runtime("2005", ["msvcm80.dll", "msvcp80.dll", "msvcr80.dll", "vcomp.dll"]),
    Runtime("2008", ["msvcm90.dll", "msvcp90.dll", "msvcr90.dll", "vcomp90.dll"]),
    Runtime("2010", ["msvcm100.dll", "msvcp100.dll", "msvcr100.dll", "vcomp100.dll"]),
    Runtime("2012", ["msvcm110.dll", "msvcp110.dll", "msvcr110.dll", "vcomp110.dll"]),
    Runtime("2013", ["msvcm120.dll", "msvcp120.dll", "msvcr120.dll", "vcomp120.dll"]),
    Runtime("2015/2017", ["msvcm140.dll", "msvcp140.dll", "msvcr140.dll", "vcomp140.dll",
                          "vcruntime140.dll", "api-ms-win-crt"])
  ]

  function HintLine(r: Runtime): string {
    "Visual Studio " + r.name + " Runtime doesn't seem to be installed"
  }

  /** The lower-cased failure list names one of the generation's DLLs. */
  predicate Mentions(lc: string, r: Runtime) {
    exists k :: 0 <= k < |r.dlls| && Contains(lc, r.dlls[k])
  }

  /** The hint lines, one per mentioned generation, in table order. */
  function HintLines(lc: string, rs: seq<Runtime>): seq<string> {
    if rs == [] then []
    else HintLines(lc, rs[..|rs| - 1]) + (if Mentions(lc, rs[|rs| - 1]) then [HintLine(rs[|rs| - 1])] else [])
  }

  /** The end of GetDLLDependencies: trim the failure list and build the hint. */
  method BuildHint(failedDependencies: string) returns (failed: string, hint: string)
    ensures failed == TrimEnd(failedDependencies, {'\n'})
    ensures hint == Join(HintLines(StrToLC(failed), Runtimes), "\n")
  {
    failed := TrimEnd(failedDependencies, {'\n'});
    var lc := StrToLC(failed);
    hint := "";
    var i := 0;
    while i < |Runtimes|
      invariant i <= |Runtimes|
      invariant hint == Trailing(HintLines(lc, Runtimes[..i]), "\n")
    {
      var r := Runtimes[i];
      HintLinesStep(lc, Runtimes, i);
      if Mentions(lc, r) {
        TrailingSnoc(HintLines(lc, Runtimes[..i]), HintLine(r), "\n");
        hint := hint + HintLine(r) + "\n";
      } else {
        assert HintLines(lc, Runtimes[..i]) + [] == HintLines(lc, Runtimes[..i]);
      }
      i := i + 1;
    }
    assert Runtimes[..i] == Runtimes;
    TrimmedHint(lc, Runtimes);
    hint := TrimEnd(hint, {'\n'});
  }

  lemma HintLinesStep(lc: string, rs: seq<Runtime>, i: nat)
    requires i < |rs|
    ensures HintLines(lc, rs[..i + 1]) ==
      HintLines(lc, rs[..i]) + (if Mentions(lc, rs[i]) then [HintLine(rs[i])] else [])
  {
    assert rs[..i + 1][..i] == rs[..i];
    assert rs[..i + 1][i] == rs[i];
  }

  lemma TrimmedHint(lc: string, rs: seq<Runtime>)
    ensures TrimEnd(Trailing(HintLines(lc, rs), "\n"), {'\n'}) == Join(HintLines(lc, rs), "\n")
  {
    HintLinesEndOutside(lc, rs);
    TrimTrailingSeparator(HintLines(lc, rs), "\n", {'\n'});
  }

  lemma HintLineEndsOutside(r: Runtime)
    ensures EndsOutside(HintLine(r), {'\n'})
  {
    var l := HintLine(r);
    assert l[|l| - 1] == 'd';
  }

  lemma {:induction false} HintLinesEndOutside(lc: string, rs: seq<Runtime>)
    ensures forall i :: 0 <= i < |HintLines(lc, rs)| ==> EndsOutside(HintLines(lc, rs)[i], {'\n'})
    decreases |rs|
  {
    if rs != [] {
      HintLinesEndOutside(lc, rs[..|rs| - 1]);
      HintLineEndsOutside(rs[|rs| - 1]);
    }
  }

  /** The hint never ends with a line break, and it is empty exactly when
      no generation is mentioned. */
  lemma HintShape(lc: string, rs: seq<Runtime>)
    ensures var h := Join(HintLines(lc, rs), "\n");
      (h == [] || h[|h| - 1] != '\n') &&
      (h == [] <==> HintLines(lc, rs) == [])
  {
    var ls := HintLines(lc, rs);
    if ls != [] {
      HintLinesEndOutside(lc, rs);
      JoinEndsOutside(ls, "\n", {'\n'});
    }
  }

  /** There is a hint line for a generation exactly when the failure list
      mentions one of its DLLs. */
  lemma {:induction false} HintLinesMembers(lc: string, rs: seq<Runtime>)
    ensures forall k :: 0 <= k < |rs| && Mentions(lc, rs[k]) ==> HintLine(rs[k]) in HintLines(lc, rs)
    ensures forall l :: l in HintLines(lc, rs) ==> exists k :: 0 <= k < |rs| && Mentions(lc, rs[k]) && l == HintLine(rs[k])
    decreases |rs|
  {
    if rs != [] {
      var init := rs[..|rs| - 1];
      HintLinesMembers(lc, init);
      forall k | 0 <= k < |init|
        ensures rs[k] == init[k]
      {
      }
    }
  }
}
