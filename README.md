# AVSMeter, modelled in Dafny

AVSMeter is a Windows console tool that benchmarks AviSynth scripts. It
takes the following steps:

1. It pre-scans the script to choose a sampling stride.
2. It fetches every frame of the requested range. On every `interval`-th
   frame it records a performance sample (FPS, CPU, memory, GPU load).
   It stops early on a time limit or on Esc.
3. It writes a log file and a CSV file with the results.

Around this core sit some smaller rule sets:

- the command-line switches and the `AVSMeter.ini` settings;
- string, number and time formatting;
- CPU feature and OS name detection;
- the plugin listing of `-avsinfo` mode.

This project models those decision rules and string and number routines.
Every OS call is replaced by a parameter:

- the frame fetches, clock readings, sensor readings and the Esc key, one
  `Sample` per frame;
- the `cpuid` registers;
- the PE export names;
- directory listings;
- the INI file's lines.

Modules follow the source files:

| module | file | models |
|---|---|---|
| `Text` | text.dfy | the C runtime pieces the code relies on: `tolower`/`toupper`, `std::string::find*`, `%u` printing, saturating `atoi`/`_atoi64` |
| `Common` | common.dfy | `CompareNoCase`; the proof that it is a strict weak order |
| `Utility` | utility.dfy | the trims, case mapping, `IsNumeric`, `StrTokenize`, the FPS/TPF precision ladders |
| `Timer` | timer.dfy | `FormatTimeString` and the tick-wrap compensation of `GetSTDTimerMS` |
| `SysInfo` | sysinfo.dfy | CPU feature decoding and list assembly, brand-string clean-up, the OS name table |
| `AvisynthInfo` | avisynthinfo.dfy | the export scan of `GetPluginType`, `EnumPluginDLLs`, the sort, the runtime hint, `IsRuntimeInstalled`, the version trim |
| `PreScan` | prescan.dfy | `CalculateFrameInterval`: the pre-scan loop, the too-short rule, the interval ladder |
| `Benchmark` | benchmark.dfy | frame-range resolution, stride rescaling, the frame loop and its statistics |
| `Report` | report.dfy | which report parts are written, the frame column of log and CSV rows, output file names |
| `Options` | options.dfy | command-line switch classification and `ParseINIFile` |

Loops and state updates in the source are modelled as Dafny methods with
loops or as classes. Examples:

- the frame loop;
- the pre-scan;
- `StrTokenize`;
- `CompareNoCase`;
- `RemoveMultipleWhiteSpaces`;
- the export scan;
- `ParseINIFile`, which updates the global settings.

Each such method is proved equal to a recursive specification function,
and the properties are lemmas about those functions.

## Model

| member | source | states |
|---|---|---|
| Common.CompareNoCase | src/common.h:66-83 | The loop returns exactly the case-insensitive less-than `LessNoCase`. |
| Common.LessNoCaseIsLexLessOfLower | src/common.h:68-76 | The comparison is lexicographic less-than on the ASCII-lower-cased strings. |
| Common.Irreflexive | src/common.h:66-83 | No string compares less than itself. |
| Common.Asymmetric | src/common.h:66-83 | `a < b` and `b < a` never both hold. |
| Common.Transitive | src/common.h:66-83 | `a < b` and `b < c` give `a < c`. |
| Common.IncomparableIffSameLower | src/common.h:66-83 | Two strings are incomparable exactly when they are equal after lower-casing. |
| Common.IncomparableTransitive | src/common.h:66-83 | Incomparability is transitive, which `std::sort` needs at src/AvisynthInfo.h:604. |
| Common.NotLessTransitive | src/common.h:66-83 | "Not less than" is transitive. |
| Common.ProperPrefixIsLess | src/common.h:79-82 | A case-insensitive proper prefix compares less than the longer string. |
| Utility.TrimLeftCharacterisation | src/Utility.h:294-298 | StrTrimLeft removes exactly the leading run of blanks, tabs, CR and LF, and keeps a suffix that starts outside that set. |
| Utility.TrimRightCharacterisation | src/Utility.h:301-305 | StrTrimRight removes exactly the trailing run, and keeps a prefix that ends outside the set. |
| Utility.TrimCharacterisation | src/Utility.h:308-313 | StrTrim is a contiguous slice; everything cut off is whitespace; the result is empty or has no whitespace at either end. |
| Utility.TrimAllWhitespace | src/Utility.h:308-313 | An all-whitespace string trims to "". |
| Utility.TrimIdempotent | src/Utility.h:308-313 | Trimming twice is trimming once. |
| Utility.TrimOrderIrrelevant | src/Utility.h:294-313 | Trimming left then right equals StrTrim, which trims right then left. |
| Utility.StrToLC | src/Utility.h:323-327 | The same length; no upper-case letter remains; only upper-case letters change. |
| Utility.StrToUC | src/Utility.h:316-320 | The same length; no lower-case letter remains; only lower-case letters change. |
| Utility.LowerIdempotent | src/Utility.h:323-327 | Lower-casing twice is lower-casing once. |
| Utility.UpperIdempotent | src/Utility.h:316-320 | Upper-casing twice is upper-casing once. |
| Utility.LowerKeepsLetters | src/Utility.h:316-327 | Upper-casing the lower-cased string gives each original character upper-cased, so only case is lost. |
| Utility.StrToLCConcat | src/Utility.h:323-327 | Lower-casing works character by character: it distributes over concatenation. |
| Utility.IsNumeric | src/Utility.h:444-472 | True iff the string is non-empty and every character is a digit or '-'. |
| Utility.StrTokenize | src/Utility.h:475-502 | The loop appends to the given vector exactly the kept pieces of the trimmed input, split at any delimiter character. |
| Utility.KeptTrimmedNonEmpty | src/Utility.h:475-502 | Every appended token is non-empty and already trimmed. |
| Utility.PiecesRejoin | src/Utility.h:482-499 | No piece holds a delimiter character, and the pieces joined with the single delimiter characters they were cut at give back the input. |
| Utility.KeptWithoutDedup | src/Utility.h:475-502 | Without duplicate removal, every non-empty trimmed piece is kept, in order. |
| Utility.KeptNoCaseDuplicates | src/Utility.h:475-502 | With duplicate removal, no two appended tokens are equal case-insensitively. |
| Utility.KeptFirstOccurrence | src/Utility.h:475-502 | With duplicate removal, each kept token is the first piece with its lower-cased form. |
| Utility.KeptCoversPieces | src/Utility.h:475-502 | With duplicate removal, every non-empty piece is represented, case-insensitively, by a kept token. |
| Utility.KeptAvoidsSeen | src/Utility.h:475-502 | No kept token repeats one already in the seen set. |
| Utility.StrFormatFPS | src/Utility.h:330-340 | Fixed notation iff fps < 999.9; at most 3 decimals; 3 decimals below 9.999. |
| Utility.FPSDecimalsMonotone | src/Utility.h:330-340 | The number of FPS decimals never increases as the value grows. |
| Utility.StrFormatTPF | src/Utility.h:343-355 | Fixed notation iff tpf < 1000; at most 5 decimals; 5 decimals below 0.1. |
| Utility.TPFDecimalsMonotone | src/Utility.h:343-355 | The number of TPF decimals never increases as the value grows. |
| Timer.SplitAsWrittenDecomposes | src/Timer.h:93-96 | For 0 <= ms < 2^32 the fields, as the code computes them, put back together give ms, with minutes, seconds < 60 and millis < 1000. |
| Timer.SplitAsWrittenLosesMillis | src/Timer.h:93-96 | At 2^32 ms the code's millis field is 0 instead of 296. |
| Timer.SplitDecomposes | src/Timer.h:93-96 | The corrected split puts back together to ms for every ms below 1000·2^32. |
| Timer.FormatWidth | src/Timer.h:99-102 | With fewer than 100000 hours the right-aligned text is exactly 15 characters. |
| Timer.FormatAlignment | src/Timer.h:99-112 | The left-aligned form starts with a digit; the right-aligned form is the padded hours column followed by ":MM:SS.mmm". |
| Timer.AsWrittenAgrees | src/Timer.h:90-114 | Below 2^32 ms the code as written prints the same text as the corrected split. |
| Timer.SplitAsWrittenBounds | src/Timer.h:93-96 | Below 1000·2^32 ms the code's hours, minutes and seconds are the usual ones, and its millis field stays below 1000. |
| Timer.FormatWidthAsWritten | src/Timer.h:93-102 | The code as written also gives exactly 15 right-aligned characters below 100000 hours. |
| Timer.FormatAlignmentAsWritten | src/Timer.h:93-112 | The code as written also starts the left-aligned text with a digit and gives the padded hours column followed by ":MM:SS.mmm" when right-aligned. |
| Timer.TextShort | src/Timer.h:90-102 | The formatted text always fits the 127 characters `_snprintf` may write, so "buffer overflow" is never returned. |
| Timer.FormatRoundTrip | src/Timer.h:90-114 | Parsing "H:MM:SS.mmm" back out of either alignment recovers the input milliseconds. |
| Timer.CTimer.GetSTDTimerMS | src/Timer.h:79-87 | Stores the raw tick and returns it, plus 2^32 exactly when it is below the previously stored tick. |
| Timer.STDTimerReadingsAt | src/Timer.h:79-87 | Over any run of calls, each reading is its raw tick, plus 2^32 exactly when the tick is below the previous call's tick (or the stored one, for the first call). |
| Timer.STDTimerReadingsBounds | src/Timer.h:79-87 | For 32-bit ticks, every reading lies between its tick and its tick plus 2^32. A reading is 2^32 or more exactly when its tick fell. A call whose tick did not fall reads the raw tick again. |
| Timer.STDTimerRunsBackwards | src/Timer.h:79-87 | Across one wrap, the second reading after the wrap is smaller than the first. |
| Timer.CWrapTimer.GetSTDTimerMS | src/Timer.h:79-87 | The corrected timer counts wraps and returns `tick + wraps·2^32`. |
| Timer.WrapTimerMonotone | src/Timer.h:79-87 | The corrected readings never decrease. |
| SysInfo.OsAvx512ImpliesOsAvx | src/SysInfo.h:272-283 | OS AVX support iff ECX bit 27 is set and `XCR0 & 6 == 6`; OS AVX-512 support implies OS AVX support. |
| SysInfo.DocumentedBits | src/SysInfo.h:221-262 | MMX is leaf 1 EDX bit 23 and AVX2 is leaf 7 EBX bit 5, each read only when the maximum leaf allows it. |
| SysInfo.ItemStar | src/SysInfo.h:285-383 | A name gets a '*' iff it belongs to an OS-dependent group that the OS does not enable; otherwise the name is bare. |
| SysInfo.FeatureListShape | src/SysInfo.h:285-383 | The list is empty exactly when no feature is present; otherwise it ends in neither ',' nor ' '. |
| SysInfo.ItemsIgnoreUnreadLeaves | src/SysInfo.h:183-262 | The list depends only on the leaves the maximum leaf lets the code read. |
| SysInfo.Leaf7UnreadBelowMax | src/SysInfo.h:221-262 | Below maximum leaf 7, the leaf-7 registers do not affect the list. |
| SysInfo.CSysInfo.GetCPUFeatures | src/SysInfo.h:183-386 | The loop sets the feature string to the table-order list with ", " separators and the trailing separator removed. |
| SysInfo.AppendFeatures | src/SysInfo.h:285-383 | The `+=` loop builds each item followed by ", ". |
| SysInfo.CSysInfo.GetCPUInfo | src/SysInfo.h:148-181 | Fails iff the maximum extended leaf that leaf 0x80000000 reports is below 0x80000004. On success the brand string is the bytes of leaves 0x80000002-4 cut at NUL, trimmed and space-collapsed, and the features are set. |
| SysInfo.BrandOfLayout | src/SysInfo.h:160-168 | The brand buffer is 48 bytes: the EAX, EBX, ECX and EDX bytes of leaves 0x80000002, 0x80000003 and 0x80000004 at offsets 0, 16 and 32. |
| SysInfo.BrandShape | src/SysInfo.h:148-181 | The brand string has no whitespace at either end and no double space. |
| SysInfo.RemoveMultipleWhiteSpaces | src/SysInfo.h:435-442 | The erase loop computes Collapse of its input. |
| SysInfo.CollapseHasNoDouble | src/SysInfo.h:435-442 | The result has no two consecutive spaces. |
| SysInfo.CollapseRemovesOnlySpaces | src/SysInfo.h:435-442 | Only spaces are removed: the non-space characters are the same, in the same order. |
| SysInfo.CollapseUnchanged | src/SysInfo.h:435-442 | The input is returned unchanged iff it contains no "  ". |
| SysInfo.CollapseIdempotent | src/SysInfo.h:435-442 | Collapsing twice is collapsing once. |
| SysInfo.GetOSVersion | src/SysInfo.h:60-137 | A missing ntdll handle and a missing or failing RtlGetVersion give their fixed error texts. |
| SysInfo.OSNameTable | src/SysInfo.h:84-135 | A version outside the table is "Unknown OS Version"; any known one starts with "Windows " and ends with the architecture tag. |
| SysInfo.AddendumShape | src/SysInfo.h:84-135 | " Service Pack " appears iff SP major or minor > 0; the text always ends with " (Build n)". |
| AvisynthInfo.TrimVersionNumber | src/AvisynthInfo.h:298-308 | The countdown loop computes VersionTrimmed. |
| AvisynthInfo.VersionTrimShape | src/AvisynthInfo.h:301-308 | The result is a prefix of the input. It always keeps positions 0-3. Only '0's are cut. A result longer than four ends in a non-zero. |
| AvisynthInfo.VersionTrimExamples | src/AvisynthInfo.h:301-308 | "2.600000" becomes "2.60", "2.610000" becomes "2.61", "3.000000" becomes "3.00". |
| AvisynthInfo.CAvisynthInfo.SetVersionNumber | src/AvisynthInfo.h:298-313 | Stores the trimmed version, or "Cannot invoke \"VersionNumber\"" when the call throws; no other field changes. |
| AvisynthInfo.ScanExports | src/AvisynthInfo.h:676-709 | The for-loop with `break` computes ExportScan from "UNCATEGORIZED". |
| AvisynthInfo.FirstStopDecides | src/AvisynthInfo.h:676-709 | The first stopping name (init3, init2, `_c_plugin_init@4`) decides the type, whatever follows. |
| AvisynthInfo.NoMarkerKeepsCurrent | src/AvisynthInfo.h:676-709 | Without any marker name the type stays at its starting value. |
| AvisynthInfo.LaterMarkerOverwrites | src/AvisynthInfo.h:676-709 | A non-stopping marker after the names scanned so far overwrites the type, by the bitness rule for the C entry point. |
| AvisynthInfo.GetPluginType | src/AvisynthInfo.h:610-729 | The method computes PluginTypeOf over the mapped image. |
| AvisynthInfo.PluginTypeOutcomes | src/AvisynthInfo.h:610-729 | Fails iff the image cannot be mapped, reading the Machine field faults, or the bitness matches and a later read faults. A bitness mismatch gives UNCATEGORIZED whatever the rest of the image holds. Reports 64-bit iff the Machine field was read and is not i386. With matching bitness, a missing export table or name table gives UNCATEGORIZED, and otherwise the export scan decides. |
| AvisynthInfo.FailureMessageNonEmpty | src/AvisynthInfo.h:711-728 | Every failure carries a non-empty message. |
| AvisynthInfo.CategoryLabelInjective | src/AvisynthInfo.h:555-587 | Distinct type and bitness pairs get distinct "<type> (32/64 Bit)" labels. |
| AvisynthInfo.ClassifyFile | src/AvisynthInfo.h:551-593 | The method computes Classify for one file. |
| AvisynthInfo.ClassifyRejected | src/AvisynthInfo.h:551-556 | A file goes to the error list iff it is a ".dll" whose type detection fails, and then with a message. |
| AvisynthInfo.ClassifyListed | src/AvisynthInfo.h:551-593 | A listed ".dll" is "<label>\|path"; a ".avsi" is "Scripts (AVSI)\|path"; anything else is "Uncategorized files\|path". |
| AvisynthInfo.AddDirsValid | src/AvisynthInfo.h:513-600 | Across all plugin directories, every file (not directory) of each listed directory is looked at. Every accepted file is `dir\name` for a file entry, never a directory, of a plugin directory's listing. The duplicate set is exactly the accepted paths lower-cased, and no path is accepted twice ignoring case. The plugin list is its old contents followed by the line of each listed accepted file, in order. The error list is its old contents followed by each rejected file's non-empty message, in order. |
| AvisynthInfo.AddEntriesValid | src/AvisynthInfo.h:527-597 | The same over one directory's listing: each accepted file comes from a file entry of that listing. |
| AvisynthInfo.FileOutcomesCount | src/AvisynthInfo.h:551-594 | Each accepted file gives exactly one plugin line or one error entry. |
| AvisynthInfo.EnumerationOutcome | src/AvisynthInfo.h:513-604 | From empty lists, before the sort, the plugins and errors are exactly what the accepted files give. Their counts add up to the number of accepted files. |
| AvisynthInfo.SortNoCaseCorrect | src/AvisynthInfo.h:604 | The sort yields a CompareNoCase-sorted permutation of its input. |
| AvisynthInfo.InsertNoCaseSorted | src/AvisynthInfo.h:604 | Inserting into a sorted list keeps it sorted. |
| AvisynthInfo.InsertNoCasePermutes | src/AvisynthInfo.h:604 | Inserting adds exactly the one element. |
| AvisynthInfo.CAvisynthInfo.EnumPluginDLLs | src/AvisynthInfo.h:513-607 | Sets the error list to the errors of the directory scan and the plugin list to the sorted scan entries; nothing else changes. |
| AvisynthInfo.CAvisynthInfo.IsRuntimeInstalled | src/AvisynthInfo.h:1004-1073 | True iff some product name satisfies RuntimeProduct. That means, lower-cased, it holds the version, "visual c++", and "redistributable" or "runtime", and holds "x64" exactly when the DLL is 64-bit. |
| AvisynthInfo.BuildHint | src/AvisynthInfo.h:955-998 | The failed-dependency text loses its trailing '\n's. The hint is one line per runtime generation mentioned, joined by '\n'. |
| AvisynthInfo.HintShape | src/AvisynthInfo.h:955-998 | The hint never ends with '\n', and is empty iff no runtime is mentioned. |
| AvisynthInfo.HintLinesMembers | src/AvisynthInfo.h:960-996 | A runtime's hint line is present iff one of its DLL names occurs case-insensitively in the failed list. |
| PreScan.LadderValues | src/AVSMeter.cpp:2543-2550 | The interval is one of 1, 10, 20, 50, 100, 200, 500, 1000: 1 above 20 ms per frame, 1000 at or below 0.04 ms. |
| PreScan.LadderMonotone | src/AVSMeter.cpp:2543-2550 | A slower average frame time never yields a larger interval. |
| PreScan.PreScanEnds | src/AVSMeter.cpp:2514-2535 | The pre-scan stops once 5 s have elapsed or the frames run out, and never reads past the clip. |
| PreScan.PreScanThrowsNamed | src/AVSMeter.cpp:2514-2535 | An exception during the pre-scan carries a non-empty message. |
| PreScan.CalculateFrameInterval | src/AVSMeter.cpp:2440-2589 | The method computes the interval and error text exactly as the code does, including the missing-entry-point return. |
| PreScan.MissingEntryPointAsWritten | src/AVSMeter.cpp:2463-2468 | Without the entry point the code returns (unsigned) -1 with an empty error. That value is outside the ladder. |
| PreScan.FrameIntervalOutcomes | src/AVSMeter.cpp:2440-2589 | Corrected: the interval is always a ladder value. Every error leaves 10. A missing entry point is an error. An empty error means every step succeeded and the pre-scan lasted at least 0.5 s. |
| PreScan.FrameIntervalAgrees | src/AVSMeter.cpp:2440-2589 | The corrected and the as-written function agree whenever the entry point exists. |
| PreScan.TooShortRule | src/AVSMeter.cpp:2537-2541 | A pre-scan that finished under 0.5 s gives interval 10 with the "too short" message. |
| Benchmark.ResolveRangeSpec | src/AVSMeter.cpp:1288-1308 | A stop of -1 means the last frame. The range is accepted iff 0 <= start <= stop < frames, and then counts `last - first + 1` frames. Otherwise the "Invalid frame range" message is given. |
| Benchmark.EmptyClipRefused | src/AVSMeter.cpp:1288-1308 | A clip without frames has no valid range. |
| Benchmark.RescaleInterval | src/AVSMeter.cpp:1310-1314 | The two while-loops compute the ×10 scale, then the ÷10 scale. |
| Benchmark.ScaleUpBounds | src/AVSMeter.cpp:1310-1311 | Scaling up never lowers the stride and leaves at most 100000 samples. |
| Benchmark.ScaleDownBounds | src/AVSMeter.cpp:1313-1314 | Scaling down never raises the stride and leaves `stride·10 <= frames`. |
| Benchmark.RescaleReachesZero | src/AVSMeter.cpp:1310-1314 | Stride 50 with 30 frames becomes 0; so does every range below 10 frames. |
| Benchmark.RescaleIdempotent | src/AVSMeter.cpp:1310-1314 | A non-zero result is a fixed point of both loops. |
| Benchmark.ScaleDownKeepsCap | src/AVSMeter.cpp:1310-1314 | A non-zero result still caps the sample count, and a zero result only occurs below 90 frames. |
| Benchmark.StrideBounds | src/AVSMeter.cpp:1310-1314 | Corrected stride: at least 1, at most the scaled-up stride, and equal to the code's stride whenever that is non-zero. |
| Benchmark.StrideCapsRecords | src/AVSMeter.cpp:1310-1314 | The corrected stride leaves at most 100000 samples. |
| Benchmark.FrameTurn | src/AVSMeter.cpp:1360-1556 | One turn of the loop body computes Step: the fetch, the statistics update, the record, the refresh `continue`, then the time-limit and Esc checks. |
| Benchmark.StepStops | src/AVSMeter.cpp:1438-1555 | A turn stops the loop without an error only on a record turn whose display was refreshed, at the current frame. It stops with TimeLimitReached exactly when a limit is set and the elapsed time reaches it, and otherwise with Cancelled because Esc was pressed. A record turn within 0.35 s of the last refresh never stops. A refreshed one stops exactly when the limit is reached or Esc was pressed. |
| Benchmark.RunBenchmark | src/AVSMeter.cpp:1360-1556 | The loop over the range computes RunFrom from the initial state. |
| Benchmark.StepKeepsRecorded | src/AVSMeter.cpp:1402-1439 | A turn keeps the record invariant and counts one more frame. A stop happens only on a stride multiple, at the current frame. |
| Benchmark.PeakOfIsMax | src/AVSMeter.cpp:1386-1398 | The peak over the first n frames is at least the memory reading at every statistics point among them, and is 0 or one of those readings. |
| Benchmark.StepKeepsSummarised | src/AVSMeter.cpp:1360-1439 | A turn that does not fail keeps the peak equal to PeakOf the frames read. With no record, the FPS extremes stay at 1e20 and 0. Every record's FPS is positive and at most stride/0.000001. The maximum is a recorded FPS, and so is the minimum unless it is still 1e20. |
| Benchmark.RunKeepsSummarised | src/AVSMeter.cpp:1360-1439 | The same holds at the end of every run that does not fail. |
| Benchmark.RunRecords | src/AVSMeter.cpp:1360-1556 | For a run that does not fail: `framesRead = lastFrame - first + 1`, and a completed run reads the whole range. There are `framesRead / interval` records, and record j is frame `first + (j+1)·interval - 1`. The memory peak is the maximum reading over the statistics points read, including a last frame off the stride. Each FPS lies in [min, max]. With no record the minimum and maximum are 1e20 and 0. Otherwise the maximum is some record's FPS, and so is the minimum for a 32-bit stride. |
| Report.StatisticsIffRecords | src/AVSMeter.cpp:1565-1583 | The stride test at line 1583 holds exactly when there is at least one record. So, with the elapsed-time test at line 1565 around it, the statistics block is printed exactly when the run was not too short and there is a record. |
| Report.CompletedRunTables | src/AVSMeter.cpp:1683-1686 | After a completed run that is not too short, the log table is written iff the range holds one stride, and CSV rows appear iff it holds two (writing rule at 2196 and 2338). |
| Report.LogFrameColumnSpec | src/AVSMeter.cpp:2214-2218 | The log frame column is 12 characters, spaces then the digits of frame + 1. |
| Report.CsvRowFrameField | src/AVSMeter.cpp:2354-2356 | The CSV row's field before the first comma is the decimal frame + 1. |
| Report.OutputFileNameSpec | src/AVSMeter.cpp:2147-2160 | The name ends with the extension. Without a date suffix, a ".avs" script's name has ".avs" replaced by it. The kept stem is a prefix. |
| Report.RedirectToLogDirectory | src/AVSMeter.cpp:2162-2173 | The backward search loop computes Redirected. |
| Report.RedirectedSpec | src/AVSMeter.cpp:2162-2173 | With a log directory, the name becomes the directory, '\\' and the part after the last backslash. That part holds no backslash. A name without one is kept. |
| Report.RedirectedKeepsFileName | src/AVSMeter.cpp:2315-2326 | The redirected name still ends with the extension. |
| Options.SplitRangeSpec | src/AVSMeter.cpp:1929-1950 | A range text splits iff its first comma is at position 1-27 and both sides pass IsNumeric. The values are then `_atoi64` of the two sides. |
| Options.InvalidMarkerRefused | src/AVSMeter.cpp:1932-1933 | The 0xFFFFFFFFFF marker of an unparsed range is refused by the range check for any 32-bit frame count. |
| Options.PriorityCastAcceptsOutOfRange | src/AVSMeter.cpp:1891 | Through the `(BYTE)` cast, "257" is accepted as priority 1, as is every numeric value whose low byte is 1-3. |
| Options.PriorityCheckedSpec | src/AVSMeter.cpp:1886-1904 | Corrected: a priority is accepted iff it is numeric and 1-3, as that number. It agrees with the code on 0-255. |
| Options.ReadTimeLimitSpec | src/AVSMeter.cpp:1906-1927 | A time limit is accepted iff it is numeric and either 1-999999 or -1 (INI only). The milliseconds fit a 32-bit int. |
| Options.ClassifyIgnoresCaseAndBlanks | src/AVSMeter.cpp:177-183 | Each switch is classified after trimming and lower-casing, so only that key matters. |
| Options.ClassifyScript | src/AVSMeter.cpp:336-340 | An argument that does not start with '-' and ends in ".avs" after more than four characters is the script. |
| Options.DefaultsAccepted | src/AVSMeter.cpp:1805-1826 | The defaults satisfy the settings invariant: start 0, stop -1, no time limit. |
| Options.BoolValueSpec | src/AVSMeter.cpp:1952-1958 | A flag line carries a value iff it has more than three characters and ends in "=0" or "=1"; the value is true iff it ends in "=1". |
| Options.FlagLineSpec | src/AVSMeter.cpp:1952-2006 | A flag line never fails. Only the flags change, and each flag is set iff the line starts with its name and carries a value. |
| Options.ApplyFlagsValue | src/AVSMeter.cpp:1960-2006 | The flag table sets exactly the flags whose names prefix the line, and keeps the rest. |
| Options.FrameRangeLineSpec | src/AVSMeter.cpp:1929-1950 | A FrameRange line throws iff it is too short for `substr(11)`. Otherwise it sets only the range's text and its two frames: the split values, or both markers. |
| Options.FrameRangeLineDispatch | src/AVSMeter.cpp:1859-1929 | A line whose key starts with "framerange" reaches the frame-range rule. |
| Options.ApplyLineKeepsAccepted | src/AVSMeter.cpp:1852-2006 | Every accepted line keeps the invariant: all flags present, the log directory and AVS DLL "" or existing, priority 1-3, time limit -1 or 1-999999. |
| Options.ParseLinesKeepsAccepted | src/AVSMeter.cpp:1852-2006 | A file whose lines are all accepted keeps the invariant. |
| Options.ParseINIAccepted | src/AVSMeter.cpp:1783-2020 | Whenever ParseINIFile returns no error, the settings satisfy the invariant. |
| Options.IgnorableLinesKeepSettings | src/AVSMeter.cpp:1859-1860 | Comment and blank lines change nothing. |
| Options.GlobalSettings.ReadLine | src/AVSMeter.cpp:1852-2006 | One pass of the line loop gives the same status and new settings as ApplyLine. |
| Options.GlobalSettings.ReadFlags | src/AVSMeter.cpp:1952-2006 | The flag table loop sets the flags as FlagLine says. |
| Options.GlobalSettings.ParseINIFile | src/AVSMeter.cpp:1783-2020 | Gives the missing-file, open and write errors, the first failing line's message, or the uncaught exception as ParseINI says. On success the settings are ParseINI's. |

## Left out

- File, registry and dialog I/O are values in this model. The INI file is its list of lines, or Missing or Unreadable. `FileExists`/`DirectoryExists` are membership in given sets. Directory listings are a map from directory to entries. Product names of installed software are a list.
- `WriteINIFile` is a boolean parameter saying whether the write succeeds. `GetModuleFileName` and `GetFullPathName` are not modelled: the INI path is a parameter.
- The AviSynth engine, `LoadLibrary`, `GetProcAddress`, `CreateScriptEnvironment`, `Invoke` and `GetFrame` are left out. In their place, each pre-scan fetch and each frame of the loop is a value saying whether it threw (with its text) and when it finished.
- PE image walking (`MapAndLoad`, `ImageRvaToVa`, the import-table loop) is left out, because it is pointer arithmetic into mapped files. Only the classification over the extracted export names and machine type is modelled, along with hint building over the failed-dependency text.
- `cpuid`, `xgetbv`, `GetTickCount` and `QueryPerformanceCounter` are parameters: register values and tick or time readings.
- The process and GPU sensor classes (`CProcessInfo`, `CGPUInfo`) are not part of this model. Their readings are fields of each frame's `Sample`.
- Console rendering is left out: `PrintConsole`, `Pad`, cursor and colour calls, and `_kbhit`/`_getch`. Esc is a boolean per frame.
- Floating-point arithmetic is modelled with Dafny reals, so rounding is not modelled. The `printf` text of FPS, CPU and time fields is left out as well: only the precision choice and the integer frame column are modelled.
- Benchmark.ValidRun: every clock reading after the start is assumed to be later than the start time, so the FPS divisions are defined. The source does not guard this.
- Benchmark.RunRecords: the running FPS mean and the CPU, GPU and VPU averages are carried in the state but not stated. For a stride of 2^32 or more the minimum FPS is not shown to be reached, because a rate can then exceed the 1e20 it starts from.
- Division by a zero stride (src/AVSMeter.cpp:1316, 1365) is a structured exception in the source. The frame loop model requires a stride of at least 1, and the zero result is exhibited by RescaleReachesZero instead.
- Options: of main's `switch` handling only the classification of each argument is modelled. What main then does is not: auto-completing the extension, locating the INI file, opening the script, and the duplicate-script and missing-script errors.
- Options.ReadTimeLimitSpec: on the command line a value of -1 is refused, as the code at src/AVSMeter.cpp:316-322 does, although the error message at line 326 offers '-1' (no time limit).
- Options.GlobalSettings.ParseINIFile: an `std::out_of_range` thrown by `substr` on a line that is too short escapes ParseINIFile uncaught. It is modelled as an `aborted` result rather than a crash.
- The GUI path (`-avsinfo` file dialogs, `BrowseDirectory`), `TestLoadPlugins`, the single-instance mutex, process priority setting, `GetWOW64FilePath` and `GetFormattedSystemDateTime` are left out; the date text of a file name is a parameter.
- AvisynthInfo.Classify: a full path shorter than four characters makes `substr(length() - 4)` at src/AvisynthInfo.h:551 throw an `std::out_of_range` that nothing catches, and so does `substr(length() - 5)` at line 592 for a four-character path that does not end in ".dll". An example is the directory "" joined to "a", which gives "\\a". The model has no crash for this and lists such a file as "Uncategorized files|\\a".
- Common.LessNoCase compares characters as code points. MSVC's `char` is signed, so under the comparison at src/common.h:71-73 bytes of 0x80 and above sort before ASCII. The order the sort at src/AvisynthInfo.h:604 gives to such names is not modelled.
- SysInfo.CSysInfo.GetCPUInfo: when leaf 0x80000000 reports 0xFFFFFFFF, the brand loop `for (i = 0x80000000; i <= nIDs; ++i)` at src/SysInfo.h:163 never ends, because the unsigned `i` wraps to 0 and stays at most nIDs. The model does not loop. For that input it returns TRUE with the brand string of leaves 0x80000002-4.
- Benchmark: the GPU sensor read before the frame loop (src/AVSMeter.cpp:1345-1350), whose read error throws "Error reading GPU sensors", is not modelled. Only the read inside the loop is.
- Log and CSV content other than the frame column is left out, because every other field is `printf`-formatted floating point.

## Findings

| source | as written | input that shows it | evidently intended | confidence | as-written member | corrected member |
|---|---|---|---|---|---|---|
| src/AVSMeter.cpp:1310-1316 | The ÷10 loop runs while `interval*10 > frames`, so the stride can reach 0, and lines 1316 and 1365 then divide by it. | stride 50, 30 frames: 50 → 5 → 0 | a stride of at least 1 | high, not executed | Benchmark.RescaleReachesZero | Benchmark.StrideBounds |
| src/AVSMeter.cpp:2463-2468 | When the entry point is missing, the unsigned function returns -1 (4294967295) and leaves the error text empty. | a DLL without `CreateScriptEnvironment` | an error text and the fallback interval 10 | high, not executed | PreScan.MissingEntryPointAsWritten | PreScan.FrameIntervalOutcomes |
| src/Timer.h:79-87 | Only the first call after a tick wrap adds 2^32, so the next reading drops back. | ticks 2^32-10, 5, 6 read as 2^32-10, 2^32+5, 6 | readings that never decrease | high, not executed | Timer.STDTimerRunsBackwards | Timer.WrapTimerMonotone |
| src/AVSMeter.cpp:1891 | `(BYTE)atol` checks only the low byte against 1-3 (the same cast is used for `-priority=` at line 292). | ProcessPriority=257 is accepted as 1 | values outside 1-3 refused | high, not executed | Options.PriorityCastAcceptsOutOfRange | Options.PriorityCheckedSpec |
| src/Timer.h:93-96 | `(unsigned int)i_milliseconds % 1000` casts before the modulus, so the millis field uses only the low 32 bits. | 4294967296 ms gives millis 0 instead of 296 | `(unsigned int)(i_milliseconds % 1000)` | medium, not executed | Timer.SplitAsWrittenLosesMillis | Timer.SplitDecomposes |
