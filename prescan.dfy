/** CalculateFrameInterval: a time-boxed pre-scan of the script that
    measures the average time per frame and maps it, through a ladder of
    thresholds, to the sampling stride of the benchmark.  The Avisynth
    engine is replaced by an Engine value that says what each call into
    it does; console output and the single-key poll are left out. */
module PreScan {
  import opened Text

  /** Milliseconds per frame above which every frame is sampled. */
  const MIN_TIME_PER_FRAMEINTERVAL: real := 20.0
  /** Shortest meaningful run, in milliseconds. */
  const MIN_RUNTIME: nat := 500
  /** Length of the pre-scan, in seconds. */
  const PRESCAN_SECONDS: real := 5.0

  /** The strides the ladder can produce. */
  const IntervalValues: set<nat> := {1, 10, 20, 50, 100, 200, 500, 1000}

  // ---------------------------------------------------------------------
  // The ladder
  // ---------------------------------------------------------------------

  /** The overriding assignments after the pre-scan: start at 1000 and
      let every threshold the average frame time (ms) exceeds replace it. */
  function Ladder(avg: real): nat {
    var i0 := 1000;
    var i1 := if avg > MIN_TIME_PER_FRAMEINTERVAL / 500.0 then 500 else i0;
    var i2 := if avg > MIN_TIME_PER_FRAMEINTERVAL / 200.0 then 200 else i1;
    var i3 := if avg > MIN_TIME_PER_FRAMEINTERVAL / 100.0 then 100 else i2;
    var i4 := if avg > MIN_TIME_PER_FRAMEINTERVAL / 50.0 then 50 else i3;
    var i5 := if avg > MIN_TIME_PER_FRAMEINTERVAL / 20.0 then 20 else i4;
    var i6 := if avg > MIN_TIME_PER_FRAMEINTERVAL / 10.0 then 10 else i5;
    if avg > MIN_TIME_PER_FRAMEINTERVAL then 1 else i6
  }

  /** The same rule read as bands, from the slowest scripts down. */
  function LadderBands(avg: real): nat {
    if avg > 20.0 then 1
    else if avg > 2.0 then 10
    else if avg > 1.0 then 20
    else if avg > 0.4 then 50
    else if avg > 0.2 then 100
    else if avg > 0.1 then 200
    else if avg > 0.04 then 500
    else 1000
  }

  /** The overriding assignments are the band table with the thresholds
      0.04, 0.1, 0.2, 0.4, 1, 2 and 20 ms. */
  lemma LadderIsBands(avg: real)
    ensures Ladder(avg) == LadderBands(avg)
  {
  }

  /** The ladder always yields one of the eight strides. */
  lemma LadderValues(avg: real)
    ensures Ladder(avg) in IntervalValues
    ensures avg > 20.0 ==> Ladder(avg) == 1
    ensures avg <= 0.04 ==> Ladder(avg) == 1000
  {
    LadderIsBands(avg);
  }

  /** A slower script never gets a larger stride. */
  lemma LadderMonotone(a: real, b: real)
    requires a <= b
    ensures Ladder(b) <= Ladder(a)
  {
    LadderIsBands(a);
    LadderIsBands(b);
  }

  // ---------------------------------------------------------------------
  // The engine the pre-scan talks to
  // ---------------------------------------------------------------------

  /** One turn of the pre-scan loop: whether Esc was waiting in the
      keyboard buffer, whether GetFrame threw (with the message the catch
      clause takes), and the seconds elapsed since the start once the
      frame was fetched. */
  datatype Fetch = Fetch(escPressed: bool, failure: Option<string>, elapsed: real)

  /** What Import and the clip checks give. */
  datatype Script = ImportFailed(msg: string) | NotAClip | NoVideo | Clip

  /** The answers of the engine, in the order CalculateFrameInterval asks. */
  datatype Engine = Engine(
    loads: bool,             // LoadLibrary succeeds
    hasEntryPoint: bool,     // GetProcAddress finds CreateScriptEnvironment
    createsEnv: bool,        // CreateScriptEnvironment returns an environment
    script: Script,
    totalFrames: nat,
    fetches: seq<Fetch>,     // one per frame the clip has
    unloads: bool)           // the final FreeLibrary succeeds

  predicate WellFormed(e: Engine) {
    e.totalFrames <= |e.fetches|
  }

  const ESC_MESSAGE: string := "'ESC' pressed, cancelled."
  const TOO_SHORT_MESSAGE: string := "Script runtime is too short for meaningful measurements"

  /** How the pre-scan loop ends: it ran out of time or frames, or the
      engine threw. */
  datatype LoopEnd = Finished(frames: nat, tdelta: real) | Thrown(msg: string)

  /** The pre-scan loop from frame `frame` on, with `tdelta` seconds gone. */
  function PreScanFrom(fetches: seq<Fetch>, total: nat, frame: nat, tdelta: real): LoopEnd
    requires frame <= total <= |fetches|
    decreases total - frame
  {
    if !(tdelta < PRESCAN_SECONDS && frame < total) then Finished(frame, tdelta)
    else if fetches[frame].escPressed then Thrown(ESC_MESSAGE)
    else if fetches[frame].failure.Some? then Thrown(fetches[frame].failure.value)
    else PreScanFrom(fetches, total, frame + 1, fetches[frame].elapsed)
  }

  /** The loop fetches frames from 0 upward until five seconds have gone
      or the frames run out; no more frames than the clip has are
      fetched, and a run that fetched none still has no time on it. */
  lemma {:induction false} PreScanEnds(fetches: seq<Fetch>, total: nat, frame: nat, tdelta: real)
    requires frame <= total <= |fetches|
    requires frame == 0 ==> tdelta == 0.0
    ensures var r := PreScanFrom(fetches, total, frame, tdelta);
      r.Finished? ==> frame <= r.frames <= total && (r.frames == total || r.tdelta >= PRESCAN_SECONDS) &&
                      (r.frames == 0 ==> r.tdelta == 0.0)
    decreases total - frame
  {
    if tdelta < PRESCAN_SECONDS && frame < total && !fetches[frame].escPressed && fetches[frame].failure.None? {
      PreScanEnds(fetches, total, frame + 1, fetches[frame].elapsed);
    }
  }

  /** Every exception the engine throws carries a text.  The catch-all
      clause takes the system's last error message, which may be empty. */
  predicate MessagesNonEmpty(e: Engine) {
    (e.script.ImportFailed? ==> e.script.msg != "") &&
    forall i :: 0 <= i < |e.fetches| && e.fetches[i].failure.Some? ==> e.fetches[i].failure.value != ""
  }

  /** A loop that throws passes on Esc's text or one of the engine's. */
  lemma {:induction false} PreScanThrowsNamed(e: Engine, frame: nat, tdelta: real)
    requires WellFormed(e) && MessagesNonEmpty(e) && frame <= e.totalFrames
    ensures var r := PreScanFrom(e.fetches, e.totalFrames, frame, tdelta);
      r.Thrown? ==> r.msg != ""
    decreases e.totalFrames - frame
  {
    if tdelta < PRESCAN_SECONDS && frame < e.totalFrames && !e.fetches[frame].escPressed && e.fetches[frame].failure.None? {
      PreScanThrowsNamed(e, frame + 1, e.fetches[frame].elapsed);
    }
  }

  /** What CalculateFrameInterval returns: the stride and s_error. */
  datatype PreScanResult = PreScanResult(interval: nat, error: string)

  /** The part inside the try block once the environment exists, with the
      catch clauses: any exception leaves the stride at 10 with its text. */
  function ScanScript(e: Engine, avsFile: string): PreScanResult
    requires WellFormed(e)
  {
    match e.script
    case ImportFailed(msg) => PreScanResult(10, msg)
    case NotAClip => PreScanResult(10, "Script did not return a video clip:\n" + avsFile)
    case NoVideo => PreScanResult(10, "Script did not return a video clip:\n" + avsFile)
    case Clip =>
      match PreScanFrom(e.fetches, e.totalFrames, 0, 0.0)
      case Thrown(msg) => PreScanResult(10, msg)
      case Finished(n, td) =>
        if td >= MIN_RUNTIME as real / 1000.0 && n > 0 then PreScanResult(Ladder(1000.0 * td / n as real), "")
        else PreScanResult(10, TOO_SHORT_MESSAGE)
  }

  /** The final FreeLibrary check overrides the outcome when it fails. */
  function Unload(e: Engine, r: PreScanResult): PreScanResult {
    if e.unloads then r else PreScanResult(10, "Cannot unload avisynth.dll")
  }

  /** CalculateFrameInterval as written: the missing entry point returns
      -1 from an unsigned function, i.e. 4294967295, with s_error empty
      and without unloading the DLL. */
  function FrameIntervalAsWritten(e: Engine, avsFile: string): PreScanResult
    requires WellFormed(e)
  {
    if !e.loads then PreScanResult(10, "Cannot load avisynth.dll")
    else if !e.hasEntryPoint then PreScanResult(U32(-1), "")
    else if !e.createsEnv then PreScanResult(10, "Could not create IScriptenvironment")
    else Unload(e, ScanScript(e, avsFile))
  }

  /** CalculateFrameInterval with the missing entry point reported like
      every other failure: an error text, the stride 10, the DLL freed. */
  function FrameInterval(e: Engine, avsFile: string): PreScanResult
    requires WellFormed(e)
  {
    if !e.loads then PreScanResult(10, "Cannot load avisynth.dll")
    else if !e.hasEntryPoint then Unload(e, PreScanResult(10, "Failed to load CreateScriptEnvironment()"))
    else if !e.createsEnv then PreScanResult(10, "Could not create IScriptenvironment")
    else Unload(e, ScanScript(e, avsFile))
  }

  /** The pre-scan, as the source runs it. */
  method CalculateFrameInterval(e: Engine, avsFile: string) returns (interval: nat, error: string)
    requires WellFormed(e)
    ensures PreScanResult(interval, error) == FrameIntervalAsWritten(e, avsFile)
  {
    error := "";
    interval := 10;
    if !e.loads {
      error := "Cannot load avisynth.dll";
      return;
    }
    if !e.hasEntryPoint {
      interval := U32(-1);
      return;
    }
    if !e.createsEnv {
      error := "Could not create IScriptenvironment";
      return;
    }
    var thrown: Option<string> := None;
    match e.script {
      case ImportFailed(msg) => thrown := Some(msg);
      case NotAClip => thrown := Some("Script did not return a video clip:\n" + avsFile);
      case NoVideo => thrown := Some("Script did not return a video clip:\n" + avsFile);
      case Clip =>
    }
    if thrown.None? {
      var frame: nat := 0;
      var tdelta := 0.0;
      while tdelta < PRESCAN_SECONDS && frame < e.totalFrames
        invariant frame <= e.totalFrames
        invariant frame == 0 ==> tdelta == 0.0
        invariant PreScanFrom(e.fetches, e.totalFrames, 0, 0.0) == PreScanFrom(e.fetches, e.totalFrames, frame, tdelta)
        decreases e.totalFrames - frame
      {
        if e.fetches[frame].escPressed {
          thrown := Some(ESC_MESSAGE);
          break;
        }
        if e.fetches[frame].failure.Some? {
          thrown := e.fetches[frame].failure;
          break;
        }
        tdelta := e.fetches[frame].elapsed;
        frame := frame + 1;
      }
      if thrown.None? {
        PreScanEnds(e.fetches, e.totalFrames, 0, 0.0);
        if tdelta >= MIN_RUNTIME as real / 1000.0 {
          var average := (1000.0 * tdelta) / frame as real;
          interval := Ladder(average);
        } else {
          thrown := Some(TOO_SHORT_MESSAGE);
        }
      }
    }
    if thrown.Some? {
      error := thrown.value;
      interval := 10;
    }
    if !e.unloads {
      error := "Cannot unload avisynth.dll";
      interval := 10;
    }
  }

  /** The stride is always one of the ladder's values (10 after any
      failure), and an empty error means the pre-scan ran to its end unless
      the engine threw an exception without a text. */
  lemma FrameIntervalOutcomes(e: Engine, avsFile: string)
    requires WellFormed(e)
    ensures FrameInterval(e, avsFile).interval in IntervalValues
    ensures FrameInterval(e, avsFile).error != "" ==> FrameInterval(e, avsFile).interval == 10
    ensures !e.hasEntryPoint ==> FrameInterval(e, avsFile).error != ""
    ensures MessagesNonEmpty(e) && FrameInterval(e, avsFile).error == "" ==>
      e.loads && e.hasEntryPoint && e.createsEnv && e.unloads && e.script == Clip &&
      PreScanFrom(e.fetches, e.totalFrames, 0, 0.0).Finished? &&
      PreScanFrom(e.fetches, e.totalFrames, 0, 0.0).tdelta >= 0.5
  {
    var r := ScanScript(e, avsFile);
    if e.script == Clip {
      var l := PreScanFrom(e.fetches, e.totalFrames, 0, 0.0);
      PreScanEnds(e.fetches, e.totalFrames, 0, 0.0);
      if MessagesNonEmpty(e) {
        PreScanThrowsNamed(e, 0, 0.0);
      }
      if l.Finished? && l.tdelta >= 0.5 && l.frames > 0 {
        LadderValues(1000.0 * l.tdelta / l.frames as real);
      }
    }
  }

  /** The correction only touches the missing entry point: wherever
      CreateScriptEnvironment is found, both versions agree. */
  lemma FrameIntervalAgrees(e: Engine, avsFile: string)
    requires WellFormed(e) && e.hasEntryPoint
    ensures FrameInterval(e, avsFile) == FrameIntervalAsWritten(e, avsFile)
  {
  }

  /** As written, a DLL without CreateScriptEnvironment gives the stride
      4294967295, which is not one of the ladder's values, together with
      an empty s_error, so main's `sErrorMsg != ""` test lets it through. */
  lemma MissingEntryPointAsWritten(e: Engine, avsFile: string)
    requires WellFormed(e) && e.loads && !e.hasEntryPoint
    ensures FrameIntervalAsWritten(e, avsFile) == PreScanResult(4294967295, "")
    ensures FrameIntervalAsWritten(e, avsFile).interval !in IntervalValues
  {
  }

  /** A pre-scan under half a second of script time fails as too short. */
  lemma TooShortRule(e: Engine, avsFile: string)
    requires WellFormed(e) && e.loads && e.hasEntryPoint && e.createsEnv && e.unloads && e.script == Clip
    requires PreScanFrom(e.fetches, e.totalFrames, 0, 0.0).Finished?
    requires PreScanFrom(e.fetches, e.totalFrames, 0, 0.0).tdelta < 0.5
    ensures FrameInterval(e, avsFile) == PreScanResult(10, TOO_SHORT_MESSAGE)
  {
  }
}
