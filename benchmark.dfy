/** The measuring part of main: the frame range check, the rescaling of
    the sampling stride to the range, and the frame loop that fetches
    every frame of the range and records one performance sample every
    `interval` frames.  The clock, the process counters, the GPU sensors
    and the keyboard are replaced by one Sample value per frame; the
    console display is left out. */
module Benchmark {
  import opened Text

  /** Seconds between two refreshes of the display. */
  const REFRESH_INTERVAL: real := 0.35
  /** Strides are scaled up until no more than this many samples remain. */
  const MAX_RECORDS: nat := 100000

  // ---------------------------------------------------------------------
  // Frame range
  // ---------------------------------------------------------------------

  datatype FrameRange = FrameRange(first: nat, last: nat, toProcess: nat)

  datatype RangeResult = Range(range: FrameRange) | RangeError(msg: string)

  /** The requested range against a clip of `frames` frames: a stop frame
      of -1 means the last frame; anything else outside [0, frames) or a
      start after the stop is refused with the range's INI text. */
  function ResolveRange(start: int, stop: int, frames: nat, rangeText: string): RangeResult {
    var stop' := if stop == -1 then frames - 1 else stop;
    if 0 <= start && start <= stop' && stop' < frames then
      Range(FrameRange(start, stop', stop' - start + 1))
    else
      RangeError("Invalid frame range specified:\n\"" + rangeText + "\"\n")
  }

  /** A range is accepted exactly when it lies inside the clip; it then
      holds at least one frame and counts its frames inclusively. */
  lemma ResolveRangeSpec(start: int, stop: int, frames: nat, rangeText: string)
    ensures var stop' := if stop == -1 then frames - 1 else stop;
      ResolveRange(start, stop, frames, rangeText).Range? <==> 0 <= start <= stop' < frames
    ensures var r := ResolveRange(start, stop, frames, rangeText);
      r.Range? ==> r.range.first == start && r.range.last < frames && r.range.first <= r.range.last &&
                   r.range.toProcess == r.range.last - r.range.first + 1 >= 1 &&
                   (stop == -1 ==> r.range.last == frames - 1) && (stop != -1 ==> r.range.last == stop)
    ensures var r := ResolveRange(start, stop, frames, rangeText);
      r.RangeError? ==> StartsWith(r.msg, "Invalid frame range specified:\n\"")
  {
  }

  /** An empty clip has no valid range, whatever was asked for. */
  lemma EmptyClipRefused(start: int, stop: int, rangeText: string)
    ensures ResolveRange(start, stop, 0, rangeText).RangeError?
  {
  }

  // ---------------------------------------------------------------------
  // Stride rescaling
  // ---------------------------------------------------------------------

  /** The first loop: multiply the stride by ten while more than 100000
      samples would be taken. */
  function ScaleUp(n: nat, interval: nat): nat
    requires interval >= 1
    decreases n - interval
  {
    if n / interval > MAX_RECORDS then ScaleUp(n, interval * 10) else interval
  }

  /** The second loop: divide the stride by ten while ten strides do not
      fit into the range. */
  function ScaleDown(n: nat, interval: nat): nat
    decreases interval
  {
    if interval * 10 > n then ScaleDown(n, interval / 10) else interval
  }

  /** Both loops as the source runs them. */
  method RescaleInterval(n: nat, interval: nat) returns (r: nat)
    requires 1 <= interval
    ensures r == ScaleDown(n, ScaleUp(n, interval))
  {
    r := interval;
    while n / r > MAX_RECORDS
      invariant r >= 1
      invariant ScaleUp(n, r) == ScaleUp(n, interval)
      decreases n - r
    {
      r := r * 10;
    }
    while r * 10 > n
      invariant ScaleDown(n, r) == ScaleDown(n, ScaleUp(n, interval))
      decreases r
    {
      r := r / 10;
    }
  }

  /** After the first loop no more than 100000 samples remain, and the
      stride was only ever multiplied. */
  lemma {:induction false} ScaleUpBounds(n: nat, interval: nat)
    requires interval >= 1
    ensures ScaleUp(n, interval) >= interval
    ensures n / ScaleUp(n, interval) <= MAX_RECORDS
    decreases n - interval
  {
    if n / interval > MAX_RECORDS {
      ScaleUpBounds(n, interval * 10);
    }
  }

  /** After the second loop ten strides fit into the range, and the
      stride was only ever divided. */
  lemma {:induction false} ScaleDownBounds(n: nat, interval: nat)
    ensures ScaleDown(n, interval) <= interval
    ensures ScaleDown(n, interval) * 10 <= n
    decreases interval
  {
    if interval * 10 > n {
      ScaleDownBounds(n, interval / 10);
    }
  }

  /** As written, the second loop can divide the stride down to zero: a
      stride of 50 from the pre-scan with a range of 30 frames, or the
      stride 1 of a run without pre-scan over fewer than ten frames.  The
      next statement then divides by the stride. */
  lemma RescaleReachesZero()
    ensures ScaleDown(30, ScaleUp(30, 50)) == 0
    ensures forall n: nat :: n < 10 ==> ScaleDown(n, ScaleUp(n, 1)) == 0
  {
    assert ScaleUp(30, 50) == 50;
    assert ScaleDown(30, 50) == ScaleDown(30, 5) == ScaleDown(30, 0) == 0;
    forall n: nat | n < 10
      ensures ScaleDown(n, ScaleUp(n, 1)) == 0
    {
      assert ScaleUp(n, 1) == 1;
      assert ScaleDown(n, 1) == ScaleDown(n, 0) == 0;
    }
  }

  /** The rescaling with the stride kept at one or more, as the division
      that follows it needs. */
  function Stride(n: nat, interval: nat): nat
    requires interval >= 1
  {
    var r := ScaleDown(n, ScaleUp(n, interval));
    if r == 0 then 1 else r
  }

  /** The corrected stride is at least one, never above the one the first
      loop chose, and either one or small enough that ten strides fit. */
  lemma StrideBounds(n: nat, interval: nat)
    requires interval >= 1
    ensures 1 <= Stride(n, interval) <= ScaleUp(n, interval)
    ensures Stride(n, interval) == 1 || Stride(n, interval) * 10 <= n
    ensures ScaleDown(n, ScaleUp(n, interval)) >= 1 ==> Stride(n, interval) == ScaleDown(n, ScaleUp(n, interval))
  {
    ScaleUpBounds(n, interval);
    ScaleDownBounds(n, ScaleUp(n, interval));
  }

  /** The second loop keeps the first loop's cap on the number of
      samples: a stride it divides down still leaves fewer than 200
      samples, and it only reaches zero on ranges of under 90 frames. */
  lemma {:induction false} ScaleDownKeepsCap(n: nat, interval: nat)
    requires interval >= 1 && n / interval <= MAX_RECORDS
    ensures ScaleDown(n, interval) >= 1 ==> n / ScaleDown(n, interval) <= MAX_RECORDS
    ensures ScaleDown(n, interval) == 0 ==> n < 90
    decreases interval
  {
    if interval * 10 > n {
      var next := interval / 10;
      if next >= 1 {
        assert n < 190 * next;
        DivBelow(n, next, 190);
        ScaleDownKeepsCap(n, next);
      } else {
        assert ScaleDown(n, 0) == 0;
      }
    }
  }

  /** n < c * d gives n / d < c. */
  lemma DivBelow(n: nat, d: nat, c: nat)
    requires d >= 1 && n < c * d
    ensures n / d < c
  {
    var q := n / d;
    assert q * d <= n;
    if q >= c {
      MulMonotone(c, q, d);
    }
  }

  lemma MulMonotone(a: nat, b: nat, d: nat)
    requires a <= b
    ensures a * d <= b * d
  {
  }

  /** A non-zero stride the two loops produced is a fixed point of them. */
  lemma RescaleIdempotent(n: nat, interval: nat)
    requires interval >= 1 && ScaleDown(n, ScaleUp(n, interval)) >= 1
    ensures var r := ScaleDown(n, ScaleUp(n, interval));
      ScaleDown(n, ScaleUp(n, r)) == r
  {
    var r := ScaleDown(n, ScaleUp(n, interval));
    ScaleUpBounds(n, interval);
    ScaleDownKeepsCap(n, ScaleUp(n, interval));
    ScaleDownBounds(n, ScaleUp(n, interval));
    assert ScaleUp(n, r) == r;
  }

  /** The corrected stride caps the number of samples at 100000. */
  lemma StrideCapsRecords(n: nat, interval: nat)
    requires interval >= 1
    ensures n / Stride(n, interval) <= MAX_RECORDS
  {
    ScaleUpBounds(n, interval);
    ScaleDownKeepsCap(n, ScaleUp(n, interval));
  }

  // ---------------------------------------------------------------------
  // The frame loop
  // ---------------------------------------------------------------------

  /** What the frame loop reads around the fetch of one frame: whether
      GetFrame threw (and the text the catch clause takes), the timer
      reading, the process' CPU usage, memory (MiB) and thread count,
      the GPU and VPU load with the sensor read status, and whether Esc
      was waiting in the keyboard buffer. */
  datatype Sample = Sample(
    fetchError: Option<string>,
    time: real,
    cpu: real,
    memory: nat,
    threads: nat,
    gpu: nat,
    vpu: nat,
    gpuReadError: bool,
    escPressed: bool)

  /** One stPerfData record. */
  datatype PerfData = PerfData(
    frame: nat,
    fpsCurrent: real,
    fpsAverage: real,
    cpuUsage: real,
    gpuUsage: nat,
    vpuUsage: nat,
    processMemory: nat,
    numThreads: nat)

  /** The fixed inputs of the loop: the range, the stride, whether GPU
      sensors are read, the time limit in seconds (-1 for none) and the
      timer reading at the start. */
  datatype Config = Config(range: FrameRange, interval: nat, gpuInfo: bool, timeLimit: int, startTime: real)

  /** The frames between the samples need not be looked at, but there is
      one reading per frame of the range, all after the start. */
  predicate ValidRun(cfg: Config, samples: seq<Sample>) {
    cfg.interval >= 1 &&
    cfg.range.first <= cfg.range.last &&
    cfg.range.toProcess == cfg.range.last - cfg.range.first + 1 &&
    |samples| == cfg.range.toProcess &&
    forall i :: 0 <= i < |samples| ==> samples[i].time > cfg.startTime
  }

  /** The loop's variables. */
  datatype LoopState = LoopState(
    framesRead: nat,
    intervalCounter: nat,
    elapsedMS: int,
    estimatedMS: int,
    memPeak: nat,
    cpuAcc: real,
    gpuAcc: nat,
    vpuAcc: nat,
    fpsAverage: real,
    fpsMin: real,
    fpsMax: real,
    lastIntervalTime: real,
    lastDisplayTime: real,
    perf: seq<PerfData>,
    lastFrame: nat)

  function Initial(cfg: Config): LoopState {
    LoopState(0, 0, 0, 0, 0, 0.0, 0, 0, 0.0, 1.0e20, 0.0, cfg.startTime, cfg.startTime, [], cfg.range.last)
  }

  /** How the loop ends: all frames fetched, the time limit reached, Esc
      pressed, or an exception thrown. */
  datatype RunEnd = Completed | TimeLimitReached | Cancelled | Failed(msg: string)

  datatype StepResult = Next(st: LoopState) | Break(st: LoopState, end: RunEnd)

  /** A cast of a non-negative or negative real to __int64 (toward zero). */
  function Trunc(x: real): int {
    if x >= 0.0 then x.Floor else -((-x).Floor)
  }

  /** The estimated total run time: the elapsed time scaled from the
      frames read to the frames of the range, cast toward zero. */
  function Estimate(toProcess: nat, elapsedMS: int, framesRead: nat): int
    requires framesRead >= 1
  {
    Trunc(toProcess as real * elapsedMS as real / framesRead as real)
  }

  /** One turn of the loop for frame `cur`. */
  function Step(cfg: Config, cur: nat, s: Sample, st: LoopState): StepResult
    requires cfg.interval >= 1 && s.time > cfg.startTime
  {
    if s.fetchError.Some? then Break(st, Failed(s.fetchError.value))
    else
      var read := st.framesRead + 1;
      if read % cfg.interval != 0 && read != cfg.range.toProcess then Next(st.(framesRead := read))
      else
        var counter := st.intervalCounter + 1;
        if cfg.gpuInfo && s.gpuReadError then
          Break(st.(framesRead := read, intervalCounter := counter), Failed("Error reading GPU sensors\n"))
        else
          var elapsed := Trunc((s.time - cfg.startTime) * 1000.0 + 0.5);
          var st1 := st.(
            framesRead := read,
            intervalCounter := counter,
            gpuAcc := if cfg.gpuInfo then st.gpuAcc + s.gpu else st.gpuAcc,
            vpuAcc := if cfg.gpuInfo then st.vpuAcc + s.vpu else st.vpuAcc,
            elapsedMS := elapsed,
            estimatedMS := Estimate(cfg.range.toProcess, elapsed, read),
            cpuAcc := st.cpuAcc + s.cpu,
            memPeak := if s.memory > st.memPeak then s.memory else st.memPeak,
            fpsAverage := read as real / (s.time - cfg.startTime));
          if read % cfg.interval != 0 then Next(st1)
          else
            var dt := s.time - st.lastIntervalTime;
            var fps := cfg.interval as real / (if dt > 0.000001 then dt else 0.000001);
            var record := PerfData(cur, fps, st1.fpsAverage, s.cpu,
                                   if cfg.gpuInfo then s.gpu else 0, if cfg.gpuInfo then s.vpu else 0,
                                   s.memory, s.threads);
            var st2 := st1.(
              fpsMax := if fps > st.fpsMax then fps else st.fpsMax,
              fpsMin := if fps < st.fpsMin then fps else st.fpsMin,
              perf := st.perf + [record],
              lastIntervalTime := s.time);
            if s.time - st.lastDisplayTime < REFRESH_INTERVAL then Next(st2)
            else
              var st3 := st2.(lastDisplayTime := s.time);
              if cfg.timeLimit != -1 && elapsed >= cfg.timeLimit * 1000 then Break(st3.(lastFrame := cur), TimeLimitReached)
              else if s.escPressed then Break(st3.(lastFrame := cur), Cancelled)
              else Next(st3)
  }

  datatype Outcome = Outcome(st: LoopState, end: RunEnd)

  /** The loop from the `k`-th frame of the range on. */
  function RunFrom(cfg: Config, samples: seq<Sample>, k: nat, st: LoopState): Outcome
    requires ValidRun(cfg, samples) && k <= |samples|
    decreases |samples| - k
  {
    if k == |samples| then Outcome(st, Completed)
    else match Step(cfg, cfg.range.first + k, samples[k], st)
      case Next(st') => RunFrom(cfg, samples, k + 1, st')
      case Break(st', end) => Outcome(st', end)
  }

  /** One turn of the loop body of the source, on the loop's variables:
      fetch, count, and at the stride's multiples (and the last frame)
      read the counters, record a sample and check the stop conditions. */
  method FrameTurn(cfg: Config, cur: nat, s: Sample, st: LoopState) returns (r: StepResult)
    requires cfg.interval >= 1 && s.time > cfg.startTime
    ensures r == Step(cfg, cur, s, st)
  {
    if s.fetchError.Some? {
      return Break(st, Failed(s.fetchError.value));
    }
    var framesRead := st.framesRead + 1;
    if framesRead % cfg.interval != 0 && framesRead != cfg.range.toProcess {
      return Next(st.(framesRead := framesRead));
    }
    var now := s.time;
    var intervalCounter := st.intervalCounter + 1;
    var gpuAcc, vpuAcc := st.gpuAcc, st.vpuAcc;
    if cfg.gpuInfo {
      if s.gpuReadError {
        return Break(st.(framesRead := framesRead, intervalCounter := intervalCounter), Failed("Error reading GPU sensors\n"));
      }
      gpuAcc := gpuAcc + s.gpu;
      vpuAcc := vpuAcc + s.vpu;
    }
    var elapsedMS := Trunc((now - cfg.startTime) * 1000.0 + 0.5);
    var estimatedMS := Estimate(cfg.range.toProcess, elapsedMS, framesRead);
    var cpuAcc := st.cpuAcc + s.cpu;
    var memPeak := st.memPeak;
    if s.memory > memPeak {
      memPeak := s.memory;
    }
    var fpsAverage := framesRead as real / (now - cfg.startTime);
    var st1 := st.(framesRead := framesRead, intervalCounter := intervalCounter, gpuAcc := gpuAcc, vpuAcc := vpuAcc,
                   elapsedMS := elapsedMS, estimatedMS := estimatedMS, cpuAcc := cpuAcc, memPeak := memPeak,
                   fpsAverage := fpsAverage);
    if framesRead % cfg.interval != 0 {
      return Next(st1);
    }
    var fps;
    if now - st.lastIntervalTime > 0.000001 {
      fps := cfg.interval as real / (now - st.lastIntervalTime);
    } else {
      fps := cfg.interval as real / 0.000001;
    }
    var fpsMax, fpsMin := st.fpsMax, st.fpsMin;
    if fps > fpsMax {
      fpsMax := fps;
    }
    if fps < fpsMin {
      fpsMin := fps;
    }
    var record := PerfData(cur, fps, fpsAverage, s.cpu,
                           if cfg.gpuInfo then s.gpu else 0, if cfg.gpuInfo then s.vpu else 0,
                           s.memory, s.threads);
    var st2 := st1.(fpsMax := fpsMax, fpsMin := fpsMin, perf := st.perf + [record], lastIntervalTime := now);
    if now - st.lastDisplayTime < REFRESH_INTERVAL {
      return Next(st2);
    }
    var st3 := st2.(lastDisplayTime := now);
    if cfg.timeLimit != -1 && elapsedMS >= cfg.timeLimit * 1000 {
      return Break(st3.(lastFrame := cur), TimeLimitReached);
    }
    if s.escPressed {
      return Break(st3.(lastFrame := cur), Cancelled);
    }
    return Next(st3);
  }

  /** The frame loop over the range, from the first frame to the last. */
  method RunBenchmark(cfg: Config, samples: seq<Sample>) returns (st: LoopState, end: RunEnd)
    requires ValidRun(cfg, samples)
    ensures Outcome(st, end) == RunFrom(cfg, samples, 0, Initial(cfg))
  {
    st := Initial(cfg);
    end := Completed;
    for cur := cfg.range.first to cfg.range.last + 1
      invariant RunFrom(cfg, samples, 0, Initial(cfg)) == RunFrom(cfg, samples, cur - cfg.range.first, st)
      invariant end == Completed
    {
      var turn := FrameTurn(cfg, cur, samples[cur - cfg.range.first], st);
      if turn.Break? {
        st, end := turn.st, turn.end;
        break;
      }
      st := turn.st;
    }
  }

  // ---------------------------------------------------------------------
  // What the frame loop guarantees
  // ---------------------------------------------------------------------

  /** The quotient and remainder are the unique ones. */
  lemma DivUnique(n: nat, d: nat, q: nat, r: nat)
    requires d >= 1 && 0 <= r < d && n == q * d + r
    ensures n / d == q && n % d == r
  {
    var q', r' := n / d, n % d;
    assert n == q' * d + r';
    if q' > q {
      MulMonotone(q + 1, q', d);
    } else if q' < q {
      MulMonotone(q' + 1, q, d);
    }
  }

  /** Reading one more frame raises the number of completed strides by
      one exactly when it lands on a multiple of the stride. */
  lemma DivSucc(n: nat, d: nat)
    requires d >= 1
    ensures (n + 1) % d == 0 ==> (n + 1) / d == n / d + 1 && n + 1 == (n / d + 1) * d
    ensures (n + 1) % d != 0 ==> (n + 1) / d == n / d
  {
    var q, r := n / d, n % d;
    assert n == q * d + r;
    if r + 1 < d {
      DivUnique(n + 1, d, q, r + 1);
    } else {
      DivUnique(n + 1, d, q + 1, 0);
    }
  }

  /** What holds of the loop's variables after each turn that goes on:
      one record per completed stride, the k-th taken at the stride's
      k-th multiple, all between the running minimum and maximum rate,
      none above the peak memory. */
  ghost predicate Recorded(cfg: Config, st: LoopState)
    requires cfg.interval >= 1
  {
    |st.perf| == st.framesRead / cfg.interval &&
    (forall j :: 0 <= j < |st.perf| ==> st.perf[j].frame == cfg.range.first + (j + 1) * cfg.interval - 1) &&
    (forall j :: 0 <= j < |st.perf| ==> st.fpsMin <= st.perf[j].fpsCurrent <= st.fpsMax) &&
    (forall j :: 0 <= j < |st.perf| ==> st.perf[j].processMemory <= st.memPeak)
  }

  /** One turn keeps Recorded; a turn that stops the loop early does so
      right after recording the frame it stops at. */
  lemma StepKeepsRecorded(cfg: Config, k: nat, s: Sample, st: LoopState)
    requires cfg.interval >= 1 && s.time > cfg.startTime
    requires Recorded(cfg, st) && st.framesRead == k && st.lastFrame == cfg.range.last
    ensures match Step(cfg, cfg.range.first + k, s, st)
      case Next(st') => Recorded(cfg, st') && st'.framesRead == k + 1 && st'.lastFrame == cfg.range.last
      case Break(st', end) =>
        end.Failed? ||
        (Recorded(cfg, st') && st'.framesRead == k + 1 && st'.framesRead % cfg.interval == 0 &&
         st'.lastFrame == cfg.range.first + k)
  {
    DivSucc(k, cfg.interval);
    var r := Step(cfg, cfg.range.first + k, s, st);
    if s.fetchError.None? && (k + 1) % cfg.interval == 0 && !(cfg.gpuInfo && s.gpuReadError) {
      var st' := r.st;
      assert st'.perf == st.perf + [st'.perf[|st.perf|]];
      assert st'.perf[|st.perf|].frame == cfg.range.first + (|st.perf| + 1) * cfg.interval - 1;
    }
  }

  /** When one turn stops the loop without an error: only on a record
      turn whose display was refreshed (at least REFRESH_INTERVAL after the
      last refresh), at the current frame; with TimeLimitReached exactly
      when a limit is set and the elapsed time has reached it, and
      otherwise with Cancelled because Esc was pressed.  Conversely, a
      record turn before the refresh interval never stops, and a refreshed
      one stops exactly when the limit is reached or Esc was pressed. */
  lemma StepStops(cfg: Config, cur: nat, s: Sample, st: LoopState)
    requires cfg.interval >= 1 && s.time > cfg.startTime
    ensures var r := Step(cfg, cur, s, st);
      r.Break? && !r.end.Failed? ==>
        (st.framesRead + 1) % cfg.interval == 0 &&
        s.time - st.lastDisplayTime >= REFRESH_INTERVAL && r.st.lastDisplayTime == s.time &&
        r.st.lastFrame == cur &&
        (r.end == TimeLimitReached <==> cfg.timeLimit != -1 && r.st.elapsedMS >= cfg.timeLimit * 1000) &&
        (r.end == Cancelled ==> s.escPressed)
    ensures var r := Step(cfg, cur, s, st);
      s.fetchError.None? && (st.framesRead + 1) % cfg.interval == 0 && !(cfg.gpuInfo && s.gpuReadError) ==>
        (s.time - st.lastDisplayTime < REFRESH_INTERVAL ==> r.Next?) &&
        (s.time - st.lastDisplayTime >= REFRESH_INTERVAL ==>
           (r.Break? <==> (cfg.timeLimit != -1 && r.st.elapsedMS >= cfg.timeLimit * 1000) || s.escPressed))
  {
  }

  /** The loop from the k-th frame on keeps Recorded; when it completes
      all frames were read, and when it stops early the last frame is the
      one it stopped at. */
  lemma {:induction false} RunKeepsRecorded(cfg: Config, samples: seq<Sample>, k: nat, st: LoopState)
    requires ValidRun(cfg, samples) && k <= |samples|
    requires Recorded(cfg, st) && st.framesRead == k && st.lastFrame == cfg.range.last
    ensures var o := RunFrom(cfg, samples, k, st);
      !o.end.Failed? ==>
        Recorded(cfg, o.st) &&
        cfg.range.first <= o.st.lastFrame <= cfg.range.last &&
        o.st.framesRead == o.st.lastFrame - cfg.range.first + 1 &&
        (o.end == Completed ==> o.st.lastFrame == cfg.range.last) &&
        (o.end != Completed ==> o.st.framesRead % cfg.interval == 0)
    decreases |samples| - k
  {
    if k < |samples| {
      StepKeepsRecorded(cfg, k, samples[k], st);
      match Step(cfg, cfg.range.first + k, samples[k], st)
      case Next(st') => RunKeepsRecorded(cfg, samples, k + 1, st');
      case Break(st', end) =>
    }
  }

  /** Frame i of the range (counted from 0) is a statistics point: the
      counters are read there, at every multiple of the stride and at the
      last frame of the range. */
  predicate StatPoint(cfg: Config, i: nat) {
    cfg.interval >= 1 && ((i + 1) % cfg.interval == 0 || i + 1 == cfg.range.toProcess)
  }

  /** The running maximum dwMemPeakMB keeps over the memory readings at the
      statistics points among the first n frames, from 0. */
  function PeakOf(cfg: Config, samples: seq<Sample>, n: nat): nat
    requires n <= |samples|
  {
    if n == 0 then 0
    else
      var p := PeakOf(cfg, samples, n - 1);
      if StatPoint(cfg, n - 1) && samples[n - 1].memory > p then samples[n - 1].memory else p
  }

  /** PeakOf is the maximum: no statistics-point reading exceeds it, and it
      is 0 or one of those readings. */
  lemma {:induction false} PeakOfIsMax(cfg: Config, samples: seq<Sample>, n: nat)
    requires n <= |samples|
    ensures forall i :: 0 <= i < n && StatPoint(cfg, i) ==> samples[i].memory <= PeakOf(cfg, samples, n)
    ensures PeakOf(cfg, samples, n) == 0 ||
      exists i :: 0 <= i < n && StatPoint(cfg, i) && samples[i].memory == PeakOf(cfg, samples, n)
  {
    if n > 0 {
      PeakOfIsMax(cfg, samples, n - 1);
      var p := PeakOf(cfg, samples, n - 1);
      if StatPoint(cfg, n - 1) && samples[n - 1].memory > p {
        assert 0 <= n - 1 < n && StatPoint(cfg, n - 1) && samples[n - 1].memory == PeakOf(cfg, samples, n);
      }
    }
  }

  /** What the loop's summary variables hold after each turn that goes on:
      the peak memory is PeakOf the frames read; with no record the rate
      extremes keep their starting values 1e20 and 0; every recorded rate
      is positive and at most stride / 0.000001; the maximum is a recorded
      rate and the minimum is one too unless it is still 1e20. */
  ghost predicate Summarised(cfg: Config, samples: seq<Sample>, st: LoopState)
    requires st.framesRead <= |samples|
  {
    st.memPeak == PeakOf(cfg, samples, st.framesRead) &&
    (|st.perf| == 0 ==> st.fpsMin == 1.0e20 && st.fpsMax == 0.0) &&
    st.fpsMin <= 1.0e20 &&
    (forall j :: 0 <= j < |st.perf| ==> 0.0 < st.perf[j].fpsCurrent <= cfg.interval as real * 1000000.0) &&
    (|st.perf| >= 1 ==> exists j :: 0 <= j < |st.perf| && st.perf[j].fpsCurrent == st.fpsMax) &&
    (|st.perf| >= 1 ==> st.fpsMin == 1.0e20 || exists j :: 0 <= j < |st.perf| && st.perf[j].fpsCurrent == st.fpsMin)
  }

  /** The rate of a stride: positive and at most the stride over the
      0.000001 s floor. */
  lemma RateBounds(n: real, d: real)
    requires n > 0.0 && d >= 0.000001
    ensures 0.0 < n / d <= n * 1000000.0
  {
    var q := n / d;
    assert q * d == n;
  }

  /** Appending a record whose rate sets the new extremes keeps the
      rate part of Summarised. */
  lemma AppendRate(perf: seq<PerfData>, rec: PerfData, mn: real, mx: real, bound: real)
    requires mn <= 1.0e20 && 0.0 < rec.fpsCurrent <= bound
    requires forall j :: 0 <= j < |perf| ==> 0.0 < perf[j].fpsCurrent <= bound
    requires |perf| == 0 ==> mn == 1.0e20 && mx == 0.0
    requires |perf| >= 1 ==> exists j :: 0 <= j < |perf| && perf[j].fpsCurrent == mx
    requires |perf| >= 1 ==> mn == 1.0e20 || exists j :: 0 <= j < |perf| && perf[j].fpsCurrent == mn
    ensures var p := perf + [rec];
      var mx' := if rec.fpsCurrent > mx then rec.fpsCurrent else mx;
      var mn' := if rec.fpsCurrent < mn then rec.fpsCurrent else mn;
      mn' <= 1.0e20 &&
      (forall j :: 0 <= j < |p| ==> 0.0 < p[j].fpsCurrent <= bound) &&
      (exists j :: 0 <= j < |p| && p[j].fpsCurrent == mx') &&
      (mn' == 1.0e20 || exists j :: 0 <= j < |p| && p[j].fpsCurrent == mn')
  {
    var p := perf + [rec];
    assert p[|perf|] == rec;
    assert forall j :: 0 <= j < |perf| ==> p[j] == perf[j];
    if rec.fpsCurrent <= mx {
      var j :| 0 <= j < |perf| && perf[j].fpsCurrent == mx;
      assert p[j].fpsCurrent == mx;
    }
    if rec.fpsCurrent >= mn && mn != 1.0e20 {
      var j :| 0 <= j < |perf| && perf[j].fpsCurrent == mn;
      assert p[j].fpsCurrent == mn;
    }
  }

  /** A turn that reads the counters and records a sample keeps
      Summarised. */
  lemma RecordKeepsSummarised(cfg: Config, samples: seq<Sample>, k: nat, st: LoopState)
    requires ValidRun(cfg, samples) && k < |samples| && st.framesRead == k
    requires Summarised(cfg, samples, st)
    requires samples[k].fetchError.None? && (k + 1) % cfg.interval == 0 && !(cfg.gpuInfo && samples[k].gpuReadError)
    ensures Summarised(cfg, samples, Step(cfg, cfg.range.first + k, samples[k], st).st)
  {
    var s := samples[k];
    var r := Step(cfg, cfg.range.first + k, s, st).st;
    var dt := s.time - st.lastIntervalTime;
    var d := if dt > 0.000001 then dt else 0.000001;
    var fps := cfg.interval as real / d;
    RateBounds(cfg.interval as real, d);
    var rec := r.perf[|st.perf|];
    assert r.perf == st.perf + [rec] && rec.fpsCurrent == fps;
    assert r.fpsMax == (if fps > st.fpsMax then fps else st.fpsMax);
    assert r.fpsMin == (if fps < st.fpsMin then fps else st.fpsMin);
    AppendRate(st.perf, rec, st.fpsMin, st.fpsMax, cfg.interval as real * 1000000.0);
    assert r.memPeak == PeakOf(cfg, samples, k + 1);
  }

  /** One turn keeps Summarised, unless it fails. */
  lemma StepKeepsSummarised(cfg: Config, samples: seq<Sample>, k: nat, st: LoopState)
    requires ValidRun(cfg, samples) && k < |samples| && st.framesRead == k
    requires Summarised(cfg, samples, st)
    ensures match Step(cfg, cfg.range.first + k, samples[k], st)
      case Next(st') => st'.framesRead == k + 1 && Summarised(cfg, samples, st')
      case Break(st', end) => end.Failed? || (st'.framesRead == k + 1 && Summarised(cfg, samples, st'))
  {
    var s := samples[k];
    if s.fetchError.None? && !(cfg.gpuInfo && s.gpuReadError && StatPoint(cfg, k)) {
      if (k + 1) % cfg.interval == 0 {
        RecordKeepsSummarised(cfg, samples, k, st);
      } else {
        assert PeakOf(cfg, samples, k + 1) ==
          (if StatPoint(cfg, k) && s.memory > st.memPeak then s.memory else st.memPeak);
      }
    }
  }

  /** The loop from the k-th frame on keeps Summarised. */
  lemma {:induction false} RunKeepsSummarised(cfg: Config, samples: seq<Sample>, k: nat, st: LoopState)
    requires ValidRun(cfg, samples) && k <= |samples| && st.framesRead == k
    requires Summarised(cfg, samples, st)
    ensures var o := RunFrom(cfg, samples, k, st);
      !o.end.Failed? ==> o.st.framesRead <= |samples| && Summarised(cfg, samples, o.st)
    decreases |samples| - k
  {
    if k < |samples| {
      StepKeepsSummarised(cfg, samples, k, st);
      match Step(cfg, cfg.range.first + k, samples[k], st)
      case Next(st') => RunKeepsSummarised(cfg, samples, k + 1, st');
      case Break(st', end) =>
    }
  }

  /** The record count alone: one record per completed stride, and a
      completed run reads the whole range. */
  lemma RunRecordCount(cfg: Config, samples: seq<Sample>)
    requires ValidRun(cfg, samples)
    ensures var o := RunFrom(cfg, samples, 0, Initial(cfg));
      !o.end.Failed? ==>
        |o.st.perf| == o.st.framesRead / cfg.interval &&
        (o.end == Completed ==> o.st.framesRead == cfg.range.toProcess)
  {
    RunKeepsRecorded(cfg, samples, 0, Initial(cfg));
  }

  /** The frame loop's promise: the run ends having read every frame up to
      its last one; there is one record per completed stride, record j
      taken at frame first + (j+1)*interval - 1; the minimum and maximum
      rate bound every record and the peak memory bounds every record's
      memory.  A run cut short by the time limit or Esc stops on a
      recorded frame. */
  lemma RunRecords(cfg: Config, samples: seq<Sample>)
    requires ValidRun(cfg, samples)
    ensures var o := RunFrom(cfg, samples, 0, Initial(cfg));
      !o.end.Failed? ==>
        o.st.framesRead == o.st.lastFrame - cfg.range.first + 1 &&
        (o.end == Completed ==> o.st.framesRead == cfg.range.toProcess) &&
        |o.st.perf| == o.st.framesRead / cfg.interval &&
        (o.end != Completed ==> |o.st.perf| * cfg.interval == o.st.framesRead) &&
        (forall j :: 0 <= j < |o.st.perf| ==> o.st.perf[j].frame == cfg.range.first + (j + 1) * cfg.interval - 1) &&
        (forall j :: 0 <= j < |o.st.perf| ==> o.st.fpsMin <= o.st.perf[j].fpsCurrent <= o.st.fpsMax) &&
        (forall j :: 0 <= j < |o.st.perf| ==> o.st.perf[j].processMemory <= o.st.memPeak)
    ensures var o := RunFrom(cfg, samples, 0, Initial(cfg));
      !o.end.Failed? ==>
        o.st.framesRead <= |samples| && o.st.memPeak == PeakOf(cfg, samples, o.st.framesRead) &&
        (|o.st.perf| == 0 ==> o.st.fpsMin == 1.0e20 && o.st.fpsMax == 0.0) &&
        (|o.st.perf| >= 1 ==> exists j :: 0 <= j < |o.st.perf| && o.st.perf[j].fpsCurrent == o.st.fpsMax) &&
        (|o.st.perf| >= 1 && cfg.interval < UINT32_MODULUS ==>
           exists j :: 0 <= j < |o.st.perf| && o.st.perf[j].fpsCurrent == o.st.fpsMin)
  {
    var o := RunFrom(cfg, samples, 0, Initial(cfg));
    RunKeepsRecorded(cfg, samples, 0, Initial(cfg));
    RunKeepsSummarised(cfg, samples, 0, Initial(cfg));
    if !o.end.Failed? && |o.st.perf| >= 1 && cfg.interval < UINT32_MODULUS {
      assert o.st.fpsMin <= o.st.perf[0].fpsCurrent <= cfg.interval as real * 1000000.0;
    }
    if !o.end.Failed? && o.end != Completed {
      DivExact(o.st.framesRead, cfg.interval);
    }
  }

  lemma DivExact(n: nat, d: nat)
    requires d >= 1 && n % d == 0
    ensures (n / d) * d == n
  {
    assert n == (n / d) * d + n % d;
  }
}
