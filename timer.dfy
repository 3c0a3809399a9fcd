/** CTimer: the millisecond clock built on the 32-bit tick count, and the
    "HH:MM:SS.mmm" text of a duration. */
module Timer {
  import opened Text

  // ---------------------------------------------------------------------
  // FormatTimeString

  /** The four unsigned fields FormatTimeString prints. */
  datatype TimeFields = TimeFields(hours: nat, minutes: nat, seconds: nat, millis: nat)

  /** The milliseconds the four fields stand for. */
  function FieldsValue(f: TimeFields): int {
    f.hours * 3600000 + f.minutes * 60000 + f.seconds * 1000 + f.millis
  }

  predicate IsInt64(x: int) { INT64_MIN <= x <= INT64_MAX }

  /** The fields as the code computes them. Each quotient is cast to
      unsigned int before the `% 60`; for the milliseconds the cast binds
      before the `% 1000`, so only the low 32 bits of the input count. */
  function SplitAsWritten(ms: int): TimeFields
    requires IsInt64(ms)
  {
    TimeFields(U32(TruncDiv(ms, 3600000)), U32(TruncDiv(ms, 60000)) % 60,
      U32(TruncDiv(ms, 1000)) % 60, U32(ms) % 1000)
  }

  /** The fields with the milliseconds taken before the cast,
      `(unsigned int)(ms % 1000)` for a non-negative ms. */
  function Split(ms: int): TimeFields
    requires IsInt64(ms)
  {
    var f := SplitAsWritten(ms);
    f.(millis := if ms >= 0 then ms % 1000 else U32(-((-ms) % 1000)))
  }

  function Pad0(n: nat, width: nat): string {
    PadLeft(Decimal(n), width, '0')
  }

  /** The text after the hours: ":MM:SS.mmm". */
  function TimeTail(f: TimeFields): string {
    ":" + Pad0(f.minutes, 2) + ":" + Pad0(f.seconds, 2) + "." + Pad0(f.millis, 3)
  }

  /** The hours column: "   %02u" below 100 hours, otherwise "%5u". */
  function HoursColumn(hours: nat): string {
    if hours < 100 then "   " + Pad0(hours, 2) else PadLeft(Decimal(hours), 5, ' ')
  }

  /** sTime.erase(0, sTime.find_first_not_of(" ")). */
  function StripLeadingSpaces(s: string): string {
    match FindFirstNotOf(s, {' '})
    case None => []
    case Some(k) => s[k..]
  }

  /** The characters _snprintf may write into the 128-byte buffer. */
  const BUFFER_COUNT: nat := 127

  function FormatFields(f: TimeFields, rightAligned: bool): string {
    var text := HoursColumn(f.hours) + TimeTail(f);
    if |text| > BUFFER_COUNT then "buffer overflow"
    else if rightAligned then text
    else StripLeadingSpaces(text)
  }

  /** FormatTimeString(i_milliseconds, b_rightaligned), as written. */
  function FormatTimeStringAsWritten(ms: int, rightAligned: bool): string
    requires IsInt64(ms)
  {
    FormatFields(SplitAsWritten(ms), rightAligned)
  }

  /** FormatTimeString with the milliseconds field taken before the cast. */
  function FormatTimeString(ms: int, rightAligned: bool): string
    requires IsInt64(ms)
  {
    FormatFields(Split(ms), rightAligned)
  }

  /** The milliseconds, seconds, minutes and hours of a non-negative
      duration, each a quotient of the previous one. */
  lemma DivisionChain(ms: int)
    requires ms >= 0
    ensures ms / 60000 == (ms / 1000) / 60
    ensures ms / 3600000 == (ms / 60000) / 60
    ensures ms == (ms / 3600000) * 3600000 + ((ms / 60000) % 60) * 60000 + ((ms / 1000) % 60) * 1000 + ms % 1000
  {
    var q1, r1 := ms / 1000, ms % 1000;
    var q2, r2 := q1 / 60, q1 % 60;
    var q3, r3 := q2 / 60, q2 % 60;
    assert ms == 60000 * q2 + (1000 * r2 + r1);
    assert ms / 60000 == q2;
    assert ms == 3600000 * q3 + (60000 * r3 + 1000 * r2 + r1);
    assert ms / 3600000 == q3;
  }

  /** Below 2^32 ms the as-written fields are the usual decomposition. */
  lemma SplitAsWrittenDecomposes(ms: int)
    requires 0 <= ms < UINT32_MODULUS
    ensures var f := SplitAsWritten(ms);
      f.hours * 3600000 + f.minutes * 60000 + f.seconds * 1000 + f.millis == ms &&
      f.minutes < 60 && f.seconds < 60 && f.millis < 1000
  {
    DivisionChain(ms);
    var f := SplitAsWritten(ms);
    assert f.hours == ms / 3600000;
    assert f.minutes == (ms / 60000) % 60;
    assert f.seconds == (ms / 1000) % 60;
    assert f.millis == ms % 1000;
  }

  /** At 2^32 ms (about 49.7 days) the as-written milliseconds field is
      0 instead of 296. */
  lemma SplitAsWrittenLosesMillis()
    ensures IsInt64(UINT32_MODULUS)
    ensures SplitAsWritten(UINT32_MODULUS).millis == 0
    ensures UINT32_MODULUS % 1000 == 296
  {
  }

  /** With the milliseconds taken first, the fields decompose every
      duration whose second count fits in 32 bits (about 136 years). */
  lemma SplitDecomposes(ms: int)
    requires 0 <= ms < 1000 * UINT32_MODULUS
    ensures var f := Split(ms);
      FieldsValue(f) == ms &&
      f.minutes < 60 && f.seconds < 60 && f.millis < 1000 && f.hours < UINT32_MODULUS
  {
    DivisionChain(ms);
    var f := Split(ms);
    assert ms / 1000 < UINT32_MODULUS;
    assert f.hours == ms / 3600000;
    assert f.minutes == (ms / 60000) % 60;
    assert f.seconds == (ms / 1000) % 60;
    assert f.millis == ms % 1000;
  }

  lemma PadOfSmall(n: nat, width: nat)
    requires 1 <= width && n < Pow10(width)
    ensures |Pad0(n, width)| == width
  {
    DecimalLength(n, width);
  }

  lemma TailLength(f: TimeFields)
    requires f.minutes < 60 && f.seconds < 60 && f.millis < 1000
    ensures |TimeTail(f)| == 10
  {
    Pow10Values();
    PadOfSmall(f.minutes, 2);
    PadOfSmall(f.seconds, 2);
    PadOfSmall(f.millis, 3);
  }

  lemma HoursColumnLength(hours: nat)
    requires hours < UINT32_MODULUS
    ensures |HoursColumn(hours)| <= 10
    ensures hours < 100000 ==> |HoursColumn(hours)| == 5
  {
    Pow10Values();
    if hours < 100 {
      PadOfSmall(hours, 2);
    } else {
      DecimalLength(hours, 10);
      if hours < 100000 {
        DecimalLength(hours, 5);
      }
    }
  }

  /** With fewer than 100 hours the right-aligned text is
      "   HH:MM:SS.mmm", 15 characters; up to 99999 hours "%5u" keeps
      the width at 15. */
  lemma FormatWidth(ms: int)
    requires 0 <= ms < 100000 * 3600000
    ensures |FormatTimeString(ms, true)| == 15
  {
    SplitDecomposes(ms);
    var f := Split(ms);
    TailLength(f);
    HoursColumnLength(f.hours);
  }

  /** Below 2^32 ms the code as written and the corrected split print
      the same text. */
  lemma AsWrittenAgrees(ms: int, rightAligned: bool)
    requires 0 <= ms < UINT32_MODULUS
    ensures FormatTimeStringAsWritten(ms, rightAligned) == FormatTimeString(ms, rightAligned)
  {
    assert SplitAsWritten(ms) == Split(ms);
  }

  /** The as-written fields of a duration whose second count fits in 32
      bits: the hours, minutes and seconds are the usual ones, and the
      milliseconds, wrong or not, stay below 1000. */
  lemma SplitAsWrittenBounds(ms: int)
    requires 0 <= ms < 1000 * UINT32_MODULUS
    ensures var f := SplitAsWritten(ms);
      f.hours == ms / 3600000 && f.minutes == (ms / 60000) % 60 && f.seconds == (ms / 1000) % 60 &&
      f.minutes < 60 && f.seconds < 60 && f.millis < 1000 && f.hours < UINT32_MODULUS
  {
    DivisionChain(ms);
    assert ms / 1000 < UINT32_MODULUS;
  }

  /** The width FormatWidth states holds for the code as written too:
      the wrong milliseconds field is still three digits. */
  lemma FormatWidthAsWritten(ms: int)
    requires 0 <= ms < 100000 * 3600000
    ensures |FormatTimeStringAsWritten(ms, true)| == 15
  {
    SplitAsWrittenBounds(ms);
    var f := SplitAsWritten(ms);
    TailLength(f);
    HoursColumnLength(f.hours);
  }

  /** FormatAlignment for the code as written. */
  lemma FormatAlignmentAsWritten(ms: int)
    requires 0 <= ms < 1000 * UINT32_MODULUS
    ensures var r := FormatTimeStringAsWritten(ms, false);
      r != [] && IsDigit(r[0])
    ensures var f := SplitAsWritten(ms);
      FormatTimeStringAsWritten(ms, true) == HoursColumn(f.hours) + TimeTail(f)
  {
    var f := SplitAsWritten(ms);
    SplitAsWrittenBounds(ms);
    FieldsJoined(f, false);
    FieldsJoined(f, true);
    HoursColumnShape(f.hours);
  }

  /** Right-aligned text is returned as padded; otherwise the leading
      spaces are gone and the text starts with a digit. */
  lemma FormatAlignment(ms: int)
    requires 0 <= ms < 1000 * UINT32_MODULUS
    ensures var r := FormatTimeString(ms, false);
      r != [] && IsDigit(r[0])
    ensures var f := Split(ms);
      FormatTimeString(ms, true) == HoursColumn(f.hours) + TimeTail(f)
  {
    var f := Split(ms);
    SplitDecomposes(ms);
    FieldsJoined(f, false);
    FieldsJoined(f, true);
    HoursColumnShape(f.hours);
  }

  /** The digits of the hours column without its padding. */
  function HoursDigits(hours: nat): string {
    if hours < 100 then Pad0(hours, 2) else Decimal(hours)
  }

  /** The hours column is spaces and then the hours digits. */
  predicate SpacesThen(head: string, d: string) {
    |d| >= 1 && |d| <= |head| && head[|head| - |d|..] == d &&
    forall i :: 0 <= i < |head| - |d| ==> head[i] == ' '
  }

  lemma HoursColumnShape(hours: nat)
    ensures SpacesThen(HoursColumn(hours), HoursDigits(hours))
    ensures AllDigits(HoursDigits(hours)) && DigitsValue(HoursDigits(hours)) == hours
  {
    if hours < 100 {
      ZeroPaddedValue(hours, 2);
      var d := Pad0(hours, 2);
      assert HoursColumn(hours) == "   " + d;
    } else {
      DecimalRoundTrip(hours);
    }
  }

  lemma TextShort(f: TimeFields)
    requires f.hours < UINT32_MODULUS && f.minutes < 60 && f.seconds < 60 && f.millis < 1000
    ensures |HoursColumn(f.hours) + TimeTail(f)| <= BUFFER_COUNT
  {
    TailLength(f);
    HoursColumnLength(f.hours);
  }

  // ---------------------------------------------------------------------
  // Reading the text back

  /** Reads "H...:MM:SS.mmm", with optional leading spaces, back into
      milliseconds. */
  function ParseTimeString(t: string): Option<int> {
    if |t| < 10 || t[|t| - 10] != ':' || t[|t| - 7] != ':' || t[|t| - 4] != '.' then None
    else
      var hh := StripLeadingSpaces(t[..|t| - 10]);
      var mm := t[|t| - 9..|t| - 7];
      var ss := t[|t| - 6..|t| - 4];
      var mmm := t[|t| - 3..];
      if hh == [] || !AllDigits(hh) || !AllDigits(mm) || !AllDigits(ss) || !AllDigits(mmm) then None
      else Some(DigitsValue(hh) * 3600000 + DigitsValue(mm) * 60000 + DigitsValue(ss) * 1000 + DigitsValue(mmm))
  }

  lemma StripSpacesOfPadded(head: string, d: string)
    requires SpacesThen(head, d) && AllDigits(d)
    ensures StripLeadingSpaces(head) == d
  {
    FindFirstNotOfIs(head, {' '}, |head| - |d|);
  }

  lemma StripSpacesBeforeTail(head: string, d: string, tail: string)
    requires SpacesThen(head, d) && AllDigits(d)
    ensures StripLeadingSpaces(head + tail) == d + tail
  {
    var k := |head| - |d|;
    FindFirstNotOfIs(head + tail, {' '}, k);
    assert (head + tail)[k..] == d + tail;
  }

  /** The tail is ":MM:SS.mmm" with each field zero-padded to its width. */
  lemma TailShape(f: TimeFields)
    requires f.minutes < 60 && f.seconds < 60 && f.millis < 1000
    ensures var t := TimeTail(f);
      |t| == 10 && t[0] == ':' && t[3] == ':' && t[6] == '.' &&
      t[1..3] == Pad0(f.minutes, 2) && t[4..6] == Pad0(f.seconds, 2) && t[7..] == Pad0(f.millis, 3)
  {
    TailLength(f);
    var mm, ss, mmm := Pad0(f.minutes, 2), Pad0(f.seconds, 2), Pad0(f.millis, 3);
    var t := TimeTail(f);
    assert t == ":" + mm + ":" + ss + "." + mmm;
    assert |mm| == 2 && |ss| == 2 && |mmm| == 3 by {
      Pow10Values();
      PadOfSmall(f.minutes, 2);
      PadOfSmall(f.seconds, 2);
      PadOfSmall(f.millis, 3);
    }
    assert t[1..3] == mm;
    assert t[4..6] == ss;
    assert t[7..] == mmm;
  }

  /** Reading back a text made of an hours part and a well-formed tail. */
  lemma ParseJoined(h: string, d: string, tail: string, f: TimeFields)
    requires StripLeadingSpaces(h) == d && d != [] && AllDigits(d) && DigitsValue(d) == f.hours
    requires |tail| == 10 && tail[0] == ':' && tail[3] == ':' && tail[6] == '.'
    requires AllDigits(tail[1..3]) && AllDigits(tail[4..6]) && AllDigits(tail[7..])
    requires DigitsValue(tail[1..3]) == f.minutes && DigitsValue(tail[4..6]) == f.seconds
    requires DigitsValue(tail[7..]) == f.millis
    ensures ParseTimeString(h + tail) == Some(FieldsValue(f))
  {
    var t := h + tail;
    assert t[..|t| - 10] == h;
    assert t[|t| - 9..|t| - 7] == tail[1..3];
    assert t[|t| - 6..|t| - 4] == tail[4..6];
    assert t[|t| - 3..] == tail[7..];
  }

  /** Either way the text is the hours part, padded or not, then the tail. */
  lemma FieldsJoined(f: TimeFields, rightAligned: bool)
    requires f.hours < UINT32_MODULUS && f.minutes < 60 && f.seconds < 60 && f.millis < 1000
    ensures FormatFields(f, rightAligned) ==
      (if rightAligned then HoursColumn(f.hours) else HoursDigits(f.hours)) + TimeTail(f)
  {
    TextShort(f);
    HoursColumnShape(f.hours);
    StripSpacesBeforeTail(HoursColumn(f.hours), HoursDigits(f.hours), TimeTail(f));
  }

  lemma FieldsRoundTrip(f: TimeFields, rightAligned: bool)
    requires f.hours < UINT32_MODULUS && f.minutes < 60 && f.seconds < 60 && f.millis < 1000
    ensures ParseTimeString(FormatFields(f, rightAligned)) == Some(FieldsValue(f))
  {
    var head := HoursColumn(f.hours);
    var tail := TimeTail(f);
    var d := HoursDigits(f.hours);
    HoursColumnShape(f.hours);
    TailShape(f);
    ZeroPaddedValue(f.minutes, 2);
    ZeroPaddedValue(f.seconds, 2);
    ZeroPaddedValue(f.millis, 3);
    FieldsJoined(f, rightAligned);
    var h' := if rightAligned then head else d;
    StripSpacesOfPadded(h', d);
    ParseJoined(h', d, tail, f);
  }

  /** The time text read back gives the milliseconds it was made from,
      aligned or not. */
  lemma FormatRoundTrip(ms: int, rightAligned: bool)
    requires 0 <= ms < 1000 * UINT32_MODULUS
    ensures ParseTimeString(FormatTimeString(ms, rightAligned)) == Some(ms)
  {
    SplitRoundTrip(ms, rightAligned);
  }

  lemma SplitRoundTrip(ms: int, rightAligned: bool)
    requires 0 <= ms < 1000 * UINT32_MODULUS
    ensures ParseTimeString(FormatFields(Split(ms), rightAligned)) == Some(ms)
  {
    var f := Split(ms);
    SplitDecomposes(ms);
    FieldsRoundTrip(f, rightAligned);
  }

  // ---------------------------------------------------------------------
  // GetSTDTimerMS

  /** The static uiLastSTDTimer of GetSTDTimerMS, as a field. */
  class CTimer {
    var lastSTDTimer: nat

    constructor()
      ensures lastSTDTimer == 0
    {
      lastSTDTimer := 0;
    }

    /** GetSTDTimerMS, with GetTickCount's reading as `tick`: 2^32 is
        added when the tick is below the one the previous call stored,
        and the raw tick is always stored. */
    method GetSTDTimerMS(tick: nat) returns (ms: nat)
      requires tick < UINT32_MODULUS
      modifies this
      ensures lastSTDTimer == tick
      ensures ms == STDTimerStep(old(lastSTDTimer), tick)
      ensures tick < old(lastSTDTimer) ==> ms == tick + UINT32_MODULUS
      ensures old(lastSTDTimer) <= tick ==> ms == tick
    {
      var wrapComp := if tick < lastSTDTimer then UINT32_MODULUS else 0;
      lastSTDTimer := tick;
      ms := tick + wrapComp;
    }
  }

  /** The value GetSTDTimerMS returns after a call that stored `last`. */
  function STDTimerStep(last: nat, tick: nat): nat {
    tick + (if tick < last then UINT32_MODULUS else 0)
  }

  /** The values successive calls return for the ticks, starting from the
      stored `last`. */
  function STDTimerReadings(last: nat, ticks: seq<nat>): (r: seq<nat>)
    ensures |r| == |ticks|
    decreases |ticks|
  {
    if ticks == [] then []
    else [STDTimerStep(last, ticks[0])] + STDTimerReadings(ticks[0], ticks[1..])
  }

  /** The tick the `i`-th call compares with: the stored `last` for the
      first call, the previous tick afterwards. */
  function PrevTick(last: nat, ticks: seq<nat>, i: nat): nat
    requires i < |ticks|
  {
    if i == 0 then last else ticks[i - 1]
  }

  /** Each reading is its raw tick, plus 2^32 exactly when that tick is
      below the one before it. */
  lemma {:induction false} STDTimerReadingsAt(last: nat, ticks: seq<nat>)
    ensures forall i :: 0 <= i < |ticks| ==>
      STDTimerReadings(last, ticks)[i] ==
        ticks[i] + (if ticks[i] < PrevTick(last, ticks, i) then UINT32_MODULUS else 0)
    decreases |ticks|
  {
    if ticks != [] {
      var rest := ticks[1..];
      STDTimerReadingsAt(ticks[0], rest);
      var r := STDTimerReadings(last, ticks);
      forall i | 0 <= i < |ticks|
        ensures r[i] == ticks[i] + (if ticks[i] < PrevTick(last, ticks, i) then UINT32_MODULUS else 0)
      {
        if i > 0 {
          assert r[i] == STDTimerReadings(ticks[0], rest)[i - 1];
          assert rest[i - 1] == ticks[i];
          assert PrevTick(ticks[0], rest, i - 1) == ticks[i - 1];
        }
      }
    }
  }

  /** Over 32-bit ticks: a reading is never below its tick and at most
      2^32 above it; it lies above 2^32 exactly when the tick fell below
      the previous one; and the call after that one, when the tick has
      not fallen again, reads the raw tick. */
  lemma STDTimerReadingsBounds(last: nat, ticks: seq<nat>)
    requires forall i :: 0 <= i < |ticks| ==> ticks[i] < UINT32_MODULUS
    ensures forall i :: 0 <= i < |ticks| ==>
      ticks[i] <= STDTimerReadings(last, ticks)[i] <= ticks[i] + UINT32_MODULUS
    ensures forall i :: 0 <= i < |ticks| ==>
      (STDTimerReadings(last, ticks)[i] >= UINT32_MODULUS <==> ticks[i] < PrevTick(last, ticks, i))
    ensures forall i :: 1 <= i < |ticks| && ticks[i - 1] <= ticks[i] ==>
      STDTimerReadings(last, ticks)[i] == ticks[i]
  {
    STDTimerReadingsAt(last, ticks);
  }

  /** Compensation is applied only to the first call after a wrap: the
      ticks 2^32-10, 5, 6 read as 2^32-10, 2^32+5 and then 6, so the clock
      runs backwards. */
  lemma STDTimerRunsBackwards()
    ensures var r := STDTimerReadings(0, [UINT32_MODULUS - 10, 5, 6]);
      r == [UINT32_MODULUS - 10, UINT32_MODULUS + 5, 6] && r[2] < r[1]
  {
    var a: nat := UINT32_MODULUS - 10;
    assert [a, 5, 6][1..] == [5, 6];
    assert [5, 6][1..] == [6];
    assert [6][1..] == [];
    assert STDTimerReadings(6, []) == [];
    assert STDTimerReadings(5, [6]) == [6];
    assert STDTimerReadings(a, [5, 6]) == [UINT32_MODULUS + 5, 6];
  }

  /** The clock with a persistent wrap counter: every wrap seen so far
      adds 2^32. */
  class CWrapTimer {
    var lastTick: nat
    var wraps: nat

    constructor()
      ensures lastTick == 0 && wraps == 0
    {
      lastTick := 0;
      wraps := 0;
    }

    method GetSTDTimerMS(tick: nat) returns (ms: nat)
      requires tick < UINT32_MODULUS
      modifies this
      ensures lastTick == tick
      ensures wraps == old(wraps) + (if tick < old(lastTick) then 1 else 0)
      ensures ms == tick + wraps * UINT32_MODULUS
    {
      if tick < lastTick {
        wraps := wraps + 1;
      }
      lastTick := tick;
      ms := tick + wraps * UINT32_MODULUS;
    }
  }

  /** The values successive calls of CWrapTimer.GetSTDTimerMS return. */
  function WrapTimerReadings(last: nat, wraps: nat, ticks: seq<nat>): (r: seq<nat>)
    ensures |r| == |ticks|
    decreases |ticks|
  {
    if ticks == [] then []
    else
      var w := wraps + (if ticks[0] < last then 1 else 0);
      [ticks[0] + w * UINT32_MODULUS] + WrapTimerReadings(ticks[0], w, ticks[1..])
  }

  /** With the counter the clock never runs backwards, whatever the ticks. */
  lemma {:induction false} WrapTimerMonotone(last: nat, wraps: nat, ticks: seq<nat>)
    requires last < UINT32_MODULUS
    requires forall i :: 0 <= i < |ticks| ==> ticks[i] < UINT32_MODULUS
    ensures forall i :: 0 <= i < |ticks| ==>
      last + wraps * UINT32_MODULUS <= WrapTimerReadings(last, wraps, ticks)[i]
    ensures forall i, j :: 0 <= i < j < |ticks| ==>
      WrapTimerReadings(last, wraps, ticks)[i] <= WrapTimerReadings(last, wraps, ticks)[j]
    decreases |ticks|
  {
    if ticks != [] {
      var t0, more := ticks[0], ticks[1..];
      var w := wraps + (if t0 < last then 1 else 0);
      var rest := WrapTimerReadings(t0, w, more);
      WrapTimerMonotone(t0, w, more);
      assert forall i :: 0 <= i < |more| ==> t0 + w * UINT32_MODULUS <= rest[i];
      var r := WrapTimerReadings(last, wraps, ticks);
      assert r == [t0 + w * UINT32_MODULUS] + rest;
      assert w * UINT32_MODULUS == wraps * UINT32_MODULUS + (if t0 < last then UINT32_MODULUS else 0);
      assert forall i :: 1 <= i < |r| ==> r[i] == rest[i - 1];
    }
  }
}
