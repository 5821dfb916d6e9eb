/**
 * Front-end schedule helpers (frontend/src/utils/scheduleUtils.js): day-name
 * normalisation, the display order of the week, the day name of a date in UTC,
 * and the half-hour slots offered inside one or several availability ranges.
 *
 * The front end's `toHHmm` is the same function as the back end's and is
 * `TimeUtils.ToHHmm`. A date is a whole number of days since 1970-01-01 (UTC);
 * an empty date input is `None`.
 */
module ScheduleUtils {
  import opened Wrappers
  import opened JsString
  import opened Ordering
  import opened TimeUtils

  // ---------------------------------------------------------------------------
  // normalizeDia, DIAS_ORDEN, dayNameUTC

  /** `normalizeDia`: `''` for an empty input, otherwise trimmed, lower-cased and without accents. */
  function NormalizeDia(s: string): (r: string)
    ensures s == "" ==> r == ""
    ensures forall i :: 0 <= i < |r| ==> !IsCombiningMark(r[i])
  {
    if s == "" then "" else StripAccents(Lower(Trim(s)))
  }

  /** Lower-casing first does not change the normalised day: the comparison ignores case. */
  lemma NormalizeDiaIgnoresCase(s: string)
    ensures NormalizeDia(Lower(s)) == NormalizeDia(s)
  {
    TrimLower(s);
    LowerIdempotent(Trim(s));
  }

  lemma LowerIdempotent(s: string)
    ensures Lower(Lower(s)) == Lower(s)
  {
  }

  /** No letter is white space, so lower-casing keeps white space and non-space apart. */
  lemma LowerCharSpace(c: char)
    ensures IsSpace(LowerChar(c)) <==> IsSpace(c)
  {
  }

  lemma {:induction false} TrimStartLower(s: string)
    ensures TrimStart(Lower(s)) == Lower(TrimStart(s))
  {
    if |s| > 0 {
      LowerCharSpace(s[0]);
      assert Lower(s)[1..] == Lower(s[1..]);
      TrimStartLower(s[1..]);
    }
  }

  lemma {:induction false} TrimEndLower(s: string)
    ensures TrimEnd(Lower(s)) == Lower(TrimEnd(s))
  {
    if |s| > 0 {
      var init := s[..|s| - 1];
      LowerCharSpace(s[|s| - 1]);
      assert Lower(s)[..|s| - 1] == Lower(init);
      TrimEndLower(init);
    }
  }

  /** Trimming commutes with lower-casing: no letter is white space. */
  lemma TrimLower(s: string)
    ensures Trim(Lower(s)) == Lower(Trim(s))
  {
    TrimStartLower(s);
    TrimEndLower(TrimStart(s));
  }

  /** A word without outer white space is its own trim. */
  lemma TrimUnspaced(w: string)
    requires |w| > 0 && !IsSpace(w[0]) && !IsSpace(w[|w| - 1])
    ensures Trim(w) == w
  {
    assert TrimStart(w) == w;
    assert TrimEnd(w) == w;
  }

  /** One space on each side of a word without outer white space is trimmed away. */
  lemma TrimSpaced(w: string)
    requires |w| > 0 && !IsSpace(w[0]) && !IsSpace(w[|w| - 1])
    ensures Trim(" " + w + " ") == w
  {
    var s := " " + w + " ";
    assert IsSpace(' ');
    assert s[1..] == w + " ";
    assert TrimStart(w + " ") == w + " ";
    assert TrimStart(s) == w + " ";
    assert (w + " ")[..|w|] == w;
    assert TrimEnd(w) == w;
    assert TrimEnd(w + " ") == w;
  }

  /** The normalised name of `" Miércoles "` is `"miercoles"`. */
  lemma NormalizeDiaExample()
    ensures NormalizeDia(" " + "Mi" + "é" + "rcoles" + " ") == "mi" + "e" + "rcoles"
  {
    var w := "Mi" + "é" + "rcoles";
    assert " " + "Mi" + "é" + "rcoles" + " " == " " + w + " ";
    TrimSpaced(w);
    LowerExample();
    StripAccentsExample();
  }

  /** A word of lower-case ASCII letters normalises to itself. */
  lemma NormalizeDiaPlain(w: string)
    requires |w| > 0 && forall i :: 0 <= i < |w| ==> 'a' <= w[i] <= 'z'
    ensures NormalizeDia(w) == w
  {
    TrimUnspaced(w);
    assert Lower(w) == w;
    StripAccentsAscii(w);
  }

  lemma LowerExample()
    ensures Lower("Mi" + "é" + "rcoles") == "mi" + "é" + "rcoles"
  {
  }

  lemma StripAccentsExample()
    ensures StripAccents("mi" + "é" + "rcoles") == "mi" + "e" + "rcoles"
  {
    StripAccentsAppend("mi" + "é", "rcoles");
    StripAccentsAppend("mi", "é");
    StripAccentsAscii("mi");
    StripAccentsAscii("rcoles");
    assert StripAccents("é") == "e";
  }

  /** Accent folding works character by character. */
  lemma {:induction false} StripAccentsAppend(a: string, b: string)
    ensures StripAccents(a + b) == StripAccents(a) + StripAccents(b)
  {
    if |a| > 0 {
      assert (a + b)[1..] == a[1..] + b;
      StripAccentsAppend(a[1..], b);
    } else {
      assert a + b == b;
    }
  }

  /** Lower-case ASCII letters have no accents to fold. */
  lemma {:induction false} StripAccentsAscii(s: string)
    requires forall i :: 0 <= i < |s| ==> 'a' <= s[i] <= 'z'
    ensures StripAccents(s) == s
  {
    if |s| > 0 {
      StripAccentsAscii(s[1..]);
    }
  }

  /** The days in display order, Monday first. */
  const DIAS_ORDEN: seq<string> := ["lunes", "martes", "miércoles", "jueves", "viernes", "sábado", "domingo"]

  /** Seven distinct names, Monday first: the `getUTCDay()` list rotated by one. */
  lemma DiasOrden()
    ensures |DIAS_ORDEN| == 7 && DIAS_ORDEN[0] == "lunes"
    ensures Distinct(DIAS_ORDEN)
    ensures forall i :: 0 <= i < 7 ==> DIAS_ORDEN[i] == DIAS_ES[(i + 1) % 7]
  {
  }

  /** `dayNameUTC`: null without a date, otherwise the Spanish name of its UTC day of the week. */
  function DayNameUTC(fecha: Option<int>): (r: Option<string>)
    ensures r.None? <==> fecha.None?
    ensures r.Some? ==> r.value in DIAS_ES && r.value == DIAS_ES[UTCDay(fecha.value)]
  {
    match fecha
    case None => None
    case Some(days) => Some(WeekdayEsUTC(days))
  }

  // ---------------------------------------------------------------------------
  // genTimeSlots

  /** `h * 60 + m` on the two numbers read from an hour and a minute text; NaN when either is. */
  function ReadBound(hh: string, mm: string): (r: JsNum)
    ensures r.Int? ==> r.v >= 0
  {
    var h := ToNumber(hh);
    var m := ToNumber(mm);
    if h.Int? && m.Int? then Int(h.v * 60 + m.v) else NaN
  }

  /**
   * The minute bound `genTimeSlots` reads from a time: the hour and minute
   * texts of `toHHmm(t)`, which are the padded texts of `t`, through `Number`.
   */
  function SlotBound(t: string): (r: JsNum)
    requires t != ""
    ensures r.Int? ==> r.v >= 0
  {
    ReadBound(Pad2(HourPart(t)), Pad2(MinutePart(t)))
  }

  /** `SlotBound` is what splitting `toHHmm(t)` at `:` and reading both parts gives. */
  lemma SlotBoundSplitsFormatted(t: string)
    requires t != ""
    ensures SlotBound(t) == ReadBound(HourPart(ToHHmm(t)), MinutePart(ToHHmm(t)))
  {
    ToHHmmParts(t);
  }

  /** A bound that is a number is the minute value the back end gives the same time. */
  lemma SlotBoundIsMinutes(t: string)
    requires t != "" && SlotBound(t).Int?
    ensures Minutes(t) == SlotBound(t)
  {
    ToHHmmParts(t);
  }

  /** Minute `m` as `HH:mm`: `pad2(floor(m / 60)) + ':' + pad2(m % 60)`. */
  function Format(m: nat): string
  {
    Pad2(NatStr(m / 60)) + ":" + Pad2(NatStr(m % 60))
  }

  lemma DigitsNoColon(s: string)
    requires AllDigits(s)
    ensures ':' !in s && ':' !in Pad2(s)
  {
    assert ':' !in s by {
      forall i | 0 <= i < |s| ensures s[i] != ':' {
        assert IsDigit(s[i]);
      }
    }
    Pad2NoColon(s);
  }

  /** A formatted minute is already in `HH:mm` form and reads back as the same minute. */
  lemma FormatMinutes(m: nat)
    ensures ToHHmm(Format(m)) == Format(m)
    ensures ToMinutes(Format(m)) == Int(m)
    ensures Minutes(Format(m)) == Int(m)
  {
    var h, mm := NatStr(m / 60), NatStr(m % 60);
    NatStrDigits(m / 60);
    NatStrDigits(m % 60);
    DigitsNoColon(h);
    DigitsNoColon(mm);
    ToHHmmOf(Pad2(h), Pad2(mm));
    Pad2Pads(h);
    Pad2Pads(mm);
    SplitAt(Pad2(h), ':', Pad2(mm));
    assert Format(m) == Pad2(h) + [':'] + Pad2(mm);
    Pad2Value(h);
    Pad2Value(mm);
    NatStrValue(m / 60);
    NatStrValue(m % 60);
  }

  /** The minutes from `s` while below `e`, `step` minutes apart. */
  function SlotMinutes(s: nat, e: int, step: nat): seq<nat>
    requires step > 0
    decreases e - s
  {
    if s >= e then [] else [s] + SlotMinutes(s + step, e, step)
  }

  /** Each minute of a list as `HH:mm`, in order. */
  function FormatAll(ms: seq<nat>): seq<string>
  {
    if |ms| == 0 then [] else FormatAll(ms[..|ms| - 1]) + [Format(ms[|ms| - 1])]
  }

  /** Slot `i` of the formatted list is minute `i` formatted. */
  lemma {:induction false} FormatAllAt(ms: seq<nat>)
    ensures |FormatAll(ms)| == |ms|
    ensures forall i :: 0 <= i < |ms| ==> FormatAll(ms)[i] == Format(ms[i])
  {
    if |ms| > 0 {
      FormatAllAt(ms[..|ms| - 1]);
    }
  }

  /** `genTimeSlots(horaInicio, horaFin, step)` as a value: empty without both bounds or when one is NaN. */
  function TimeSlots(horaInicio: string, horaFin: string, step: nat): seq<string>
    requires step > 0
  {
    if horaInicio == "" || horaFin == "" then []
    else
      var start := SlotBound(horaInicio);
      var end := SlotBound(horaFin);
      if start.Int? && end.Int? then FormatAll(SlotMinutes(start.v, end.v, step)) else []
  }

  /** `genTimeSlots`: empty without both bounds or when one is NaN, otherwise the loop below. */
  method GenTimeSlots(horaInicio: string, horaFin: string, step: nat) returns (out: seq<string>)
    requires step > 0
    ensures out == TimeSlots(horaInicio, horaFin, step)
  {
    out := [];
    if horaInicio == "" || horaFin == "" {
      return;
    }
    var start := SlotBound(horaInicio);
    var end := SlotBound(horaFin);
    if start.NaN? || end.NaN? {
      return;
    }
    out := StepSlots(start.v, end.v, step);
  }

  /** One turn of the slot loop: moving the first pending minute onto the done list. */
  lemma SlotStep(done: seq<nat>, m: nat, end: int, step: nat)
    requires step > 0 && m < end
    ensures done + [m] + SlotMinutes(m + step, end, step) == done + SlotMinutes(m, end, step)
    ensures FormatAll(done + [m]) == FormatAll(done) + [Format(m)]
  {
    assert SlotMinutes(m, end, step) == [m] + SlotMinutes(m + step, end, step);
    assert (done + [m])[..|done|] == done;
  }

  /** The `for` loop of `genTimeSlots`: a minute counter stepped from `start` while below `end`. */
  method StepSlots(start: nat, end: int, step: nat) returns (out: seq<string>)
    requires step > 0
    ensures out == FormatAll(SlotMinutes(start, end, step))
  {
    out := [];
    ghost var done: seq<nat> := [];
    var m: nat := start;
    while m < end
      invariant done + SlotMinutes(m, end, step) == SlotMinutes(start, end, step)
      invariant out == FormatAll(done)
      decreases end - m
    {
      SlotStep(done, m, end, step);
      done := done + [m];
      out := out + [Format(m)];
      m := m + step;
    }
    assert done == SlotMinutes(start, end, step);
  }

  lemma MulSucc(i: int, step: int)
    ensures (i + 1) * step == i * step + step
  {
  }

  /**
   * `ceil((e - s) / step)` minutes when `s < e`, stated without division: the
   * last one is before `e` and one more step would reach it.
   */
  lemma {:induction false} SlotsCount(s: nat, e: int, step: nat)
    requires step > 0
    ensures s >= e ==> SlotMinutes(s, e, step) == []
    ensures s < e ==> |SlotMinutes(s, e, step)| > 0 &&
                      (|SlotMinutes(s, e, step)| - 1) * step < e - s <= |SlotMinutes(s, e, step)| * step
    decreases e - s
  {
    if s < e {
      var n := |SlotMinutes(s + step, e, step)|;
      SlotsCount(s + step, e, step);
      MulSucc(n, step);
      if n > 0 {
        MulSucc(n - 1, step);
      }
    }
  }

  /** Minute `i` of the list is `s + i * step`, which lies in `[s, e)`. */
  lemma {:induction false} SlotsAt(s: nat, e: int, step: nat)
    requires step > 0
    ensures forall i :: 0 <= i < |SlotMinutes(s, e, step)| ==>
              s <= SlotMinutes(s, e, step)[i] == s + i * step < e
    decreases e - s
  {
    if s < e {
      var rest := SlotMinutes(s + step, e, step);
      SlotsAt(s + step, e, step);
      forall i | 0 <= i < |SlotMinutes(s, e, step)|
        ensures s <= SlotMinutes(s, e, step)[i] == s + i * step < e
      {
        if i > 0 {
          MulSucc(i - 1, step);
          assert SlotMinutes(s, e, step)[i] == rest[i - 1];
        }
      }
    }
  }

  /** A formatted minute inside `[start, end)` of a range is accepted by the range test. */
  lemma FormatInRange(m: nat, r: TimeRange)
    requires NumLe(Minutes(r.horaInicio), Int(m)) && NumLt(Int(m), Minutes(r.horaFin))
    ensures InRange(Format(m), r)
  {
    FormatMinutes(m);
  }

  /** `genTimeSlots` gives nothing without both bounds or when the start is not before the end. */
  lemma GenTimeSlotsEmpty(horaInicio: string, horaFin: string, step: nat)
    requires step > 0
    ensures horaInicio == "" || horaFin == "" ==> TimeSlots(horaInicio, horaFin, step) == []
    ensures horaInicio != "" && horaFin != "" && !NumLt(Minutes(horaInicio), Minutes(horaFin)) ==>
              TimeSlots(horaInicio, horaFin, step) == []
  {
    if horaInicio != "" && horaFin != "" {
      var start, end := SlotBound(horaInicio), SlotBound(horaFin);
      if start.Int? && end.Int? {
        SlotBoundIsMinutes(horaInicio);
        SlotBoundIsMinutes(horaFin);
        SlotsCount(start.v, end.v, step);
      }
    }
  }

  /** Every slot stepped from minute `s` below `e` lies in a range whose bounds are those minutes. */
  lemma FormattedSlotsInRange(s: nat, e: int, step: nat, r: TimeRange)
    requires step > 0
    requires Minutes(r.horaInicio) == Int(s) && Minutes(r.horaFin) == Int(e)
    ensures var out := FormatAll(SlotMinutes(s, e, step));
            forall i :: 0 <= i < |out| ==> Minutes(out[i]) == Int(s + i * step) && InRange(out[i], r)
  {
    var out := FormatAll(SlotMinutes(s, e, step));
    forall i | 0 <= i < |out|
      ensures Minutes(out[i]) == Int(s + i * step) && InRange(out[i], r)
    {
      FormattedSlotAt(s, e, step, r, i);
    }
  }

  /** One slot of the loop: its minutes and its place in the range. */
  lemma FormattedSlotAt(s: nat, e: int, step: nat, r: TimeRange, i: nat)
    requires step > 0
    requires Minutes(r.horaInicio) == Int(s) && Minutes(r.horaFin) == Int(e)
    requires i < |FormatAll(SlotMinutes(s, e, step))|
    ensures var out := FormatAll(SlotMinutes(s, e, step));
            Minutes(out[i]) == Int(s + i * step) && InRange(out[i], r)
  {
    var ms := SlotMinutes(s, e, step);
    FormatAllAt(ms);
    SlotsAt(s, e, step);
    var m := ms[i];
    assert s <= m == s + i * step < e;
    assert FormatAll(ms)[i] == Format(m);
    FormatMinutes(m);
    FormatInRange(m, r);
  }

  /**
   * Slot `i` of `genTimeSlots` is `i * step` minutes after the start and inside
   * `[start, end)`, so that the back end's range test accepts it.
   */
  lemma GenTimeSlotsInRange(horaInicio: string, horaFin: string, step: nat)
    requires step > 0 && horaInicio != "" && horaFin != ""
    ensures var out := TimeSlots(horaInicio, horaFin, step);
            |out| > 0 ==>
              Minutes(horaInicio).Int? &&
              forall i :: 0 <= i < |out| ==>
                (Minutes(out[i]) == Int(Minutes(horaInicio).v + i * step)) &&
                InRange(out[i], TimeRange(horaInicio, horaFin))
  {
    var start, end := SlotBound(horaInicio), SlotBound(horaFin);
    if start.Int? && end.Int? {
      SlotBoundIsMinutes(horaInicio);
      SlotBoundIsMinutes(horaFin);
      assert TimeSlots(horaInicio, horaFin, step) == FormatAll(SlotMinutes(start.v, end.v, step));
      FormattedSlotsInRange(start.v, end.v, step, TimeRange(horaInicio, horaFin));
    }
  }

  lemma {:induction false} MulStrict(i: nat, j: nat, step: nat)
    requires i < j && step > 0
    ensures i * step < j * step
    decreases j
  {
    if i + 1 < j {
      MulStrict(i, j - 1, step);
    }
    MulSucc(j - 1, step);
  }

  /** Slots are strictly increasing in minutes. */
  lemma TimeSlotsAscending(horaInicio: string, horaFin: string, step: nat, i: nat, j: nat)
    requires step > 0
    requires i < j < |TimeSlots(horaInicio, horaFin, step)|
    ensures NumLt(Minutes(TimeSlots(horaInicio, horaFin, step)[i]), Minutes(TimeSlots(horaInicio, horaFin, step)[j]))
  {
    GenTimeSlotsInRange(horaInicio, horaFin, step);
    MulStrict(i, j, step);
  }

  /** A two-digit clock time `hh:mm` is bound `60 * hh + mm`. */
  lemma SlotBoundOfClock(hh: string, mm: string)
    requires |hh| == 2 && |mm| == 2 && AllDigits(hh) && AllDigits(mm)
    ensures SlotBound(hh + ":" + mm) == Int(60 * DigitsValue(hh) + DigitsValue(mm))
  {
    DigitsNoColon(hh);
    DigitsNoColon(mm);
    SplitAt(hh, ':', mm);
    assert hh + ":" + mm == hh + [':'] + mm;
  }

  /** `"09:00"` is bound 540 and `"10:30"` is bound 630. */
  lemma SlotBoundExamples()
    ensures SlotBound("09" + ":" + "00") == Int(540)
    ensures SlotBound("10" + ":" + "30") == Int(630)
  {
    SlotBoundNine();
    SlotBoundHalfTen();
  }

  lemma SlotBoundNine()
    ensures SlotBound("09" + ":" + "00") == Int(540)
  {
    TwoDigits('0', '9');
    TwoDigits('0', '0');
    SlotBoundOfClock("09", "00");
  }

  lemma SlotBoundHalfTen()
    ensures SlotBound("10" + ":" + "30") == Int(630)
  {
    TwoDigits('1', '0');
    TwoDigits('3', '0');
    SlotBoundOfClock("10", "30");
  }

  /** Minutes 540, 570 and 600 are `"09:00"`, `"09:30"` and `"10:00"`. */
  lemma FormatExamples()
    ensures Format(540) == "09" + ":" + "00"
    ensures Format(570) == "09" + ":" + "30"
    ensures Format(600) == "10" + ":" + "00"
  {
    assert 540 / 60 == 9 && 540 % 60 == 0;
    assert 570 / 60 == 9 && 570 % 60 == 30;
    assert 600 / 60 == 10 && 600 % 60 == 0;
    assert NatStr(9) == "9" && NatStr(10) == "1" + "0";
    assert NatStr(0) == "0" && NatStr(30) == "3" + "0";
  }

  /** From minute 540 to 630 in steps of 30: `"09:00"`, `"09:30"` and `"10:00"`. */
  lemma SlotsExample()
    ensures FormatAll(SlotMinutes(540, 630, 30)) == ["09" + ":" + "00", "09" + ":" + "30", "10" + ":" + "00"]
  {
    SlotMinutesExample();
    FormatAllExample();
    FormatExamples();
  }

  /** The half-hour slots from 540 up to 630 are 540, 570 and 600. */
  lemma SlotMinutesExample()
    ensures SlotMinutes(540, 630, 30) == [540, 570, 600]
  {
    assert SlotMinutes(630, 630, 30) == [];
    assert SlotMinutes(600, 630, 30) == [600];
    assert SlotMinutes(570, 630, 30) == [570, 600];
  }

  lemma FormatAllExample()
    ensures FormatAll([540, 570, 600]) == [Format(540), Format(570), Format(600)]
  {
    assert [540, 570, 600][..2] == [540, 570];
    assert [540, 570][..1] == [540];
  }

  /** `genTimeSlots("09:00", "10:30", 30)` is `["09:00", "09:30", "10:00"]`. */
  lemma GenTimeSlotsExample()
    ensures TimeSlots("09" + ":" + "00", "10" + ":" + "30", 30) ==
            ["09" + ":" + "00", "09" + ":" + "30", "10" + ":" + "00"]
  {
    SlotBoundExamples();
    SlotsExample();
  }

  // ---------------------------------------------------------------------------
  // unionSlots and summarizeRanges

  /** The slots of each range, in order. */
  function PerRange(ranges: seq<TimeRange>, step: nat): (r: seq<seq<string>>)
    requires step > 0
    ensures |r| == |ranges|
    ensures forall k :: 0 <= k < |ranges| ==> r[k] == TimeSlots(ranges[k].horaInicio, ranges[k].horaFin, step)
  {
    if |ranges| == 0 then []
    else
      var last := ranges[|ranges| - 1];
      PerRange(ranges[..|ranges| - 1], step) + [TimeSlots(last.horaInicio, last.horaFin, step)]
  }

  /** The slots of every range, range after range, repeats included. */
  function AllSlots(ranges: seq<TimeRange>, step: nat): seq<string>
    requires step > 0
  {
    Flatten(PerRange(ranges, step))
  }

  /** Adds to a list with distinct elements those elements of `xs` it lacks, as `Set.add` does. */
  method AddAll(acc: seq<string>, xs: seq<string>) returns (r: seq<string>)
    requires Distinct(acc)
    ensures Distinct(r)
    ensures forall s :: s in r <==> s in acc || s in xs
    ensures |acc| <= |r| && r[..|acc|] == acc
  {
    r := acc;
    for j := 0 to |xs|
      invariant Distinct(r)
      invariant forall s :: s in r <==> s in acc || s in xs[..j]
      invariant |acc| <= |r| && r[..|acc|] == acc
    {
      assert xs[..j + 1] == xs[..j] + [xs[j]];
      if xs[j] !in r {
        r := r + [xs[j]];
      }
    }
    assert xs[..|xs|] == xs;
  }

  /** The elements of the set `unionSlots` fills, range by range, in insertion order. */
  method CollectSlots(ranges: seq<TimeRange>, step: nat) returns (acc: seq<string>)
    requires step > 0
    ensures Distinct(acc)
    ensures forall s :: s in acc <==> s in Flatten(PerRange(ranges, step))
  {
    acc := [];
    ghost var lists := PerRange(ranges, step);
    for i := 0 to |ranges|
      invariant Distinct(acc)
      invariant forall s :: s in acc <==> s in Flatten(lists[..i])
    {
      var slots := GenTimeSlots(ranges[i].horaInicio, ranges[i].horaFin, step);
      assert Flatten(lists[..i + 1]) == Flatten(lists[..i]) + slots by {
        assert lists[..i + 1][..i] == lists[..i];
      }
      acc := AddAll(acc, slots);
    }
    assert lists[..|ranges|] == lists;
  }

  /**
   * `unionSlots`: every slot of every range, each once, in string order. The
   * slots go into a set range by range; the set's elements are then sorted.
   */
  method UnionSlots(ranges: seq<TimeRange>, step: nat) returns (r: seq<string>)
    requires step > 0
    ensures Distinct(r)
    ensures forall i, j :: 0 <= i < j < |r| ==> StrLt(r[i], r[j])
    ensures forall s :: s in r <==> s in AllSlots(ranges, step)
  {
    var acc := CollectSlots(ranges, step);
    r := SortBy(acc, TextKey);
    PermutationDistinct(acc, r);
    SortByMembers(acc, TextKey);
    forall i, j | 0 <= i < j < |r| ensures StrLt(r[i], r[j]) {
      TextKeyOrder(r[i], r[j]);
      StrLtTotal(r[i], r[j]);
    }
  }

  /** A slot is among all the slots iff it is a slot of one of the ranges. */
  lemma AllSlotsMembers(ranges: seq<TimeRange>, step: nat, s: string)
    requires step > 0
    ensures s in AllSlots(ranges, step) <==>
            exists k :: 0 <= k < |ranges| && s in TimeSlots(ranges[k].horaInicio, ranges[k].horaFin, step)
  {
    FlattenMembers(PerRange(ranges, step), s);
  }

  /** Every slot of the union lies in one of the ranges, so the back end accepts it. */
  lemma UnionSlotsAccepted(ranges: seq<TimeRange>, step: nat, s: string)
    requires step > 0 && s in AllSlots(ranges, step)
    ensures HoraDentroDeRangos(s, ranges)
  {
    AllSlotsMembers(ranges, step, s);
    var k :| 0 <= k < |ranges| && s in TimeSlots(ranges[k].horaInicio, ranges[k].horaFin, step);
    var out := TimeSlots(ranges[k].horaInicio, ranges[k].horaFin, step);
    var i :| 0 <= i < |out| && out[i] == s;
    assert ranges[k].horaInicio != "" && ranges[k].horaFin != "";
    GenTimeSlotsInRange(ranges[k].horaInicio, ranges[k].horaFin, step);
    assert TimeRange(ranges[k].horaInicio, ranges[k].horaFin) == ranges[k];
  }

  /** The formatted start of every range, in order. */
  function Starts(ranges: seq<TimeRange>): (r: seq<string>)
    ensures |r| == |ranges|
    ensures forall i :: 0 <= i < |ranges| ==> r[i] == ToHHmm(ranges[i].horaInicio)
  {
    if |ranges| == 0 then [] else Starts(ranges[..|ranges| - 1]) + [ToHHmm(ranges[|ranges| - 1].horaInicio)]
  }

  /** The formatted end of every range, in order. */
  function Ends(ranges: seq<TimeRange>): (r: seq<string>)
    ensures |r| == |ranges|
    ensures forall i :: 0 <= i < |ranges| ==> r[i] == ToHHmm(ranges[i].horaFin)
  {
    if |ranges| == 0 then [] else Ends(ranges[..|ranges| - 1]) + [ToHHmm(ranges[|ranges| - 1].horaFin)]
  }

  /** The first of the sorted starts and the last of the sorted ends, joined by `" - "`. */
  function Summary(starts: seq<string>, ends: seq<string>): string
    requires |starts| > 0 && |ends| > 0
  {
    SortBy(starts, TextKey)[0] + " - " + SortBy(ends, TextKey)[|ends| - 1]
  }

  /** `summarizeRanges`: null for no ranges, otherwise the first sorted start and the last sorted end. */
  function SummarizeRanges(ranges: seq<TimeRange>): (r: Option<string>)
    ensures r.None? <==> |ranges| == 0
  {
    if |ranges| == 0 then None else Some(Summary(Starts(ranges), Ends(ranges)))
  }

  /** The first element of a sorted list of strings is one of them and no later than any. */
  lemma SortedFirst(s: seq<string>)
    requires |s| > 0
    ensures SortBy(s, TextKey)[0] in s
    ensures forall k :: 0 <= k < |s| ==> StrLe(SortBy(s, TextKey)[0], s[k])
  {
    var t := SortBy(s, TextKey);
    SortByMembers(s, TextKey);
    forall k | 0 <= k < |s| ensures StrLe(t[0], s[k]) {
      assert s[k] in t;
      var p :| 0 <= p < |t| && t[p] == s[k];
      if p > 0 {
        TextKeyOrder(t[0], t[p]);
      } else {
        StrLtIrreflexive(t[0]);
      }
    }
  }

  /** The last element of a sorted list of strings is one of them and no earlier than any. */
  lemma SortedLast(s: seq<string>)
    requires |s| > 0
    ensures SortBy(s, TextKey)[|s| - 1] in s
    ensures forall k :: 0 <= k < |s| ==> StrLe(s[k], SortBy(s, TextKey)[|s| - 1])
  {
    var t := SortBy(s, TextKey);
    SortByMembers(s, TextKey);
    forall k | 0 <= k < |s| ensures StrLe(s[k], t[|s| - 1]) {
      assert s[k] in t;
      var p :| 0 <= p < |t| && t[p] == s[k];
      if p < |t| - 1 {
        TextKeyOrder(t[p], t[|t| - 1]);
      } else {
        StrLtIrreflexive(t[p]);
      }
    }
  }

  /**
   * The summary is `"minStart - maxEnd"`: the smallest start and the largest
   * end in string order, whatever gaps lie between the ranges.
   */
  lemma SummarySpec(starts: seq<string>, ends: seq<string>)
    requires |starts| > 0 && |ends| > 0
    ensures exists i, j :: 0 <= i < |starts| && 0 <= j < |ends| &&
              Summary(starts, ends) == starts[i] + " - " + ends[j] &&
              (forall k :: 0 <= k < |starts| ==> StrLe(starts[i], starts[k])) &&
              (forall k :: 0 <= k < |ends| ==> StrLe(ends[k], ends[j]))
  {
    var lo, hi := SortBy(starts, TextKey)[0], SortBy(ends, TextKey)[|ends| - 1];
    SortedFirst(starts);
    SortedLast(ends);
    var i :| 0 <= i < |starts| && starts[i] == lo;
    var j :| 0 <= j < |ends| && ends[j] == hi;
    assert Summary(starts, ends) == starts[i] + " - " + ends[j];
    assert forall k :: 0 <= k < |starts| ==> StrLe(starts[i], starts[k]);
    assert forall k :: 0 <= k < |ends| ==> StrLe(ends[k], ends[j]);
  }
}
