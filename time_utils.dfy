/**
 * Back-end time helpers (backend/utils/timeUtils.js): `HH:mm` formatting,
 * conversion to minutes since midnight, the Spanish day name of a date in UTC,
 * membership of a time in a union of half-open ranges, and range labels.
 * The front end's `toHHmm` (frontend/src/utils/scheduleUtils.js) is the same
 * function on strings and is modelled by `ToHHmm` below.
 *
 * A date is a whole number of days since 1970-01-01 (UTC), which was a Thursday.
 */
module TimeUtils {
  import opened JsString

  /** Day names in `getUTCDay()` order: index 0 is Sunday. */
  const DIAS_ES: seq<string> := ["domingo", "lunes", "martes", "miércoles", "jueves", "viernes", "sábado"]

  // ---------------------------------------------------------------------------
  // toHHmm

  /** `s.padStart(2, '0')`. */
  function Pad2(s: string): string
  {
    if |s| >= 2 then s else if |s| == 1 then "0" + s else "00"
  }

  /** `padStart(2, '0')` keeps the text at the end and fills up to two characters with zeros in front. */
  lemma Pad2Pads(s: string)
    ensures |Pad2(s)| == if |s| >= 2 then |s| else 2
    ensures Pad2(s)[|Pad2(s)| - |s|..] == s
    ensures forall i :: 0 <= i < |Pad2(s)| - |s| ==> Pad2(s)[i] == '0'
    ensures Pad2(Pad2(s)) == Pad2(s)
  {
  }

  /** The first element of `split(':')`. */
  function HourPart(s: string): string
  {
    Before(s, ':')
  }

  /** The second element of `split(':')`, or the default `"00"` when there is none. */
  function MinutePart(s: string): string
  {
    if ':' in s then Before(After(s, ':'), ':') else "00"
  }

  /** `toHHmm`: the empty string stays empty; otherwise hour and minute are padded to two digits. */
  function ToHHmm(hhmm: string): (r: string)
    ensures r == "" <==> hhmm == ""
    ensures r != "" ==> ':' in r
  {
    if hhmm == "" then "" else Pad2(HourPart(hhmm)) + ":" + Pad2(MinutePart(hhmm))
  }

  lemma Pad2NoColon(s: string)
    requires ':' !in s
    ensures ':' !in Pad2(s)
  {
    var r := Pad2(s);
    Pad2Pads(s);
    forall i | 0 <= i < |r| ensures r[i] != ':' {
      if i >= |r| - |s| {
        assert r[i] == r[|r| - |s|..][i - (|r| - |s|)];
      }
    }
  }

  /** The hour and minute texts of a formatted time are the padded texts of the input. */
  lemma ToHHmmParts(x: string)
    requires x != ""
    ensures HourPart(ToHHmm(x)) == Pad2(HourPart(x))
    ensures MinutePart(ToHHmm(x)) == Pad2(MinutePart(x))
  {
    var h, m := Pad2(HourPart(x)), Pad2(MinutePart(x));
    Pad2NoColon(HourPart(x));
    Pad2NoColon(MinutePart(x));
    SplitAt(h, ':', m);
    assert ToHHmm(x) == h + [':'] + m;
  }

  /** Formatting `h:m` pads both parts; a time already in `HH:mm` form is left as it is. */
  lemma ToHHmmOf(h: string, m: string)
    requires ':' !in h && ':' !in m
    ensures ToHHmm(h + ":" + m) == Pad2(h) + ":" + Pad2(m)
    ensures |h| == 2 && |m| == 2 ==> ToHHmm(h + ":" + m) == h + ":" + m
  {
    SplitAt(h, ':', m);
    assert h + ":" + m == h + [':'] + m;
  }

  /** `toHHmm("9")` is `"09:00"` and `toHHmm("9:5")` is `"09:05"`. */
  lemma ToHHmmExamples()
    ensures ToHHmm("9") == "09:00"
    ensures ToHHmm("9:5") == "09:05"
    ensures ToHHmm("") == ""
  {
    SplitAt("9", ':', "5");
    assert "9:5" == "9" + [':'] + "5";
  }

  /** Formatting an already formatted time changes nothing. */
  lemma ToHHmmIdempotent(x: string)
    ensures ToHHmm(ToHHmm(x)) == ToHHmm(x)
  {
    if x != "" {
      ToHHmmParts(x);
    }
  }

  // ---------------------------------------------------------------------------
  // toMinutes

  /**
   * `toMinutes`: -1 for the empty string; otherwise `Number(h) * 60 + (Number(m) || 0)`.
   * The input must contain `:`; without one the source concatenates strings.
   */
  function ToMinutes(hhmm: string): (r: JsNum)
    requires hhmm == "" || ':' in hhmm
  {
    if hhmm == "" then Int(-1)
    else
      var h := ToNumber(HourPart(hhmm));
      var m := ToNumber(MinutePart(hhmm));
      if h.NaN? then NaN else Int(h.v * 60 + (if m.Int? then m.v else 0))
  }

  /** A clock time `hh:mm` with hour at most 23 and minute at most 59 is `60*hh + mm`, in [0, 1439]. */
  lemma ToMinutesOfClock(hh: string, mm: string)
    requires AllDigits(hh) && AllDigits(mm)
    requires DigitsValue(hh) <= 23 && DigitsValue(mm) <= 59
    ensures ToMinutes(hh + ":" + mm) == Int(60 * DigitsValue(hh) + DigitsValue(mm))
    ensures 0 <= 60 * DigitsValue(hh) + DigitsValue(mm) <= 1439
  {
    assert ':' !in hh by {
      forall i | 0 <= i < |hh| ensures hh[i] != ':' {
        assert IsDigit(hh[i]);
      }
    }
    assert ':' !in mm by {
      forall i | 0 <= i < |mm| ensures mm[i] != ':' {
        assert IsDigit(mm[i]);
      }
    }
    SplitAt(hh, ':', mm);
    var t := hh + ":" + mm;
    assert t == hh + [':'] + mm;
    assert HourPart(t) == hh && MinutePart(t) == mm;
  }

  lemma Pad2Value(s: string)
    ensures AllDigits(Pad2(s)) <==> AllDigits(s)
    ensures AllDigits(s) ==> DigitsValue(Pad2(s)) == DigitsValue(s)
  {
    if |s| == 1 {
      if AllDigits(s) {
        LeadingZero(s);
      } else {
        assert !IsDigit(Pad2(s)[1]);
      }
    } else if |s| == 0 {
      assert Pad2(s) == "0" + "0";
      LeadingZero("0");
    }
  }

  /** Padding does not change the minute value: `"9:00"` and `"09:00"` are the same time. */
  lemma ToMinutesPadding(x: string)
    requires ':' in x
    ensures ToMinutes(ToHHmm(x)) == ToMinutes(x)
  {
    ToHHmmParts(x);
    Pad2Value(HourPart(x));
    Pad2Value(MinutePart(x));
  }

  // ---------------------------------------------------------------------------
  // weekdayEsUTC

  /** `getUTCDay()` of a date given as days since 1970-01-01 (a Thursday, day 4). */
  function UTCDay(days: int): (d: nat)
    ensures d < 7
  {
    (days + 4) % 7
  }

  /** `weekdayEsUTC`: the Spanish name of the date's UTC day of the week. */
  function WeekdayEsUTC(days: int): (r: string)
    ensures r in DIAS_ES
    ensures r == DIAS_ES[UTCDay(days)]
  {
    DIAS_ES[UTCDay(days)]
  }

  /** 1970-01-01 is a Thursday, each next day is the next name in the week, and the names repeat every 7 days. */
  lemma WeekdayCycle(days: int)
    ensures WeekdayEsUTC(0) == "jueves"
    ensures WeekdayEsUTC(days + 7) == WeekdayEsUTC(days)
    ensures UTCDay(days + 1) == (UTCDay(days) + 1) % 7
  {
  }

  // ---------------------------------------------------------------------------
  // horaDentroDeRangos and rangesLabel

  /** A stored availability range as the helpers see it. */
  datatype TimeRange = TimeRange(horaInicio: string, horaFin: string)

  /** Minutes of a time after formatting, as the helpers compute them. */
  function Minutes(t: string): JsNum
  {
    ToMinutes(ToHHmm(t))
  }

  /** `t` lies in the half-open range `[horaInicio, horaFin)`. */
  predicate InRange(t: string, r: TimeRange)
  {
    NumLe(Minutes(r.horaInicio), Minutes(t)) && NumLt(Minutes(t), Minutes(r.horaFin))
  }

  /** `horaDentroDeRangos`: does some range of the list contain the time? */
  function HoraDentroDeRangos(hhmm: string, rangos: seq<TimeRange>): (b: bool)
    ensures b <==> exists i :: 0 <= i < |rangos| && InRange(hhmm, rangos[i])
  {
    if |rangos| == 0 then false
    else InRange(hhmm, rangos[0]) || HoraDentroDeRangos(hhmm, rangos[1..])
  }

  /** Both the time and the ranges are formatted first, so the padding of the time does not matter. */
  lemma HoraDentroDeRangosPadding(t: string, rangos: seq<TimeRange>)
    ensures HoraDentroDeRangos(ToHHmm(t), rangos) == HoraDentroDeRangos(t, rangos)
  {
    ToHHmmIdempotent(t);
    assert Minutes(ToHHmm(t)) == Minutes(t);
  }

  /** `"09:00"` is minute 540 and `"12:00"` is minute 720. */
  lemma ClockExamples()
    ensures ToMinutes("09" + ":" + "00") == Int(540)
    ensures ToMinutes("12" + ":" + "00") == Int(720)
  {
    TwoDigits('0', '9');
    TwoDigits('1', '2');
    TwoDigits('0', '0');
    ToMinutesOfClock("09", "00");
    ToMinutesOfClock("12", "00");
  }

  /** The minute values of the clock times used in the examples below. */
  lemma ExampleMinutes()
    ensures Minutes("09" + ":" + "00") == Int(540)
    ensures Minutes("9" + ":" + "00") == Int(540)
    ensures Minutes("12" + ":" + "00") == Int(720)
  {
    MinutesNine();
    MinutesNineUnpadded();
    MinutesNoon();
  }

  lemma MinutesNine()
    ensures Minutes("09" + ":" + "00") == Int(540)
  {
    ClockExamples();
    ToHHmmOf("09", "00");
  }

  lemma MinutesNineUnpadded()
    ensures Minutes("9" + ":" + "00") == Int(540)
  {
    ClockExamples();
    ToHHmmOf("9", "00");
    assert Pad2("9") == "09";
  }

  lemma MinutesNoon()
    ensures Minutes("12" + ":" + "00") == Int(720)
  {
    ClockExamples();
    ToHHmmOf("12", "00");
  }

  /** Start included, end excluded: 09:00 (however padded) is in 09:00-12:00, 12:00 is not, and no time is in an empty list. */
  lemma HoraDentroDeRangosHalfOpen()
    ensures HoraDentroDeRangos("09" + ":" + "00", [TimeRange("09" + ":" + "00", "12" + ":" + "00")])
    ensures HoraDentroDeRangos("9" + ":" + "00", [TimeRange("09" + ":" + "00", "12" + ":" + "00")])
    ensures !HoraDentroDeRangos("12" + ":" + "00", [TimeRange("09" + ":" + "00", "12" + ":" + "00")])
    ensures !HoraDentroDeRangos("09" + ":" + "00", [])
  {
    ExampleMinutes();
    var r := TimeRange("09" + ":" + "00", "12" + ":" + "00");
    assert InRange("09" + ":" + "00", r);
    assert InRange("9" + ":" + "00", r);
    assert !InRange("12" + ":" + "00", r);
  }

  /** One range as `"HH:mm - HH:mm"`. */
  function RangeLabel(r: TimeRange): string
  {
    ToHHmm(r.horaInicio) + " - " + ToHHmm(r.horaFin)
  }

  /** The label of every range, in order. */
  function Labels(list: seq<TimeRange>): (r: seq<string>)
    ensures |r| == |list|
    ensures forall i :: 0 <= i < |list| ==> r[i] == RangeLabel(list[i])
  {
    if |list| == 0 then [] else Labels(list[..|list| - 1]) + [RangeLabel(list[|list| - 1])]
  }

  /** `rangesLabel`: the label of every range, in order, joined by `", "`. */
  function RangesLabel(list: seq<TimeRange>): string
  {
    Join(Labels(list), ", ")
  }

  /** Appending a range to a non-empty list appends its label after a `", "`. */
  lemma RangesLabelAppend(list: seq<TimeRange>, r: TimeRange)
    requires |list| > 0
    ensures RangesLabel(list + [r]) == RangesLabel(list) + ", " + RangeLabel(r)
  {
    assert (list + [r])[..|list|] == list;
    JoinAppend(Labels(list), RangeLabel(r), ", ");
  }
}
