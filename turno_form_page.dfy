/**
 * The appointment form (frontend/src/pages/TurnoFormPage.jsx): its local time
 * helpers, the choice of the day's availability and of the offered times, and
 * the form state the handlers and effects update.
 *
 * The date input holds a date or nothing: a date is a whole number of days
 * since 1970-01-01 and an empty input is `None`. Requests to the back end are
 * parameters: the availabilities fetched for a professional, and the outcome
 * of a submitted request.
 */
module TurnoFormPage {
  import opened Wrappers
  import opened JsString
  import opened TimeUtils
  import opened Models
  import opened ScheduleUtils
  import opened FieldErrors
  import opened ParseApiErrors

  // ---------------------------------------------------------------------------
  // Local helpers

  /** The page's own `normalizeDia`: lower-cased and without accents, but not trimmed. */
  function NormalizeDay(s: string): (r: string)
    ensures s == "" ==> r == ""
    ensures |r| <= |s|
  {
    if s == "" then "" else StripAccents(Lower(s))
  }

  /** A day name with no outer white space normalises as `normalizeDia` does. */
  lemma NormalizeDayAgrees(s: string)
    requires Trim(s) == s
    ensures NormalizeDay(s) == NormalizeDia(s)
  {
  }

  /** `dayNameFromDate`: null without a date, otherwise the Spanish name of its UTC day of the week. */
  function DayNameFromDate(fecha: Option<int>): (r: Option<string>)
    ensures r.None? <==> fecha.None?
    ensures r.Some? ==> r.value in DIAS_ES && r.value == WeekdayEsUTC(fecha.value)
  {
    if fecha.None? then None else Some(DIAS_ES[UTCDay(fecha.value)])
  }

  /** Both pages name a date's day the same way. */
  lemma DayNameFromDateAgrees(fecha: Option<int>)
    ensures DayNameFromDate(fecha) == DayNameUTC(fecha)
  {
  }

  /**
   * The minute bound the local `genTimeSlots` reads: `Number(h) * 60 + (Number(m) || 0)`
   * over `t.split(':')`; a missing or non-numeric minute counts as 0.
   */
  function LocalBound(t: string): (r: JsNum)
    ensures r.Int? ==> r.v >= 0
  {
    var h := ToNumber(HourPart(t));
    var m := if ':' in t then ToNumber(Before(After(t, ':'), ':')) else Int(0);
    if h.NaN? then NaN else Int(h.v * 60 + (if m.Int? then m.v else 0))
  }

  /** The local reading of a time is the back end's minute value of it. */
  lemma LocalBoundIsMinutes(t: string)
    requires t != ""
    ensures LocalBound(t) == Minutes(t)
  {
    HourNumberPadded(t);
    MinuteNumberPadded(t);
  }

  /** Padding does not change the number the hour reads as. */
  lemma HourNumberPadded(t: string)
    requires t != ""
    ensures ToNumber(HourPart(ToHHmm(t))) == ToNumber(HourPart(t))
  {
    ToHHmmParts(t);
    Pad2Value(HourPart(t));
  }

  /** The minute of the padded time reads as the text after the first `:`, or as 0 without one. */
  lemma MinuteNumberPadded(t: string)
    requires t != ""
    ensures ToNumber(MinutePart(ToHHmm(t))) == if ':' in t then ToNumber(Before(After(t, ':'), ':')) else Int(0)
  {
    ToHHmmParts(t);
    PaddedMinuteNumber(ToHHmm(t), t);
  }

  /** A minute text that is the padded minute of `t` reads as the same number, or as 0 when `t` has no `:`. */
  lemma PaddedMinuteNumber(u: string, t: string)
    requires MinutePart(u) == Pad2(MinutePart(t))
    ensures ToNumber(MinutePart(u)) == if ':' in t then ToNumber(Before(After(t, ':'), ':')) else Int(0)
  {
    Pad2Value(MinutePart(t));
    if ':' !in t {
      LeadingZero("0");
    }
  }


  /**
   * Where `genTimeSlots` of the shared helpers reads a number, the local one
   * reads the same number.
   */
  lemma LocalBoundAgrees(t: string)
    requires t != "" && SlotBound(t).Int?
    ensures LocalBound(t) == SlotBound(t)
  {
    LocalBoundIsMinutes(t);
    SlotBoundIsMinutes(t);
  }

  /**
   * A minute text that is not a number is read as 0 here, while the shared
   * helpers then give no slots at all.
   */
  lemma LocalBoundLenient(h: string, m: string)
    requires AllDigits(h) && ':' !in h && ':' !in m && !AllDigits(m)
    ensures LocalBound(h + ":" + m) == Int(DigitsValue(h) * 60)
    ensures SlotBound(h + ":" + m).NaN?
  {
    var t := h + ":" + m;
    assert t == h + [':'] + m;
    SplitAt(h, ':', m);
    Pad2Value(m);
  }

  /** The local `genTimeSlots` as a value: the stepped minutes in `[start, end)`, formatted. */
  function LocalTimeSlots(horaInicio: string, horaFin: string, step: nat): seq<string>
    requires step > 0
  {
    if horaInicio == "" || horaFin == "" then []
    else
      var start := LocalBound(horaInicio);
      var end := LocalBound(horaFin);
      if start.Int? && end.Int? then FormatAll(SlotMinutes(start.v, end.v, step)) else []
  }

  /** The local `genTimeSlots`: the guard, the two readings, then the stepping loop. */
  method LocalGenTimeSlots(horaInicio: string, horaFin: string, step: nat) returns (out: seq<string>)
    requires step > 0
    ensures out == LocalTimeSlots(horaInicio, horaFin, step)
  {
    out := [];
    if horaInicio == "" || horaFin == "" {
      return;
    }
    var start := LocalBound(horaInicio);
    var end := LocalBound(horaFin);
    if start.NaN? || end.NaN? {
      return;
    }
    out := StepSlots(start.v, end.v, step);
  }

  /** When the shared helpers read both bounds as numbers, both pages offer the same slots. */
  lemma LocalTimeSlotsAgree(horaInicio: string, horaFin: string, step: nat)
    requires step > 0 && horaInicio != "" && horaFin != ""
    requires SlotBound(horaInicio).Int? && SlotBound(horaFin).Int?
    ensures LocalTimeSlots(horaInicio, horaFin, step) == TimeSlots(horaInicio, horaFin, step)
  {
    LocalBoundAgrees(horaInicio);
    LocalBoundAgrees(horaFin);
  }

  /** Every local slot lies in `[horaInicio, horaFin)` as the back end measures times. */
  lemma LocalSlotsInRange(horaInicio: string, horaFin: string, step: nat, i: nat)
    requires step > 0 && i < |LocalTimeSlots(horaInicio, horaFin, step)|
    ensures InRange(LocalTimeSlots(horaInicio, horaFin, step)[i], TimeRange(horaInicio, horaFin))
  {
    LocalBoundIsMinutes(horaInicio);
    LocalBoundIsMinutes(horaFin);
    var s, e := LocalBound(horaInicio).v, LocalBound(horaFin).v;
    var ms := SlotMinutes(s, e, step);
    FormatAllAt(ms);
    SlotsAt(s, e, step);
    FormatInRange(ms[i], TimeRange(horaInicio, horaFin));
  }

  // ---------------------------------------------------------------------------
  // computeFranjaYSlots

  /** The index of the first availability on the day `dia` (`disp.find(...)`). */
  function FirstOnDay(disp: seq<Disponibilidad>, dia: string): (r: Option<nat>)
    ensures r.Some? ==> r.value < |disp| && NormalizeDay(disp[r.value].diaSemana) == NormalizeDay(dia)
    ensures r.Some? ==> forall j :: 0 <= j < r.value ==> NormalizeDay(disp[j].diaSemana) != NormalizeDay(dia)
    ensures r.None? ==> forall j :: 0 <= j < |disp| ==> NormalizeDay(disp[j].diaSemana) != NormalizeDay(dia)
  {
    if |disp| == 0 then None
    else if NormalizeDay(disp[0].diaSemana) == NormalizeDay(dia) then Some(0)
    else
      var rest := FirstOnDay(disp[1..], dia);
      if rest.None? then None else Some(rest.value + 1)
  }

  /** The availability shown for the chosen date and the times offered from it. */
  datatype FranjaSlots = FranjaSlots(franja: Option<Disponibilidad>, slots: seq<string>)

  /** `computeFranjaYSlots(fecha, disp)`: the first availability of the date's day and its 30-minute slots. */
  function ComputeFranjaYSlots(fecha: Option<int>, disp: seq<Disponibilidad>): (r: FranjaSlots)
    ensures fecha.None? || |disp| == 0 ==> r == FranjaSlots(None, [])
    ensures r.franja.None? ==> r.slots == []
    ensures r.franja.Some? ==> r.franja.value in disp
  {
    if fecha.None? || |disp| == 0 then FranjaSlots(None, [])
    else
      var dia := DayNameFromDate(fecha).value;
      var i := FirstOnDay(disp, dia);
      if i.None? then FranjaSlots(None, [])
      else
        var franja := disp[i.value];
        FranjaSlots(Some(franja), LocalTimeSlots(franja.horaInicio, franja.horaFin, 30))
  }

  /**
   * Only the first availability of the day counts: when availability `i` is on
   * the date's day and none before it is, its slots are the ones offered,
   * whatever later ranges of the same day hold.
   */
  lemma ComputeFranjaYSlotsFirst(fecha: int, disp: seq<Disponibilidad>, i: nat)
    requires i < |disp|
    requires NormalizeDay(disp[i].diaSemana) == NormalizeDay(WeekdayEsUTC(fecha))
    requires forall j :: 0 <= j < i ==> NormalizeDay(disp[j].diaSemana) != NormalizeDay(WeekdayEsUTC(fecha))
    ensures ComputeFranjaYSlots(Some(fecha), disp) ==
            FranjaSlots(Some(disp[i]), LocalTimeSlots(disp[i].horaInicio, disp[i].horaFin, 30))
  {
    var r := FirstOnDay(disp, WeekdayEsUTC(fecha));
    assert r.Some?;
    assert r.value == i by {
      if r.value < i {
      } else if r.value > i {
      }
    }
  }

  /** No availability on the date's day: nothing is shown and no time is offered. */
  lemma ComputeFranjaYSlotsNone(fecha: int, disp: seq<Disponibilidad>)
    requires forall j :: 0 <= j < |disp| ==> NormalizeDay(disp[j].diaSemana) != NormalizeDay(WeekdayEsUTC(fecha))
    ensures ComputeFranjaYSlots(Some(fecha), disp) == FranjaSlots(None, [])
  {
  }

  /** Every offered time lies in the range of the availability shown. */
  lemma OfferedSlotInFranja(fecha: Option<int>, disp: seq<Disponibilidad>, k: nat)
    requires k < |ComputeFranjaYSlots(fecha, disp).slots|
    ensures ComputeFranjaYSlots(fecha, disp).franja.Some?
    ensures InRange(ComputeFranjaYSlots(fecha, disp).slots[k], AsRange(ComputeFranjaYSlots(fecha, disp).franja.value))
  {
    var f := ComputeFranjaYSlots(fecha, disp).franja.value;
    LocalSlotsInRange(f.horaInicio, f.horaFin, 30, k);
  }

  /** After the offered times change, the chosen time is kept only if it is still offered. */
  function ResetHora(hora: string, slots: seq<string>): (r: string)
    ensures r == hora <==> hora == "" || hora in slots
    ensures r != hora ==> r == ""
  {
    if hora != "" && hora !in slots then "" else hora
  }

  // ---------------------------------------------------------------------------
  // validate

  const MSG_PROFESIONAL: string := "Seleccioná un profesional."
  const MSG_FECHA: string := "La fecha es obligatoria."
  const MSG_HORA: string := "La hora es obligatoria."
  const MSG_CLIENTE: string := "Seleccioná un cliente."

  /** The errors `validate` records: one per empty required field. */
  function RequiredErrors(profesional: string, fecha: Option<int>, hora: string, cliente: string): (e: map<string, string>)
    ensures "profesional" in e <==> profesional == ""
    ensures "fecha" in e <==> fecha.None?
    ensures "hora" in e <==> hora == ""
    ensures "cliente" in e <==> cliente == ""
    ensures forall k :: k in e ==> k in {"profesional", "fecha", "hora", "cliente"}
    ensures |e| == 0 <==> profesional != "" && fecha.Some? && hora != "" && cliente != ""
  {
    var e1 := if profesional == "" then map["profesional" := MSG_PROFESIONAL] else map[];
    var e2 := if fecha.None? then e1["fecha" := MSG_FECHA] else e1;
    var e3 := if hora == "" then e2["hora" := MSG_HORA] else e2;
    var e4 := if cliente == "" then e3["cliente" := MSG_CLIENTE] else e3;
    assert |e4| == 0 ==> "profesional" !in e4 && "fecha" !in e4 && "hora" !in e4 && "cliente" !in e4;
    assert "profesional" in e4 || "fecha" in e4 || "hora" in e4 || "cliente" in e4 ==> |e4| > 0;
    e4
  }

  // ---------------------------------------------------------------------------
  // Form state

  /** Which input a `handleChange` event comes from. */
  datatype Input = HoraInput | EstadoInput | ClienteInput

  function InputName(i: Input): string
  {
    match i
    case HoraInput => "hora"
    case EstadoInput => "estado"
    case ClienteInput => "cliente"
  }

  /** The page's state: the form, its errors, the fetched availabilities and what is derived from them. */
  class TurnoForm {
    var fecha: Option<int>
    var hora: string
    var estado: string
    var profesional: string
    var cliente: string
    var errors: map<string, string>
    var submitting: bool
    var disponibilidades: seq<Disponibilidad>
    var franjaDelDia: Option<Disponibilidad>
    var horaOptions: seq<string>

    /** `initialForm`, no errors and nothing fetched yet. */
    constructor ()
      ensures fecha.None? && hora == "" && estado == "pendiente" && profesional == "" && cliente == ""
      ensures errors == map[] && !submitting
      ensures disponibilidades == [] && franjaDelDia.None? && horaOptions == []
    {
      fecha := None;
      hora := "";
      estado := "pendiente";
      profesional := "";
      cliente := "";
      errors := map[];
      submitting := false;
      disponibilidades := [];
      franjaDelDia := None;
      horaOptions := [];
    }

    /** `validate`: fills the error object field by field and reports whether it stayed empty. */
    method Validate() returns (ok: bool)
      modifies this`errors
      ensures errors == RequiredErrors(profesional, fecha, hora, cliente)
      ensures ok <==> profesional != "" && fecha.Some? && hora != "" && cliente != ""
    {
      var e: map<string, string> := map[];
      if profesional == "" {
        e := e["profesional" := MSG_PROFESIONAL];
      }
      if fecha.None? {
        e := e["fecha" := MSG_FECHA];
      }
      if hora == "" {
        e := e["hora" := MSG_HORA];
      }
      if cliente == "" {
        e := e["cliente" := MSG_CLIENTE];
      }
      errors := e;
      ok := |e| == 0;
    }

    /** `handleChange` on a text input: sets that field and clears its error and `_general`. */
    method HandleChange(input: Input, value: string)
      modifies this`hora, this`estado, this`cliente, this`errors
      ensures hora == (if input == HoraInput then value else old(hora))
      ensures estado == (if input == EstadoInput then value else old(estado))
      ensures cliente == (if input == ClienteInput then value else old(cliente))
      ensures errors == old(errors) - {InputName(input), "_general"}
    {
      match input {
        case HoraInput => hora := value;
        case EstadoInput => estado := value;
        case ClienteInput => cliente := value;
      }
      errors := errors - {InputName(input), "_general"};
    }

    /** `handleChange` on the date input. */
    method HandleChangeFecha(value: Option<int>)
      modifies this`fecha, this`errors
      ensures fecha == value
      ensures errors == old(errors) - {"fecha", "_general"}
    {
      fecha := value;
      errors := errors - {"fecha", "_general"};
    }

    /**
     * `handleChangeProfesional`: a new professional empties the date and the
     * time and clears the errors of those three fields and `_general`.
     */
    method HandleChangeProfesional(value: string)
      modifies this`profesional, this`fecha, this`hora, this`errors
      ensures profesional == value && fecha.None? && hora == ""
      ensures errors == old(errors) - {"profesional", "fecha", "hora", "_general"}
    {
      profesional := value;
      fecha := None;
      hora := "";
      errors := errors - {"profesional", "fecha", "hora", "_general"};
    }

    /**
     * The effect run when the date or the availabilities change: recompute the
     * availability shown and the times offered, and drop a time no longer
     * offered. Without a date or availabilities it returns before that last step.
     */
    method OnFechaOrDisponibilidades()
      modifies this`franjaDelDia, this`horaOptions, this`hora
      ensures FranjaSlots(franjaDelDia, horaOptions) == ComputeFranjaYSlots(fecha, disponibilidades)
      ensures hora == (if fecha.None? || |disponibilidades| == 0 then old(hora) else ResetHora(old(hora), horaOptions))
    {
      if fecha.None? || |disponibilidades| == 0 {
        franjaDelDia := None;
        horaOptions := [];
        return;
      }
      var r := ComputeFranjaYSlots(fecha, disponibilidades);
      franjaDelDia := r.franja;
      horaOptions := r.slots;
      if hora != "" && hora !in horaOptions {
        hora := "";
      }
    }

    /**
     * The effect run when the professional changes, given the availabilities
     * the request for that professional returned.
     */
    method OnProfesional(fetched: seq<Disponibilidad>)
      modifies this`disponibilidades, this`franjaDelDia, this`horaOptions, this`hora
      ensures disponibilidades == (if profesional == "" then [] else fetched)
      ensures FranjaSlots(franjaDelDia, horaOptions) ==
              (if profesional == "" then FranjaSlots(None, []) else ComputeFranjaYSlots(fecha, fetched))
      ensures hora == (if profesional != "" && fecha.Some? then ResetHora(old(hora), horaOptions) else old(hora))
    {
      if profesional == "" {
        disponibilidades := [];
        franjaDelDia := None;
        horaOptions := [];
        return;
      }
      disponibilidades := fetched;
      if fecha.Some? {
        var r := ComputeFranjaYSlots(fecha, fetched);
        franjaDelDia := r.franja;
        horaOptions := r.slots;
        if hora != "" && hora !in horaOptions {
          hora := "";
        }
      } else {
        franjaDelDia := None;
        horaOptions := [];
      }
    }

    /**
     * `handleSubmit`, given the outcome of the create or update request:
     * `None` when it succeeded, `Some(data)` with the error body when it failed.
     * Returns whether the page navigates away.
     */
    method HandleSubmit(failure: Option<Option<Payload>>) returns (navigated: bool)
      modifies this`errors, this`submitting
      ensures old(submitting) ==> !navigated && errors == old(errors) && submitting
      ensures !old(submitting) ==> !submitting
      ensures !old(submitting) ==>
                var valid := profesional != "" && fecha.Some? && hora != "" && cliente != "";
                (navigated <==> valid && failure.None?) &&
                errors == (if !valid then RequiredErrors(profesional, fecha, hora, cliente)
                           else if failure.Some? then ApiErrors(failure.value)
                           else map[])
    {
      if submitting {
        return false;
      }
      submitting := true;
      errors := map[];
      var ok := Validate();
      if !ok {
        submitting := false;
        return false;
      }
      if failure.Some? {
        errors := ParseApiErrorsOf(failure.value);
        navigated := false;
      } else {
        navigated := true;
      }
      submitting := false;
    }
  }
}
