/**
 * The availability form (frontend/src/pages/DisponibilidadFormPage.jsx): its
 * client-side validation and its change handler. The form is a value the
 * page replaces on each change; the error object is a map from field name to
 * message, and clearing an error removes its key.
 */
module DisponibilidadFormPage {
  import opened JsString
  import opened Ordering
  import opened TimeUtils
  import opened FormRules

  const MSG_DIA: string := "El día es obligatorio."
  const MSG_INICIO: string := "La hora de inicio es obligatoria."
  const MSG_FIN: string := "La hora de fin es obligatoria."
  const MSG_FORMATO: string := "Formato inválido (HH:mm)."
  const MSG_RANGO: string := "La hora de fin debe ser mayor a la de inicio."
  const MSG_PROFESIONAL: string := "El profesional es obligatorio."

  /** The form's four fields. */
  datatype Fields = Fields(diaSemana: string, horaInicio: string, horaFin: string, profesional: string)

  /** Which input a change event comes from. */
  datatype Field = DiaSemana | HoraInicio | HoraFin | Profesional

  function FieldName(f: Field): string
  {
    match f
    case DiaSemana => "diaSemana"
    case HoraInicio => "horaInicio"
    case HoraFin => "horaFin"
    case Profesional => "profesional"
  }

  function Get(form: Fields, f: Field): string
  {
    match f
    case DiaSemana => form.diaSemana
    case HoraInicio => form.horaInicio
    case HoraFin => form.horaFin
    case Profesional => form.profesional
  }

  /** `{ ...prev, [name]: value }`. */
  function Set(form: Fields, f: Field, value: string): (r: Fields)
    ensures Get(r, f) == value
    ensures forall g :: g != f ==> Get(r, g) == Get(form, g)
  {
    match f
    case DiaSemana => form.(diaSemana := value)
    case HoraInicio => form.(horaInicio := value)
    case HoraFin => form.(horaFin := value)
    case Profesional => form.(profesional := value)
  }

  /** The error `validate` leaves on a time field, before the range check. */
  function TimeError(t: string, required: string): string
  {
    if t == "" then required else MSG_FORMATO
  }

  /** The required-then-format check on one time field. */
  function TimeCheck(e: map<string, string>, key: string, t: string, required: string): (r: map<string, string>)
    ensures IsHHmm(t) ==> r == e
    ensures !IsHHmm(t) ==> r == e[key := TimeError(t, required)]
  {
    if t == "" then e[key := required] else if !IsHHmm(t) then e[key := MSG_FORMATO] else e
  }

  /** The statements `validate` repeats for each time field. */
  method CheckTime(e: map<string, string>, key: string, t: string, required: string) returns (r: map<string, string>)
    ensures r == TimeCheck(e, key, t, required)
  {
    r := e;
    if t == "" {
      r := r[key := required];
    } else if !IsHHmm(t) {
      r := r[key := MSG_FORMATO];
    }
  }

  /** The range check: with both times matching, an end not after the start is an error on `horaFin`. */
  function RangeCheck(e: map<string, string>, inicio: string, fin: string): (r: map<string, string>)
    ensures IsHHmm(inicio) && IsHHmm(fin) && !StrLt(inicio, fin) ==> r == e["horaFin" := MSG_RANGO]
    ensures !(IsHHmm(inicio) && IsHHmm(fin) && !StrLt(inicio, fin)) ==> r == e
  {
    if IsHHmm(inicio) && IsHHmm(fin) && !StrLt(inicio, fin) then e["horaFin" := MSG_RANGO] else e
  }

  /**
   * The errors `validate` records: a required day and professional, each time
   * required and in `HH:mm` form, and an end after the start (compared as text)
   * when both times match.
   */
  function FormErrors(form: Fields): (e: map<string, string>)
    ensures "diaSemana" in e <==> form.diaSemana == ""
    ensures "profesional" in e <==> form.profesional == ""
    ensures "horaInicio" in e <==> !IsHHmm(form.horaInicio)
    ensures "horaInicio" in e ==> e["horaInicio"] == TimeError(form.horaInicio, MSG_INICIO)
    ensures "horaFin" in e <==> !IsHHmm(form.horaFin) || (IsHHmm(form.horaInicio) && !StrLt(form.horaInicio, form.horaFin))
    ensures "horaFin" in e ==>
              e["horaFin"] == (if IsHHmm(form.horaInicio) && IsHHmm(form.horaFin) then MSG_RANGO
                               else TimeError(form.horaFin, MSG_FIN))
    ensures forall k :: k in e ==> k in {"diaSemana", "horaInicio", "horaFin", "profesional"}
  {
    var e1: map<string, string> := if form.diaSemana == "" then map["diaSemana" := MSG_DIA] else map[];
    var e2 := TimeCheck(e1, "horaInicio", form.horaInicio, MSG_INICIO);
    var e3 := TimeCheck(e2, "horaFin", form.horaFin, MSG_FIN);
    var e4 := RangeCheck(e3, form.horaInicio, form.horaFin);
    if form.profesional == "" then e4["profesional" := MSG_PROFESIONAL] else e4
  }

  /**
   * The form passes exactly when every field is filled, both times match the
   * pattern and the end comes after the start.
   */
  lemma FormErrorsEmpty(form: Fields)
    ensures |FormErrors(form)| == 0 <==>
            form.diaSemana != "" && form.profesional != "" &&
            IsHHmm(form.horaInicio) && IsHHmm(form.horaFin) && StrLt(form.horaInicio, form.horaFin)
  {
    var e := FormErrors(form);
    if |e| == 0 {
      assert "diaSemana" !in e && "profesional" !in e && "horaInicio" !in e && "horaFin" !in e;
    } else {
      var k :| k in e;
    }
  }

  /**
   * A form that passes sends a range the server reads as a proper one: both
   * times are clock times already in `HH:mm` form and the start's minute is
   * before the end's.
   */
  lemma AcceptedRangeIsProper(form: Fields)
    requires |FormErrors(form)| == 0
    ensures ToHHmm(form.horaInicio) == form.horaInicio && ToHHmm(form.horaFin) == form.horaFin
    ensures Minutes(form.horaInicio).Int? && Minutes(form.horaFin).Int?
    ensures 0 <= Minutes(form.horaInicio).v < Minutes(form.horaFin).v <= 1439
  {
    FormErrorsEmpty(form);
    HHmmMinutes(form.horaInicio);
    HHmmMinutes(form.horaFin);
    HHmmOrder(form.horaInicio, form.horaFin);
  }

  /** The page's form and error state. */
  class DisponibilidadForm {
    var form: Fields
    var errors: map<string, string>

    /** `initialForm` and no errors. */
    constructor ()
      ensures form == Fields("", "", "", "") && errors == map[]
    {
      form := Fields("", "", "", "");
      errors := map[];
    }

    /** `validate`: fills the error object check by check and reports whether it stayed empty. */
    method Validate() returns (ok: bool)
      modifies this`errors
      ensures errors == FormErrors(form)
      ensures ok <==> |errors| == 0
    {
      var fm := form;
      var e: map<string, string> := map[];
      if fm.diaSemana == "" {
        e := e["diaSemana" := MSG_DIA];
      }
      e := CheckTime(e, "horaInicio", fm.horaInicio, MSG_INICIO);
      e := CheckTime(e, "horaFin", fm.horaFin, MSG_FIN);
      ghost var e3 := e;
      if IsHHmm(fm.horaInicio) && IsHHmm(fm.horaFin) {
        if !StrLt(fm.horaInicio, fm.horaFin) {
          e := e["horaFin" := MSG_RANGO];
        }
      }
      assert e == RangeCheck(e3, fm.horaInicio, fm.horaFin);
      if fm.profesional == "" {
        e := e["profesional" := MSG_PROFESIONAL];
      }
      assert e == FormErrors(fm);
      errors := e;
      ok := |e| == 0;
    }

    /** `handleChange`: sets the named field and clears its error and `_general`. */
    method HandleChange(f: Field, value: string)
      modifies this
      ensures form == Set(old(form), f, value)
      ensures errors == old(errors) - {FieldName(f), "_general"}
    {
      form := Set(form, f, value);
      errors := errors - {FieldName(f), "_general"};
    }
  }
}
