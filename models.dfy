/**
 * The stored records (backend/models/Turno.js, backend/models/Disponibilidad.js)
 * and the schema rules Mongoose enforces when a record is saved.
 *
 * Object ids are natural numbers and a `fecha` is a whole number of days since
 * 1970-01-01 (UTC).
 */
module Models {
  import opened TimeUtils
  import opened Ordering

  type Id = nat

  /** The values the `estado` enum of a turno admits; the default is the first. */
  const ESTADOS: seq<string> := ["pendiente", "confirmado", "cancelado"]

  /** The values the `diaSemana` enum of an availability admits. */
  const DIAS_SEMANA: seq<string> := ["lunes", "martes", "miércoles", "jueves", "viernes", "sábado", "domingo"]

  /** An appointment of a client with a professional. */
  datatype Turno = Turno(id: Id, fecha: int, hora: string, estado: string, profesional: Id, cliente: Id)

  /** A weekly availability range of a professional on one day. */
  datatype Disponibilidad = Disponibilidad(id: Id, diaSemana: string, horaInicio: string, horaFin: string, profesional: Id)

  /**
   * The schema check `save()` runs on a turno: `hora` is a required string
   * (so not empty) and `estado` is one of the enum values.
   */
  predicate TurnoSchemaOk(t: Turno)
  {
    t.hora != "" && t.estado in ESTADOS
  }

  /** The schema check on an availability: a day of the enum and both times present. */
  predicate DisponibilidadSchemaOk(d: Disponibilidad)
  {
    d.diaSemana in DIAS_SEMANA && d.horaInicio != "" && d.horaFin != ""
  }

  /** The time range of an availability, as the time helpers read it. */
  function AsRange(d: Disponibilidad): TimeRange
  {
    TimeRange(d.horaInicio, d.horaFin)
  }

  /** The time ranges of a list of availabilities, in order. */
  function AsRanges(ds: seq<Disponibilidad>): (r: seq<TimeRange>)
    ensures |r| == |ds|
    ensures forall i :: 0 <= i < |ds| ==> r[i] == AsRange(ds[i])
  {
    if |ds| == 0 then [] else AsRanges(ds[..|ds| - 1]) + [AsRange(ds[|ds| - 1])]
  }

  /** The key the views sort ranges by: the start time as text. */
  function StartKey(d: Disponibilidad): Key
  {
    TextKey(d.horaInicio)
  }

  /** Sorted by `StartKey` means ascending start times. */
  lemma SortedByStart(s: seq<Disponibilidad>)
    requires SortedBy(s, StartKey)
    ensures forall i, j :: 0 <= i < j < |s| ==> StrLe(s[i].horaInicio, s[j].horaInicio)
  {
    forall i, j | 0 <= i < j < |s| ensures StrLe(s[i].horaInicio, s[j].horaInicio) {
      TextKeyOrder(s[i].horaInicio, s[j].horaInicio);
    }
  }
}
