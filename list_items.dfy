/**
 * The records the list pages receive: turnos and availability ranges with
 * their professional (and client) populated by the server. A text field the
 * pages read with `x || ''` is a string where the empty string also stands
 * for a missing value; a populated reference that may be `null` is an
 * `Option`. A `fecha` is a whole number of days since 1970-01-01 (UTC).
 */
module ListItems {
  import opened Wrappers

  /** A populated professional (`_id`, `nombre`, `especialidad`, `email`). */
  datatype ProfesionalRef = ProfesionalRef(id: string, nombre: string, especialidad: string, email: string)

  /** A populated client (`nombre`, `email`, `dni`). */
  datatype ClienteRef = ClienteRef(nombre: string, email: string, dni: string)

  /** A turno as `listTurnos` returns it. */
  datatype TurnoItem = TurnoItem(fecha: Option<int>, hora: string, estado: string,
                                 profesional: Option<ProfesionalRef>, cliente: Option<ClienteRef>)

  /** An availability range as `listDisponibilidades` returns it. */
  datatype DisponibilidadItem = DisponibilidadItem(id: string, diaSemana: string, horaInicio: string, horaFin: string,
                                                   profesional: Option<ProfesionalRef>)

  const MS_PER_DAY: int := 86400000

  /** `t.fecha ? new Date(t.fecha).getTime() : 0`: a missing date counts as the epoch. */
  function Timestamp(fecha: Option<int>): (ms: int)
    ensures fecha.None? ==> ms == 0
    ensures fecha.Some? ==> ms == fecha.value * MS_PER_DAY
  {
    if fecha.None? then 0 else fecha.value * MS_PER_DAY
  }

  /** Timestamps order dates as the dates themselves are ordered. */
  lemma TimestampMonotone(a: int, b: int)
    ensures Timestamp(Some(a)) < Timestamp(Some(b)) <==> a < b
  {
    if a < b {
      assert (b - a) * MS_PER_DAY > 0;
      assert Timestamp(Some(b)) - Timestamp(Some(a)) == (b - a) * MS_PER_DAY;
    } else {
      assert (a - b) * MS_PER_DAY >= 0;
      assert Timestamp(Some(a)) - Timestamp(Some(b)) == (a - b) * MS_PER_DAY;
    }
  }

  /** `t.estado || 'pendiente'`. */
  function EstadoOrPendiente(t: TurnoItem): (e: string)
    ensures t.estado != "" ==> e == t.estado
    ensures t.estado == "" ==> e == "pendiente"
  {
    if t.estado == "" then "pendiente" else t.estado
  }
}
