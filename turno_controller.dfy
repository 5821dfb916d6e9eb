/**
 * The decision procedures of `createTurno` and `updateTurno`
 * (backend/controllers/turnoController.js): a fixed chain of guards over the
 * stored turnos, availabilities, clients and professionals, ending in the record
 * to persist, with the normalised `hora`, or in the error response.
 *
 * The collections are passed in as they are when the request arrives; the
 * `Store` class applies the outcome.
 */
module TurnoController {
  import opened Wrappers
  import opened JsString
  import opened Ordering
  import opened TimeUtils
  import opened Models
  import opened FieldErrors

  /** The body of a create request; an absent `hora` is "", an absent `estado` is `None`. */
  datatype CreateRequest = CreateRequest(fecha: int, hora: string, profesional: Id, cliente: Id, estado: Option<string>)

  /** The body of an update request; every field may be absent (`null` or `undefined`). */
  datatype UpdateRequest = UpdateRequest(
    fecha: Option<int>, hora: Option<string>, profesional: Option<Id>, cliente: Option<Id>, estado: Option<string>)

  const MSG_CHOQUE := "Ya hay un turno agendado para ese horario con ese profesional"
  const MSG_CLIENTE := "Cliente inexistente"
  const MSG_PROFESIONAL := "Profesional inexistente"
  const MSG_SIN_DISPONIBILIDAD := "El profesional no tiene disponibilidad registrada para el día "
  const MSG_NO_ENCONTRADO := "Turno no encontrado"
  const MSG_ERROR_CREAR := "Error al crear turno"
  const MSG_ERROR_ACTUALIZAR := "Error al actualizar turno"

  /** The `hora` values the collision query looks for: the normalised one and the one sent. */
  function HorasCheck(hora: string): set<string>
  {
    {ToHHmm(hora), hora}
  }

  /** A stored turno occupies the slot `(profesional, fecha)` at one of the `hora` spellings. */
  predicate Collides(t: Turno, profesional: Id, fecha: int, hora: string)
  {
    t.profesional == profesional && t.fecha == fecha && t.hora in HorasCheck(hora)
  }

  /** `Turno.findOne({profesional, fecha, hora: {$in: horasCheck}})` finds something. */
  predicate SlotTaken(turnos: seq<Turno>, profesional: Id, fecha: int, hora: string)
  {
    exists i :: 0 <= i < |turnos| && Collides(turnos[i], profesional, fecha, hora)
  }

  /** The same query with `_id: {$ne: id}`: a turno other than `id` holds the slot. */
  predicate SlotTakenByOther(turnos: seq<Turno>, id: Id, profesional: Id, fecha: int, hora: string)
  {
    exists i :: 0 <= i < |turnos| && turnos[i].id != id && Collides(turnos[i], profesional, fecha, hora)
  }

  /** One error item per missing reference: the client first, then the professional. */
  function MissingRefs(clientes: set<Id>, profesionales: set<Id>, cliente: Id, profesional: Id): (r: seq<ErrorItem>)
    ensures |r| == (if cliente in clientes then 0 else 1) + (if profesional in profesionales then 0 else 1)
    ensures forall i :: 0 <= i < |r| ==> r[i].path == ""
    ensures cliente !in clientes ==> r[0] == ErrorItem("cliente", "", MSG_CLIENTE)
    ensures profesional !in profesionales ==> r[|r| - 1] == ErrorItem("profesional", "", MSG_PROFESIONAL)
  {
    (if cliente in clientes then [] else [ErrorItem("cliente", "", MSG_CLIENTE)])
    + (if profesional in profesionales then [] else [ErrorItem("profesional", "", MSG_PROFESIONAL)])
  }

  /** `Disponibilidad.find({profesional, diaSemana: dia})`, in stored order. */
  function DayDisponibilidades(disps: seq<Disponibilidad>, profesional: Id, dia: string): (r: seq<Disponibilidad>)
    ensures forall i :: 0 <= i < |r| ==> r[i] in disps && r[i].profesional == profesional && r[i].diaSemana == dia
    ensures forall i :: 0 <= i < |disps| && disps[i].profesional == profesional && disps[i].diaSemana == dia ==> disps[i] in r
  {
    Filter(disps, (d: Disponibilidad) => d.profesional == profesional && d.diaSemana == dia)
  }

  /** Some availability of the professional on that day contains the time. */
  predicate Available(disps: seq<Disponibilidad>, profesional: Id, fecha: int, hora: string)
  {
    exists d :: d in disps && d.profesional == profesional && d.diaSemana == WeekdayEsUTC(fecha) && InRange(hora, AsRange(d))
  }

  /**
   * The availability and range guards shared by create and update: the error
   * for a day without availability (field `fecha`) or a time outside every range
   * of the day (field `hora`, listing all the ranges), or nothing.
   */
  function ScheduleError(disps: seq<Disponibilidad>, profesional: Id, fecha: int, hTurno: string): (r: Option<Failure>)
    ensures r.None? <==> Available(disps, profesional, fecha, hTurno)
  {
    var dia := WeekdayEsUTC(fecha);
    var ds := DayDisponibilidades(disps, profesional, dia);
    AvailableInDayRanges(disps, profesional, fecha, hTurno);
    if |ds| == 0 then
      Some(Failure(400, FieldError("fecha", MSG_SIN_DISPONIBILIDAD + dia)))
    else if !HoraDentroDeRangos(hTurno, AsRanges(ds)) then
      Some(Failure(400, FieldError("hora", "Horario fuera del rango disponible (" + RangesLabel(AsRanges(ds)) + ")")))
    else
      None
  }

  /** The range test over the day's availabilities decides `Available`. */
  lemma AvailableInDayRanges(disps: seq<Disponibilidad>, profesional: Id, fecha: int, t: string)
    ensures Available(disps, profesional, fecha, t)
            <==> HoraDentroDeRangos(t, AsRanges(DayDisponibilidades(disps, profesional, WeekdayEsUTC(fecha))))
  {
    var ds := DayDisponibilidades(disps, profesional, WeekdayEsUTC(fecha));
    if Available(disps, profesional, fecha, t) {
      var d :| d in disps && d.profesional == profesional && d.diaSemana == WeekdayEsUTC(fecha) && InRange(t, AsRange(d));
      var k :| 0 <= k < |disps| && disps[k] == d;
      assert d in ds;
      var j :| 0 <= j < |ds| && ds[j] == d;
      assert InRange(t, AsRanges(ds)[j]);
    }
    if HoraDentroDeRangos(t, AsRanges(ds)) {
      var j :| 0 <= j < |ds| && InRange(t, AsRanges(ds)[j]);
      assert ds[j] in disps;
    }
  }

  /** `createTurno`: collision, then references, then availability and range, then the schema check on save. */
  function CreateTurnoDecision(
    turnos: seq<Turno>, disps: seq<Disponibilidad>, clientes: set<Id>, profesionales: set<Id>,
    req: CreateRequest, newId: Id): Result<Turno, Failure>
  {
    var hTurno := ToHHmm(req.hora);
    if SlotTaken(turnos, req.profesional, req.fecha, req.hora) then
      Err(Failure(400, FieldError("hora", MSG_CHOQUE)))
    else if req.cliente !in clientes || req.profesional !in profesionales then
      Err(Failure(404, ErrorsPayload(MissingRefs(clientes, profesionales, req.cliente, req.profesional))))
    else
      match ScheduleError(disps, req.profesional, req.fecha, hTurno)
      case Some(f) => Err(f)
      case None =>
        var t := Turno(newId, req.fecha, hTurno, req.estado.GetOr("pendiente"), req.profesional, req.cliente);
        if !TurnoSchemaOk(t) then Err(Failure(500, ExceptionPayload(MSG_ERROR_CREAR, ValidationException)))
        else Ok(t)
  }

  /** `Turno.findById(id)`: the position of the turno with that id, if any. */
  function FindTurno(turnos: seq<Turno>, id: Id): (r: Option<nat>)
    ensures r.Some? ==> r.value < |turnos| && turnos[r.value].id == id
    ensures r.None? ==> forall i :: 0 <= i < |turnos| ==> turnos[i].id != id
  {
    if |turnos| == 0 then None
    else if turnos[0].id == id then Some(0)
    else match FindTurno(turnos[1..], id)
      case None => None
      case Some(i) => Some(i + 1)
  }

  /** The record after update: every field sent replaces the stored one, the others are kept. */
  function Merged(cur: Turno, req: UpdateRequest): Turno
  {
    Turno(cur.id, req.fecha.GetOr(cur.fecha), req.hora.GetOr(cur.hora), req.estado.GetOr(cur.estado),
          req.profesional.GetOr(cur.profesional), req.cliente.GetOr(cur.cliente))
  }

  /**
   * `updateTurno`: lookup, then references, then availability and range, then the
   * collision with another turno, then the schema check on save.
   */
  function UpdateTurnoDecision(
    turnos: seq<Turno>, disps: seq<Disponibilidad>, clientes: set<Id>, profesionales: set<Id>,
    id: Id, req: UpdateRequest): Result<Turno, Failure>
  {
    match FindTurno(turnos, id)
    case None => Err(Failure(404, MessagePayload(MSG_NO_ENCONTRADO)))
    case Some(i) =>
      var m := Merged(turnos[i], req);
      if m.cliente !in clientes || m.profesional !in profesionales then
        Err(Failure(404, ErrorsPayload(MissingRefs(clientes, profesionales, m.cliente, m.profesional))))
      else
        var hTurno := ToHHmm(m.hora);
        match ScheduleError(disps, m.profesional, m.fecha, hTurno)
        case Some(f) => Err(f)
        case None =>
          if SlotTakenByOther(turnos, id, m.profesional, m.fecha, m.hora) then
            Err(Failure(400, FieldError("hora", MSG_CHOQUE)))
          else
            var t := m.(hora := hTurno);
            if !TurnoSchemaOk(t) then Err(Failure(500, ExceptionPayload(MSG_ERROR_ACTUALIZAR, ValidationException)))
            else Ok(t)
  }

  // ---------------------------------------------------------------------------
  // Properties of the decisions

  /**
   * An accepted create passed every guard: the slot was free under both
   * spellings of the time, both references exist, and the stored time is the
   * normalised request time, non-empty and inside some range of the
   * professional on the date's UTC weekday.
   */
  lemma CreateTurnoAccepted(
    turnos: seq<Turno>, disps: seq<Disponibilidad>, clientes: set<Id>, profesionales: set<Id>,
    req: CreateRequest, newId: Id)
    requires CreateTurnoDecision(turnos, disps, clientes, profesionales, req, newId).Ok?
    ensures var t := CreateTurnoDecision(turnos, disps, clientes, profesionales, req, newId).value;
      t == Turno(newId, req.fecha, ToHHmm(req.hora), req.estado.GetOr("pendiente"), req.profesional, req.cliente)
      && !SlotTaken(turnos, req.profesional, req.fecha, req.hora)
      && req.cliente in clientes && req.profesional in profesionales
      && TurnoSchemaOk(t) && ToHHmm(t.hora) == t.hora
      && Available(disps, t.profesional, t.fecha, t.hora)
  {
    ToHHmmIdempotent(req.hora);
  }

  /**
   * An accepted update passed every guard on the merged record: both references
   * exist, no other turno holds the slot, and the stored time is normalised,
   * non-empty and inside some range of the professional on the UTC weekday.
   */
  lemma UpdateTurnoAccepted(
    turnos: seq<Turno>, disps: seq<Disponibilidad>, clientes: set<Id>, profesionales: set<Id>,
    id: Id, req: UpdateRequest)
    requires UpdateTurnoDecision(turnos, disps, clientes, profesionales, id, req).Ok?
    ensures FindTurno(turnos, id).Some?
    ensures var m := Merged(turnos[FindTurno(turnos, id).value], req);
      var t := UpdateTurnoDecision(turnos, disps, clientes, profesionales, id, req).value;
      t == m.(hora := ToHHmm(m.hora)) && t.id == id
      && !SlotTakenByOther(turnos, id, m.profesional, m.fecha, m.hora)
      && m.cliente in clientes && m.profesional in profesionales
      && TurnoSchemaOk(t) && ToHHmm(t.hora) == t.hora
      && Available(disps, t.profesional, t.fecha, t.hora)
  {
    var i := FindTurno(turnos, id).value;
    var m := Merged(turnos[i], req);
    var hTurno := ToHHmm(m.hora);
    var t := m.(hora := hTurno);
    var r := UpdateTurnoDecision(turnos, disps, clientes, profesionales, id, req);
    assert m.cliente in clientes && m.profesional in profesionales;
    assert ScheduleError(disps, m.profesional, m.fecha, hTurno).None?;
    assert !SlotTakenByOther(turnos, id, m.profesional, m.fecha, m.hora);
    assert TurnoSchemaOk(t) && r.value == t;
    ToHHmmIdempotent(m.hora);
  }

  /**
   * A create is accepted exactly when every guard passes: the slot is free, both
   * references exist, the normalised time lies in a range of the professional on
   * the date's UTC weekday, and the record passes the schema.
   */
  lemma CreateTurnoAcceptedIff(
    turnos: seq<Turno>, disps: seq<Disponibilidad>, clientes: set<Id>, profesionales: set<Id>,
    req: CreateRequest, newId: Id)
    ensures var t := Turno(newId, req.fecha, ToHHmm(req.hora), req.estado.GetOr("pendiente"), req.profesional, req.cliente);
      CreateTurnoDecision(turnos, disps, clientes, profesionales, req, newId) == Ok(t) <==>
        !SlotTaken(turnos, req.profesional, req.fecha, req.hora)
        && req.cliente in clientes && req.profesional in profesionales
        && Available(disps, req.profesional, req.fecha, ToHHmm(req.hora))
        && TurnoSchemaOk(t)
  {
    if CreateTurnoDecision(turnos, disps, clientes, profesionales, req, newId).Ok? {
      CreateTurnoAccepted(turnos, disps, clientes, profesionales, req, newId);
    }
  }

  /**
   * An update of a stored turno is accepted exactly when every guard passes on
   * the merged record: both references exist, the normalised time lies in a
   * range of the professional, no other turno holds the slot, and the record
   * passes the schema.
   */
  lemma UpdateTurnoAcceptedIff(
    turnos: seq<Turno>, disps: seq<Disponibilidad>, clientes: set<Id>, profesionales: set<Id>,
    id: Id, req: UpdateRequest, i: nat)
    requires i < |turnos| && turnos[i].id == id
    requires forall j :: 0 <= j < i ==> turnos[j].id != id
    ensures var m := Merged(turnos[i], req);
      UpdateTurnoDecision(turnos, disps, clientes, profesionales, id, req) == Ok(m.(hora := ToHHmm(m.hora))) <==>
        m.cliente in clientes && m.profesional in profesionales
        && Available(disps, m.profesional, m.fecha, ToHHmm(m.hora))
        && !SlotTakenByOther(turnos, id, m.profesional, m.fecha, m.hora)
        && TurnoSchemaOk(m.(hora := ToHHmm(m.hora)))
  {
    FindTurnoFirst(turnos, id, i);
    if UpdateTurnoDecision(turnos, disps, clientes, profesionales, id, req).Ok? {
      UpdateTurnoAccepted(turnos, disps, clientes, profesionales, id, req);
    }
  }

  /** `FindTurno` answers the first position holding the id. */
  lemma {:induction false} FindTurnoFirst(turnos: seq<Turno>, id: Id, i: nat)
    requires i < |turnos| && turnos[i].id == id
    requires forall j :: 0 <= j < i ==> turnos[j].id != id
    ensures FindTurno(turnos, id) == Some(i)
  {
    if i > 0 {
      FindTurnoFirst(turnos[1..], id, i - 1);
    }
  }

  /**
   * The collision is checked first: a request for a taken slot is refused on
   * field `hora` whatever the client, the professional and the availabilities.
   * The raw and the normalised spelling of the time both count as taken.
   */
  lemma CreateCollisionFirst(
    turnos: seq<Turno>, disps: seq<Disponibilidad>, clientes: set<Id>, profesionales: set<Id>,
    req: CreateRequest, newId: Id, k: nat)
    requires k < |turnos| && turnos[k].profesional == req.profesional && turnos[k].fecha == req.fecha
    requires turnos[k].hora == req.hora || turnos[k].hora == ToHHmm(req.hora)
    ensures CreateTurnoDecision(turnos, disps, clientes, profesionales, req, newId)
            == Err(Failure(400, FieldError("hora", MSG_CHOQUE)))
  {
    assert Collides(turnos[k], req.profesional, req.fecha, req.hora);
  }

  /**
   * The collision query matches both spellings of the requested time: a request
   * for `"9:00"` is blocked by a turno stored as `"9:00"` and by one stored as
   * `"09:00"`. A request for `"09:00"` is not blocked by a turno stored unpadded.
   */
  lemma CollisionToleratesPadding(raw: Turno, padded: Turno, profesional: Id, fecha: int, h: string, m: string)
    requires ':' !in h && ':' !in m && |h| == 1 && |m| == 2
    requires raw.profesional == profesional && raw.fecha == fecha && raw.hora == h + ":" + m
    requires padded.profesional == profesional && padded.fecha == fecha && padded.hora == "0" + h + ":" + m
    ensures Collides(raw, profesional, fecha, h + ":" + m)
    ensures Collides(padded, profesional, fecha, h + ":" + m)
    ensures !Collides(raw, profesional, fecha, "0" + h + ":" + m)
  {
    ToHHmmOf(h, m);
    ToHHmmOf("0" + h, m);
    assert "0" + h + ":" + m == ("0" + h) + ":" + m;
    assert |raw.hora| != |padded.hora|;
  }

  /** With the slot free, each missing reference yields one error item, client first; both can be listed together. */
  lemma CreateMissingReferences(
    turnos: seq<Turno>, disps: seq<Disponibilidad>, clientes: set<Id>, profesionales: set<Id>,
    req: CreateRequest, newId: Id)
    requires !SlotTaken(turnos, req.profesional, req.fecha, req.hora)
    requires req.cliente !in clientes || req.profesional !in profesionales
    ensures var r := CreateTurnoDecision(turnos, disps, clientes, profesionales, req, newId);
      r.Err? && r.error.code == 404 && r.error.body.errors.Some?
      && r.error.body.errors.value == MissingRefs(clientes, profesionales, req.cliente, req.profesional)
    ensures req.cliente !in clientes && req.profesional !in profesionales ==>
      MissingRefs(clientes, profesionales, req.cliente, req.profesional)
        == [ErrorItem("cliente", "", MSG_CLIENTE), ErrorItem("profesional", "", MSG_PROFESIONAL)]
  {
  }

  /** A day without availability is refused on field `fecha`, naming the day. */
  lemma NoAvailabilityOnDay(disps: seq<Disponibilidad>, profesional: Id, fecha: int, hTurno: string)
    requires forall d :: d in disps ==> d.profesional != profesional || d.diaSemana != WeekdayEsUTC(fecha)
    ensures ScheduleError(disps, profesional, fecha, hTurno)
            == Some(Failure(400, FieldError("fecha", MSG_SIN_DISPONIBILIDAD + WeekdayEsUTC(fecha))))
  {
    var dia := WeekdayEsUTC(fecha);
    FilterNone(disps, (d: Disponibilidad) => d.profesional == profesional && d.diaSemana == dia);
  }

  /** A time outside every range of the day is refused on field `hora`, with the label of all that day's ranges. */
  lemma OutsideEveryRange(disps: seq<Disponibilidad>, profesional: Id, fecha: int, hTurno: string)
    requires exists d :: d in disps && d.profesional == profesional && d.diaSemana == WeekdayEsUTC(fecha)
    requires !Available(disps, profesional, fecha, hTurno)
    ensures var ds := DayDisponibilidades(disps, profesional, WeekdayEsUTC(fecha));
      ScheduleError(disps, profesional, fecha, hTurno)
        == Some(Failure(400, FieldError("hora", "Horario fuera del rango disponible (" + RangesLabel(AsRanges(ds)) + ")")))
  {
    var ds := DayDisponibilidades(disps, profesional, WeekdayEsUTC(fecha));
    var d :| d in disps && d.profesional == profesional && d.diaSemana == WeekdayEsUTC(fecha);
    var k :| 0 <= k < |disps| && disps[k] == d;
    assert d in ds;
  }

  /** An unknown id is answered with 404, before any other check. */
  lemma UpdateUnknownId(
    turnos: seq<Turno>, disps: seq<Disponibilidad>, clientes: set<Id>, profesionales: set<Id>,
    id: Id, req: UpdateRequest)
    requires forall i :: 0 <= i < |turnos| ==> turnos[i].id != id
    ensures UpdateTurnoDecision(turnos, disps, clientes, profesionales, id, req)
            == Err(Failure(404, MessagePayload(MSG_NO_ENCONTRADO)))
  {
  }

  /** An empty update body keeps every field; only the time is rewritten in normalised form. */
  lemma UpdateEmptyBodyKeepsFields(
    turnos: seq<Turno>, disps: seq<Disponibilidad>, clientes: set<Id>, profesionales: set<Id>,
    id: Id)
    requires UpdateTurnoDecision(turnos, disps, clientes, profesionales, id, UpdateRequest(None, None, None, None, None)).Ok?
    ensures var cur := turnos[FindTurno(turnos, id).value];
      UpdateTurnoDecision(turnos, disps, clientes, profesionales, id, UpdateRequest(None, None, None, None, None)).value
        == cur.(hora := ToHHmm(cur.hora))
  {
    var req := UpdateRequest(None, None, None, None, None);
    var i := FindTurno(turnos, id).value;
    var cur := turnos[i];
    assert Merged(cur, req) == cur;
    var r := UpdateTurnoDecision(turnos, disps, clientes, profesionales, id, req);
    assert r == Ok(cur.(hora := ToHHmm(cur.hora)));
  }

  /**
   * Update checks the references before the schedule, and the collision last:
   * a request with a missing reference is refused with 404, and one outside the
   * schedule on `fecha` or `hora`, even when its slot is taken.
   */
  lemma UpdateOrderOfChecks(
    turnos: seq<Turno>, disps: seq<Disponibilidad>, clientes: set<Id>, profesionales: set<Id>,
    id: Id, req: UpdateRequest)
    requires FindTurno(turnos, id).Some?
    ensures var m := Merged(turnos[FindTurno(turnos, id).value], req);
      var r := UpdateTurnoDecision(turnos, disps, clientes, profesionales, id, req);
      (m.cliente !in clientes || m.profesional !in profesionales ==> r.Err? && r.error.code == 404)
      && ((m.cliente in clientes && m.profesional in profesionales
           && !Available(disps, m.profesional, m.fecha, ToHHmm(m.hora)))
          ==> (r.Err? && r.error.code == 400 && r.error.body.errors.Some?
               && r.error.body.errors.value[0].param in {"fecha", "hora"}))
  {
    var m := Merged(turnos[FindTurno(turnos, id).value], req);
    if m.cliente in clientes && m.profesional in profesionales && !Available(disps, m.profesional, m.fecha, ToHHmm(m.hora)) {
      var f := ScheduleError(disps, m.profesional, m.fecha, ToHHmm(m.hora));
      assert f.Some?;
    }
  }
}
