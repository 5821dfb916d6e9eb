/**
 * The decision procedures of the availability handlers
 * (backend/controllers/disponibilidadController.js): `createDisponibilidad`
 * with its start/end, duplicate and overlap guards, the per-professional
 * listing, and `updateDisponibilidad`, which replaces fields without any check.
 *
 * The guards compare the times as raw strings, so they agree with the clock
 * order only for zero-padded `HH:mm` times.
 */
module DisponibilidadController {
  import opened Wrappers
  import opened JsString
  import opened Ordering
  import opened TimeUtils
  import opened Models
  import opened FieldErrors

  /** The body of a create request. */
  datatype CreateRequest = CreateRequest(diaSemana: string, horaInicio: string, horaFin: string, profesional: Id)

  /** The body of an update request: the fields it sets. */
  datatype Patch = Patch(diaSemana: Option<string>, horaInicio: Option<string>, horaFin: Option<string>, profesional: Option<Id>)

  const MSG_INICIO_FIN := "La hora de inicio debe ser menor que la de fin"
  const MSG_DUPLICADO := "Ya existe una disponibilidad con ese mismo rango horario para ese día"
  const MSG_SOLAPA := "El rango horario se superpone con otra disponibilidad del mismo día"
  const MSG_ERROR_CREAR := "Error al crear disponibilidad"
  const MSG_SIN_RESULTADOS := "No se encontraron disponibilidades para este profesional"

  /** `Disponibilidad.find({profesional, diaSemana})`: the ranges of that professional on that day. */
  function Existentes(disps: seq<Disponibilidad>, profesional: Id, dia: string): (r: seq<Disponibilidad>)
    ensures forall i :: 0 <= i < |r| ==> r[i] in disps && r[i].profesional == profesional && r[i].diaSemana == dia
    ensures forall i :: 0 <= i < |disps| && disps[i].profesional == profesional && disps[i].diaSemana == dia ==> disps[i] in r
  {
    Filter(disps, (d: Disponibilidad) => d.profesional == profesional && d.diaSemana == dia)
  }

  /** Storing one more range adds it to the ranges of its own professional and day only. */
  lemma ExistentesSnoc(disps: seq<Disponibilidad>, x: Disponibilidad, profesional: Id, dia: string)
    ensures Existentes(disps + [x], profesional, dia)
            == Existentes(disps, profesional, dia) + (if x.profesional == profesional && x.diaSemana == dia then [x] else [])
  {
    assert (disps + [x])[..|disps|] == disps;
  }

  /** `horaInicio < d.horaFin && horaFin > d.horaInicio`, on strings. */
  predicate Overlaps(horaInicio: string, horaFin: string, d: Disponibilidad)
  {
    StrLt(horaInicio, d.horaFin) && StrLt(d.horaInicio, horaFin)
  }

  /** Two stored ranges overlap. */
  predicate RangesOverlap(a: Disponibilidad, b: Disponibilidad)
  {
    Overlaps(a.horaInicio, a.horaFin, b)
  }

  /** Two ranges belong to the same professional and the same day. */
  predicate SameDay(a: Disponibilidad, b: Disponibilidad)
  {
    a.profesional == b.profesional && a.diaSemana == b.diaSemana
  }

  /** The ranges of each professional on each day are pairwise non-overlapping. */
  predicate DisjointPerDay(ds: seq<Disponibilidad>)
  {
    forall i, j :: 0 <= i < |ds| && 0 <= j < |ds| && i != j && SameDay(ds[i], ds[j]) ==> !RangesOverlap(ds[i], ds[j])
  }

  /** `createDisponibilidad`: start before end, then exact duplicate, then overlap, then the schema check on save. */
  function CreateDecision(disps: seq<Disponibilidad>, req: CreateRequest, newId: Id): (r: Result<Disponibilidad, Failure>)
    ensures r.Ok? ==> r.value == Disponibilidad(newId, req.diaSemana, req.horaInicio, req.horaFin, req.profesional)
    ensures r.Ok? ==> StrLt(req.horaInicio, req.horaFin) && DisponibilidadSchemaOk(r.value)
    ensures r.Ok? ==> forall d :: d in disps && SameDay(d, r.value) ==> !RangesOverlap(r.value, d)
    ensures !StrLt(req.horaInicio, req.horaFin) ==> r == Err(Failure(400, MessagePayload(MSG_INICIO_FIN)))
  {
    if !StrLt(req.horaInicio, req.horaFin) then
      Err(Failure(400, MessagePayload(MSG_INICIO_FIN)))
    else
      var ex := Existentes(disps, req.profesional, req.diaSemana);
      if exists i :: 0 <= i < |ex| && ex[i].horaInicio == req.horaInicio && ex[i].horaFin == req.horaFin then
        Err(Failure(400, MessagePayload(MSG_DUPLICADO)))
      else if exists i :: 0 <= i < |ex| && Overlaps(req.horaInicio, req.horaFin, ex[i]) then
        Err(Failure(400, MessagePayload(MSG_SOLAPA)))
      else
        var d := Disponibilidad(newId, req.diaSemana, req.horaInicio, req.horaFin, req.profesional);
        assert forall e :: e in disps && SameDay(e, d) ==> !RangesOverlap(d, e) by {
          forall e | e in disps && SameDay(e, d) ensures !RangesOverlap(d, e) {
            var k :| 0 <= k < |disps| && disps[k] == e;
            assert e in ex;
          }
        }
        if !DisponibilidadSchemaOk(d) then Err(Failure(500, ExceptionPayload(MSG_ERROR_CREAR, ValidationException)))
        else Ok(d)
  }

  /** Overlap is symmetric. */
  lemma OverlapSymmetric(a: Disponibilidad, b: Disponibilidad)
    ensures RangesOverlap(a, b) <==> RangesOverlap(b, a)
  {
  }

  /** Ranges that only touch, such as 09:00-12:00 and 12:00-14:00, do not overlap. */
  lemma AdjacentRangesDoNotOverlap(a: Disponibilidad, b: Disponibilidad)
    requires a.horaFin == b.horaInicio
    ensures !RangesOverlap(a, b) && !RangesOverlap(b, a)
  {
    StrLtIrreflexive(a.horaFin);
  }

  /**
   * A create is accepted exactly when the start comes before the end, no stored
   * range of that professional and day overlaps it (an exact duplicate always
   * overlaps), and the record passes the schema.
   */
  lemma CreateAcceptedIff(disps: seq<Disponibilidad>, req: CreateRequest, newId: Id)
    ensures var d := Disponibilidad(newId, req.diaSemana, req.horaInicio, req.horaFin, req.profesional);
            CreateDecision(disps, req, newId) == Ok(d) <==>
              StrLt(req.horaInicio, req.horaFin) &&
              (forall e :: e in disps && SameDay(e, d) ==> !Overlaps(req.horaInicio, req.horaFin, e)) &&
              DisponibilidadSchemaOk(d)
  {
    var d := Disponibilidad(newId, req.diaSemana, req.horaInicio, req.horaFin, req.profesional);
    var ex := Existentes(disps, req.profesional, req.diaSemana);
    if StrLt(req.horaInicio, req.horaFin) && (forall e :: e in disps && SameDay(e, d) ==> !Overlaps(req.horaInicio, req.horaFin, e)) {
      forall i | 0 <= i < |ex|
        ensures !Overlaps(req.horaInicio, req.horaFin, ex[i])
        ensures !(ex[i].horaInicio == req.horaInicio && ex[i].horaFin == req.horaFin)
      {
        assert ex[i] in disps && SameDay(ex[i], d);
      }
    }
  }

  /**
   * The range 12:00-14:00 is accepted next to a stored 09:00-12:00 of the same
   * professional on the same day.
   */
  lemma AdjacentRangeAccepted(stored: Disponibilidad, req: CreateRequest, newId: Id)
    requires stored.horaInicio == "09:00" && stored.horaFin == "12:00"
    requires stored.profesional == req.profesional && stored.diaSemana == req.diaSemana
    requires req.horaInicio == "12:00" && req.horaFin == "14:00" && req.diaSemana in DIAS_SEMANA
    ensures CreateDecision([stored], req, newId)
            == Ok(Disponibilidad(newId, req.diaSemana, "12:00", "14:00", req.profesional))
  {
    var d := Disponibilidad(newId, req.diaSemana, req.horaInicio, req.horaFin, req.profesional);
    assert StrLt(req.horaInicio, req.horaFin) by {
      assert req.horaInicio[0] == req.horaFin[0] && req.horaInicio[1] < req.horaFin[1];
    }
    assert !Overlaps(req.horaInicio, req.horaFin, stored) by {
      StrLtIrreflexive(stored.horaFin);
    }
    CreateAcceptedIff([stored], req, newId);
  }

  /** A range with the same start and end as a stored one of that day is refused as a duplicate, before the overlap test. */
  lemma DuplicateBeforeOverlap(disps: seq<Disponibilidad>, req: CreateRequest, newId: Id, k: nat)
    requires StrLt(req.horaInicio, req.horaFin)
    requires k < |disps| && disps[k].profesional == req.profesional && disps[k].diaSemana == req.diaSemana
    requires disps[k].horaInicio == req.horaInicio && disps[k].horaFin == req.horaFin
    ensures CreateDecision(disps, req, newId) == Err(Failure(400, MessagePayload(MSG_DUPLICADO)))
  {
    var ex := Existentes(disps, req.profesional, req.diaSemana);
    assert disps[k] in ex;
  }

  /** Only ranges of the same professional and day are compared: the others never cause a refusal. */
  lemma OtherDaysIgnored(disps: seq<Disponibilidad>, other: Disponibilidad, req: CreateRequest, newId: Id)
    requires other.profesional != req.profesional || other.diaSemana != req.diaSemana
    ensures CreateDecision(disps + [other], req, newId) == CreateDecision(disps, req, newId)
  {
    ExistentesSnoc(disps, other, req.profesional, req.diaSemana);
  }

  /** A successful create appends a range that keeps the ranges of every day pairwise disjoint. */
  lemma CreatePreservesDisjoint(disps: seq<Disponibilidad>, req: CreateRequest, newId: Id)
    requires DisjointPerDay(disps)
    requires CreateDecision(disps, req, newId).Ok?
    ensures DisjointPerDay(disps + [CreateDecision(disps, req, newId).value])
  {
    var d := CreateDecision(disps, req, newId).value;
    var ds := disps + [d];
    forall i, j | 0 <= i < |ds| && 0 <= j < |ds| && i != j && SameDay(ds[i], ds[j])
      ensures !RangesOverlap(ds[i], ds[j])
    {
      if j == |disps| {
        assert ds[i] in disps;
        OverlapSymmetric(ds[i], d);
      } else if i == |disps| {
        assert ds[j] in disps;
      }
    }
  }

  /**
   * For zero-padded clock times (`HH:mm` with minutes below 60) the string order
   * is the order of the minute values, so the raw comparison is exact for them.
   */
  lemma ClockStringOrder(a: string, b: string)
    requires IsClock(a) && IsClock(b)
    ensures StrLt(a, b) <==> ClockValue(a) < ClockValue(b)
  {
    var a1, b1 := a[1..], b[1..];
    var a2, b2 := a1[1..], b1[1..];
    var a3, b3 := a2[1..], b2[1..];
    var a4, b4 := a3[1..], b3[1..];
    assert StrLt(a4, b4) <==> a[4] < b[4] by {
      assert a4[1..] == [] && b4[1..] == [];
    }
    assert StrLt(a3, b3) <==> a[3] < b[3] || (a[3] == b[3] && a[4] < b[4]);
    assert StrLt(a2, b2) <==> StrLt(a3, b3);
    assert StrLt(a1, b1) <==> a[1] < b[1] || (a[1] == b[1] && StrLt(a2, b2));
    assert StrLt(a, b) <==> a[0] < b[0] || (a[0] == b[0] && StrLt(a1, b1));
  }

  /** A zero-padded `HH:mm` time with minutes below 60. */
  predicate IsClock(s: string)
  {
    |s| == 5 && IsDigit(s[0]) && IsDigit(s[1]) && s[2] == ':' && '0' <= s[3] <= '5' && IsDigit(s[4])
  }

  /** The minutes since midnight of a clock time. */
  function ClockValue(s: string): int
    requires IsClock(s)
  {
    60 * (10 * DigitValue(s[0]) + DigitValue(s[1])) + 10 * DigitValue(s[3]) + DigitValue(s[4])
  }

  /** The clock value is the `toMinutes` value of the time. */
  lemma ClockValueIsMinutes(s: string)
    requires IsClock(s)
    ensures ToMinutes(s) == Int(ClockValue(s))
  {
    var h, m := s[..2], s[3..];
    assert h == [s[0], s[1]] && m == [s[3], s[4]];
    assert s == h + [':'] + m;
    SplitAt(h, ':', m);
    TwoDigits(s[0], s[1]);
    TwoDigits(s[3], s[4]);
  }

  /** An unpadded `"9:00"`-`"13:00"` range is refused: `"9:00" >= "13:00"` as strings. */
  lemma UnpaddedRangeRefused(disps: seq<Disponibilidad>, dia: string, profesional: Id, newId: Id)
    ensures CreateDecision(disps, CreateRequest(dia, "9" + ":" + "00", "13" + ":" + "00", profesional), newId)
            == Err(Failure(400, MessagePayload(MSG_INICIO_FIN)))
  {
    assert !StrLt("9" + ":" + "00", "13" + ":" + "00") by {
      assert ("9" + ":" + "00")[0] == '9';
      assert ("13" + ":" + "00")[0] == '1';
    }
  }

  /** `getDisponibilidadesPorProfesional`: the professional's ranges, or 404 when there are none. */
  function ListByProfesional(disps: seq<Disponibilidad>, profesional: Id): (r: Result<seq<Disponibilidad>, Failure>)
    ensures r.Ok? ==> |r.value| > 0 && forall i :: 0 <= i < |r.value| ==> r.value[i] in disps && r.value[i].profesional == profesional
    ensures r.Ok? ==> forall i :: 0 <= i < |disps| && disps[i].profesional == profesional ==> disps[i] in r.value
    ensures r.Err? <==> forall i :: 0 <= i < |disps| ==> disps[i].profesional != profesional
    ensures r.Err? ==> r.error == Failure(404, MessagePayload(MSG_SIN_RESULTADOS))
  {
    var found := Filter(disps, (d: Disponibilidad) => d.profesional == profesional);
    if |found| == 0 then
      Err(Failure(404, MessagePayload(MSG_SIN_RESULTADOS)))
    else
      Ok(found)
  }

  /** `findByIdAndUpdate(id, body)`: every field the body sets replaces the stored one; nothing is validated. */
  function ApplyPatch(d: Disponibilidad, p: Patch): (r: Disponibilidad)
    ensures r.id == d.id
    ensures p.horaInicio.Some? ==> r.horaInicio == p.horaInicio.value
    ensures p.horaInicio.None? ==> r.horaInicio == d.horaInicio
    ensures r.diaSemana == if p.diaSemana.Some? then p.diaSemana.value else d.diaSemana
    ensures r.horaFin == if p.horaFin.Some? then p.horaFin.value else d.horaFin
    ensures r.profesional == if p.profesional.Some? then p.profesional.value else d.profesional
  {
    Disponibilidad(d.id, p.diaSemana.GetOr(d.diaSemana), p.horaInicio.GetOr(d.horaInicio),
                   p.horaFin.GetOr(d.horaFin), p.profesional.GetOr(d.profesional))
  }

  /**
   * Update does not keep the ranges disjoint: copying another range of the same
   * day onto a range makes the two overlap.
   */
  lemma UpdateCanBreakDisjoint(ds: seq<Disponibilidad>, i: nat, j: nat)
    requires i < |ds| && j < |ds| && i != j && SameDay(ds[i], ds[j])
    requires StrLt(ds[j].horaInicio, ds[j].horaFin)
    ensures !DisjointPerDay(ds[i := ApplyPatch(ds[i], Patch(None, Some(ds[j].horaInicio), Some(ds[j].horaFin), None))])
  {
    var after := ds[i := ApplyPatch(ds[i], Patch(None, Some(ds[j].horaInicio), Some(ds[j].horaFin), None))];
    assert RangesOverlap(after[i], after[j]);
  }
}
