/**
 * The database the handlers of backend/controllers/turnoController.js and
 * backend/controllers/disponibilidadController.js read and write, as an
 * in-memory store: the turno and availability collections in insertion order,
 * the ids of the existing clients and professionals, and the next fresh id.
 *
 * Each handler method reads the collections, takes the decision of its
 * controller module and applies it: a create appends the new record, an update
 * replaces the record in place, a refusal changes nothing.
 */
module Backend {
  import opened Wrappers
  import opened TimeUtils
  import opened Models
  import opened FieldErrors
  import TC = TurnoController
  import DC = DisponibilidadController

  /** No two turnos of a professional share a date and a time. */
  ghost predicate SlotUnique(turnos: seq<Turno>)
  {
    forall i, j :: 0 <= i < j < |turnos| && SameSlot(turnos[i], turnos[j]) ==> turnos[i].hora != turnos[j].hora
  }

  /** Same professional, same date. */
  predicate SameSlot(a: Turno, b: Turno)
  {
    a.profesional == b.profesional && a.fecha == b.fecha
  }

  /** Every stored time is a non-empty time in normalised form. */
  ghost predicate Normalised(turnos: seq<Turno>)
  {
    forall i :: 0 <= i < |turnos| ==> IsNormal(turnos[i].hora)
  }

  /** A non-empty time that formatting leaves as it is. */
  predicate IsNormal(h: string)
  {
    h != "" && ToHHmm(h) == h
  }

  /** Every id is below `n`. */
  ghost predicate IdsBelow(turnos: seq<Turno>, n: Id)
  {
    forall i :: 0 <= i < |turnos| ==> turnos[i].id < n
  }

  /** The invariant the turno handlers keep. */
  ghost predicate TurnosOk(turnos: seq<Turno>, nextId: Id)
  {
    IdsBelow(turnos, nextId) && DistinctIds(turnos) && Normalised(turnos) && SlotUnique(turnos)
  }

  /** Appending a turno with the next id keeps the ids distinct and below the new next id. */
  lemma AppendKeepsIds(turnos: seq<Turno>, t: Turno, nextId: Id)
    requires IdsBelow(turnos, nextId) && DistinctIds(turnos) && t.id == nextId
    ensures IdsBelow(turnos + [t], nextId + 1) && DistinctIds(turnos + [t])
  {
  }

  /** Appending a normalised time keeps every time normalised. */
  lemma AppendKeepsNormalised(turnos: seq<Turno>, t: Turno)
    requires Normalised(turnos) && IsNormal(t.hora)
    ensures Normalised(turnos + [t])
  {
    var ts := turnos + [t];
    forall i | 0 <= i < |ts| ensures IsNormal(ts[i].hora) {
      if i < |turnos| {
        assert ts[i] == turnos[i];
      }
    }
  }

  /** Appending a turno in a slot no stored turno holds keeps the slots unique. */
  lemma AppendKeepsSlotUnique(turnos: seq<Turno>, t: Turno)
    requires SlotUnique(turnos)
    requires forall i :: 0 <= i < |turnos| && SameSlot(turnos[i], t) ==> turnos[i].hora != t.hora
    ensures SlotUnique(turnos + [t])
  {
    var ts := turnos + [t];
    forall i, j | 0 <= i < j < |ts| && SameSlot(ts[i], ts[j]) ensures ts[i].hora != ts[j].hora {
      assert ts[i] == turnos[i];
      if j < |turnos| {
        assert ts[j] == turnos[j];
      }
    }
  }

  /** Rewriting a turno in place with its own id keeps the ids distinct and below the next id. */
  lemma ReplaceKeepsIds(turnos: seq<Turno>, k: nat, t: Turno, nextId: Id)
    requires IdsBelow(turnos, nextId) && DistinctIds(turnos)
    requires k < |turnos| && t.id == turnos[k].id
    ensures IdsBelow(turnos[k := t], nextId) && DistinctIds(turnos[k := t])
  {
  }

  /** Rewriting a turno in place with a normalised time keeps every time normalised. */
  lemma ReplaceKeepsNormalised(turnos: seq<Turno>, k: nat, t: Turno)
    requires Normalised(turnos) && k < |turnos| && IsNormal(t.hora)
    ensures Normalised(turnos[k := t])
  {
    var ts := turnos[k := t];
    forall i | 0 <= i < |ts| ensures IsNormal(ts[i].hora) {
      if i != k {
        assert ts[i] == turnos[i];
      }
    }
  }

  /** Rewriting a turno in place into a slot no other turno holds keeps the slots unique. */
  lemma ReplaceKeepsSlotUnique(turnos: seq<Turno>, k: nat, t: Turno)
    requires SlotUnique(turnos) && k < |turnos|
    requires forall i :: 0 <= i < |turnos| && i != k && SameSlot(turnos[i], t) ==> turnos[i].hora != t.hora
    ensures SlotUnique(turnos[k := t])
  {
    var ts := turnos[k := t];
    forall i, j | 0 <= i < j < |ts| && SameSlot(ts[i], ts[j]) ensures ts[i].hora != ts[j].hora {
      if i != k && j != k {
        assert ts[i] == turnos[i] && ts[j] == turnos[j];
      }
    }
  }

  /** An accepted create keeps the turnos normalised, slot-unique and with distinct ids. */
  lemma CreateKeepsTurnosOk(
    turnos: seq<Turno>, disps: seq<Disponibilidad>, clientes: set<Id>, profesionales: set<Id>,
    req: TC.CreateRequest, nextId: Id)
    requires TurnosOk(turnos, nextId)
    requires TC.CreateTurnoDecision(turnos, disps, clientes, profesionales, req, nextId).Ok?
    ensures TurnosOk(turnos + [TC.CreateTurnoDecision(turnos, disps, clientes, profesionales, req, nextId).value], nextId + 1)
  {
    var t := TC.CreateTurnoDecision(turnos, disps, clientes, profesionales, req, nextId).value;
    TC.CreateTurnoAccepted(turnos, disps, clientes, profesionales, req, nextId);
    forall i | 0 <= i < |turnos| && SameSlot(turnos[i], t) ensures turnos[i].hora != t.hora {
      assert !TC.Collides(turnos[i], req.profesional, req.fecha, req.hora);
    }
    AppendKeepsIds(turnos, t, nextId);
    AppendKeepsNormalised(turnos, t);
    AppendKeepsSlotUnique(turnos, t);
  }

  /** An accepted update keeps the turnos normalised, slot-unique and with distinct ids. */
  lemma UpdateKeepsTurnosOk(
    turnos: seq<Turno>, disps: seq<Disponibilidad>, clientes: set<Id>, profesionales: set<Id>,
    id: Id, req: TC.UpdateRequest, nextId: Id)
    requires TurnosOk(turnos, nextId)
    requires TC.UpdateTurnoDecision(turnos, disps, clientes, profesionales, id, req).Ok?
    ensures TC.FindTurno(turnos, id).Some?
    ensures TurnosOk(turnos[TC.FindTurno(turnos, id).value
                       := TC.UpdateTurnoDecision(turnos, disps, clientes, profesionales, id, req).value], nextId)
  {
    var k := TC.FindTurno(turnos, id).value;
    var m := TC.Merged(turnos[k], req);
    var t := TC.UpdateTurnoDecision(turnos, disps, clientes, profesionales, id, req).value;
    TC.UpdateTurnoAccepted(turnos, disps, clientes, profesionales, id, req);
    forall i | 0 <= i < |turnos| && i != k && SameSlot(turnos[i], t) ensures turnos[i].hora != t.hora {
      assert turnos[i].id != id;
      assert !TC.Collides(turnos[i], m.profesional, m.fecha, m.hora);
    }
    ReplaceKeepsIds(turnos, k, t, nextId);
    ReplaceKeepsNormalised(turnos, k, t);
    ReplaceKeepsSlotUnique(turnos, k, t);
  }

  /** Every availability id is below `n`. */
  ghost predicate DispIdsBelow(ds: seq<Disponibilidad>, n: Id)
  {
    forall i :: 0 <= i < |ds| ==> ds[i].id < n
  }

  /** The ids of the availabilities are distinct. */
  ghost predicate DistinctDispIds(ds: seq<Disponibilidad>)
  {
    forall i, j :: 0 <= i < j < |ds| ==> ds[i].id != ds[j].id
  }

  /** The ids of the turnos are distinct. */
  ghost predicate DistinctIds(turnos: seq<Turno>)
  {
    forall i, j :: 0 <= i < j < |turnos| ==> turnos[i].id != turnos[j].id
  }

  class Store {
    var turnos: seq<Turno>
    var disponibilidades: seq<Disponibilidad>
    var clientes: set<Id>
    var profesionales: set<Id>
    var nextId: Id

    /** Ids are distinct and below `nextId`, and the turnos are normalised and never share a slot. */
    ghost predicate Valid()
      reads this
    {
      TurnosOk(turnos, nextId) && DispIdsBelow(disponibilidades, nextId) && DistinctDispIds(disponibilidades)
    }

    /** An empty agenda over the given clients and professionals. */
    constructor(clientes: set<Id>, profesionales: set<Id>)
      ensures Valid()
      ensures turnos == [] && disponibilidades == []
      ensures this.clientes == clientes && this.profesionales == profesionales
    {
      turnos := [];
      disponibilidades := [];
      this.clientes := clientes;
      this.profesionales := profesionales;
      nextId := 0;
    }

    /** `createTurno`: on success the normalised turno is appended under a fresh id. */
    method CreateTurno(req: TC.CreateRequest) returns (r: Result<Turno, Failure>)
      requires Valid()
      modifies this
      ensures Valid()
      ensures r == TC.CreateTurnoDecision(old(turnos), old(disponibilidades), old(clientes), old(profesionales), req, old(nextId))
      ensures r.Ok? ==> turnos == old(turnos) + [r.value] && nextId == old(nextId) + 1
      ensures r.Err? ==> turnos == old(turnos) && nextId == old(nextId)
      ensures disponibilidades == old(disponibilidades) && clientes == old(clientes) && profesionales == old(profesionales)
    {
      r := TC.CreateTurnoDecision(turnos, disponibilidades, clientes, profesionales, req, nextId);
      if r.Ok? {
        CreateKeepsTurnosOk(turnos, disponibilidades, clientes, profesionales, req, nextId);
        turnos := turnos + [r.value];
        nextId := nextId + 1;
        assert TurnosOk(turnos, nextId);
      }
      assert DispIdsBelow(disponibilidades, nextId);
    }

    /** `updateTurno`: on success the turno is rewritten in place, keeping its id and position. */
    method UpdateTurno(id: Id, req: TC.UpdateRequest) returns (r: Result<Turno, Failure>)
      requires Valid()
      modifies this
      ensures Valid()
      ensures r == TC.UpdateTurnoDecision(old(turnos), old(disponibilidades), old(clientes), old(profesionales), id, req)
      ensures r.Ok? ==> TC.FindTurno(old(turnos), id).Some?
                        && turnos == old(turnos)[TC.FindTurno(old(turnos), id).value := r.value]
      ensures r.Err? ==> turnos == old(turnos)
      ensures nextId == old(nextId)
      ensures disponibilidades == old(disponibilidades) && clientes == old(clientes) && profesionales == old(profesionales)
    {
      r := TC.UpdateTurnoDecision(turnos, disponibilidades, clientes, profesionales, id, req);
      if r.Ok? {
        UpdateKeepsTurnosOk(turnos, disponibilidades, clientes, profesionales, id, req, nextId);
        var k := TC.FindTurno(turnos, id).value;
        SetTurnos(turnos[k := r.value]);
      }
    }

    /** Replaces the turno collection by one that keeps the invariant. */
    method SetTurnos(ts: seq<Turno>)
      requires Valid() && TurnosOk(ts, nextId)
      modifies this
      ensures Valid()
      ensures turnos == ts
      ensures nextId == old(nextId) && disponibilidades == old(disponibilidades)
      ensures clientes == old(clientes) && profesionales == old(profesionales)
    {
      turnos := ts;
    }

    /** `createDisponibilidad`: on success the range is appended as sent, under a fresh id. */
    method CreateDisponibilidad(req: DC.CreateRequest) returns (r: Result<Disponibilidad, Failure>)
      requires Valid()
      modifies this
      ensures Valid()
      ensures r == DC.CreateDecision(old(disponibilidades), req, old(nextId))
      ensures r.Ok? ==> disponibilidades == old(disponibilidades) + [r.value] && nextId == old(nextId) + 1
      ensures r.Err? ==> disponibilidades == old(disponibilidades) && nextId == old(nextId)
      ensures old(DC.DisjointPerDay(disponibilidades)) ==> DC.DisjointPerDay(disponibilidades)
      ensures turnos == old(turnos) && clientes == old(clientes) && profesionales == old(profesionales)
    {
      r := DC.CreateDecision(disponibilidades, req, nextId);
      if r.Ok? {
        if DC.DisjointPerDay(disponibilidades) {
          DC.CreatePreservesDisjoint(disponibilidades, req, nextId);
        }
        disponibilidades := disponibilidades + [r.value];
        nextId := nextId + 1;
      }
    }

    /** `updateDisponibilidad`: the record with that id, if any, gets the fields sent; nothing is checked. */
    method UpdateDisponibilidad(id: Id, patch: DC.Patch) returns (r: Option<Disponibilidad>)
      requires Valid()
      modifies this
      ensures Valid()
      ensures r.None? ==> disponibilidades == old(disponibilidades)
                          && forall i :: 0 <= i < |disponibilidades| ==> disponibilidades[i].id != id
      ensures r.Some? ==>
        exists k :: 0 <= k < |old(disponibilidades)| && old(disponibilidades)[k].id == id
          && (forall i :: 0 <= i < |old(disponibilidades)| && i != k ==> old(disponibilidades)[i].id != id)
          && r.value == DC.ApplyPatch(old(disponibilidades)[k], patch)
          && disponibilidades == old(disponibilidades)[k := r.value]
      ensures turnos == old(turnos) && nextId == old(nextId) && clientes == old(clientes) && profesionales == old(profesionales)
    {
      var k := 0;
      while k < |disponibilidades| && disponibilidades[k].id != id
        invariant k <= |disponibilidades|
        invariant forall i :: 0 <= i < k ==> disponibilidades[i].id != id
      {
        k := k + 1;
      }
      if k == |disponibilidades| {
        r := None;
      } else {
        var d := DC.ApplyPatch(disponibilidades[k], patch);
        disponibilidades := disponibilidades[k := d];
        r := Some(d);
      }
    }

    /** `getDisponibilidadesPorProfesional`. */
    method DisponibilidadesPorProfesional(profesional: Id) returns (r: Result<seq<Disponibilidad>, Failure>)
      ensures r == DC.ListByProfesional(disponibilidades, profesional)
    {
      r := DC.ListByProfesional(disponibilidades, profesional);
    }
  }
}
