/**
 * The appointments list (frontend/src/pages/turnosPage.jsx): the state
 * filter, the text search over the professional's and the client's fields,
 * the ascending sort by date and time, and the state badge.
 */
module TurnosPage {
  import opened Wrappers
  import opened JsString
  import opened Ordering
  import opened ListItems

  /** `estadoBadgeClass`. */
  function EstadoBadgeClass(estado: string): (cls: string)
    ensures cls == "badge bg-success" <==> estado == "confirmado"
    ensures cls == "badge bg-danger" <==> estado == "cancelado"
    ensures cls != "badge bg-success" && cls != "badge bg-danger" ==> cls == "badge bg-secondary"
  {
    if estado == "confirmado" then "badge bg-success"
    else if estado == "cancelado" then "badge bg-danger"
    else "badge bg-secondary"
  }

  /** The six texts the search looks in, lower-cased; a missing reference gives empty texts. */
  function SearchFields(t: TurnoItem): (fs: seq<string>)
    ensures |fs| == 6
  {
    var p := if t.profesional.Some? then t.profesional.value else ProfesionalRef("", "", "", "");
    var c := if t.cliente.Some? then t.cliente.value else ClienteRef("", "", "");
    [Lower(p.nombre), Lower(p.especialidad), Lower(p.email), Lower(c.nombre), Lower(c.email), Lower(c.dni)]
  }

  /** The search test: one of the six texts contains the query. */
  predicate Matches(t: TurnoItem, q: string)
  {
    var fs := SearchFields(t);
    Contains(fs[0], q) || Contains(fs[1], q) || Contains(fs[2], q) ||
    Contains(fs[3], q) || Contains(fs[4], q) || Contains(fs[5], q)
  }

  /** The state filter, with a missing state read as `pendiente`. */
  function EstadoIs(estadoFilter: string): TurnoItem -> bool
  {
    t => EstadoOrPendiente(t) == estadoFilter
  }

  function MatchesQuery(q: string): TurnoItem -> bool
  {
    t => Matches(t, q)
  }

  /** Date first (a missing date counts as 0), then the time text. */
  function TurnoKey(t: TurnoItem): Key
  {
    [Num(Timestamp(t.fecha)), Text(t.hora)]
  }

  /** The query the search uses: trimmed and lower-cased. */
  function SearchQuery(query: string): string
  {
    Lower(Trim(query))
  }

  /** `viewTurnos`. */
  function ViewTurnos(turnos: seq<TurnoItem>, estadoFilter: string, query: string): seq<TurnoItem>
  {
    var q := SearchQuery(query);
    var byEstado := if estadoFilter != "" then Filter(turnos, EstadoIs(estadoFilter)) else turnos;
    var bySearch := if q != "" then Filter(byEstado, MatchesQuery(q)) else byEstado;
    SortBy(bySearch, TurnoKey)
  }

  /** The `useMemo` body: `filtered` is narrowed by each filter in turn, then sorted. */
  method ViewTurnosOf(turnos: seq<TurnoItem>, estadoFilter: string, query: string) returns (filtered: seq<TurnoItem>)
    ensures filtered == ViewTurnos(turnos, estadoFilter, query)
  {
    var q := Lower(Trim(query));
    if estadoFilter != "" {
      filtered := Filter(turnos, EstadoIs(estadoFilter));
    } else {
      filtered := turnos;
    }
    if q != "" {
      filtered := Filter(filtered, MatchesQuery(q));
    }
    filtered := SortBy(filtered, TurnoKey);
  }

  /**
   * A turno is listed iff it passes the state filter (a missing state counts
   * as `pendiente`) and, for a non-blank query, one of its six texts contains
   * the query; the list never holds a turno more often than `turnos` does.
   */
  lemma ViewTurnosMember(turnos: seq<TurnoItem>, estadoFilter: string, query: string, t: TurnoItem)
    ensures var q := SearchQuery(query);
            t in ViewTurnos(turnos, estadoFilter, query) <==>
            t in turnos &&
            (estadoFilter == "" || EstadoOrPendiente(t) == estadoFilter) &&
            (q == "" || Matches(t, q))
    ensures multiset(ViewTurnos(turnos, estadoFilter, query)) <= multiset(turnos)
  {
    var q := SearchQuery(query);
    var byEstado := if estadoFilter != "" then Filter(turnos, EstadoIs(estadoFilter)) else turnos;
    var bySearch := if q != "" then Filter(byEstado, MatchesQuery(q)) else byEstado;
    var r := ViewTurnos(turnos, estadoFilter, query);
    if estadoFilter != "" {
      FilterMember(turnos, EstadoIs(estadoFilter), t);
    }
    if q != "" {
      FilterMember(byEstado, MatchesQuery(q), t);
    }
    assert t in r <==> t in multiset(r);
    assert t in bySearch <==> t in multiset(bySearch);
  }

  /** With no state chosen and a blank query, the list is `turnos` reordered. */
  lemma ViewTurnosUnfiltered(turnos: seq<TurnoItem>, query: string)
    requires IsBlank(query)
    ensures multiset(ViewTurnos(turnos, "", query)) == multiset(turnos)
  {
    assert SearchQuery(query) == "";
  }

  /** `a` comes no later than `b`: an earlier date, or the same date and a time not after. */
  predicate NotAfter(a: TurnoItem, b: TurnoItem)
  {
    Timestamp(a.fecha) < Timestamp(b.fecha) ||
    (Timestamp(a.fecha) == Timestamp(b.fecha) && StrLe(a.hora, b.hora))
  }

  /** What the date-then-time key order means for two turnos. */
  lemma TurnoKeyOrder(a: TurnoItem, b: TurnoItem)
    requires KeyLe(TurnoKey(a), TurnoKey(b))
    ensures NotAfter(a, b)
  {
    var x, y := TurnoKey(a), TurnoKey(b);
    KeyLeCons(x, y);
    KeyLeCons(x[1..], y[1..]);
    assert x[1..][1..] == [] && y[1..][1..] == [];
    assert KeyLe(x[1..][1..], y[1..][1..]);
    PartLtTotal(x[1], y[1]);
    if PartLt(y[1], x[1]) {
      PartLtAsymmetric(y[1], x[1]);
    }
  }

  /** The list is sorted by date, and by time text within a date. */
  lemma ViewTurnosSorted(turnos: seq<TurnoItem>, estadoFilter: string, query: string, i: nat, j: nat)
    requires i < j < |ViewTurnos(turnos, estadoFilter, query)|
    ensures var r := ViewTurnos(turnos, estadoFilter, query);
            NotAfter(r[i], r[j])
  {
    var r := ViewTurnos(turnos, estadoFilter, query);
    assert KeyLe(TurnoKey(r[i]), TurnoKey(r[j]));
    TurnoKeyOrder(r[i], r[j]);
  }
}
