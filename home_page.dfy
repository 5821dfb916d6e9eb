/**
 * The home page (frontend/src/pages/HomePage.jsx): the counts by state and
 * the five latest turnos, newest first.
 */
module HomePage {
  import opened Wrappers
  import opened Ordering
  import opened ListItems
  import TurnosPage

  /** `badgeForEstado`: the same classes the appointments list uses. */
  function BadgeForEstado(estado: string): (cls: string)
    ensures cls == TurnosPage.EstadoBadgeClass(estado)
  {
    if estado == "confirmado" then "badge bg-success"
    else if estado == "cancelado" then "badge bg-danger"
    else "badge bg-secondary"
  }

  // ---------------------------------------------------------------------------
  // Stats

  /** A missing state counts as pending. */
  function IsPendiente(t: TurnoItem): bool
  {
    EstadoOrPendiente(t) == "pendiente"
  }

  function IsConfirmado(t: TurnoItem): bool
  {
    t.estado == "confirmado"
  }

  function IsCancelado(t: TurnoItem): bool
  {
    t.estado == "cancelado"
  }

  /** A state none of the three counters counts. */
  function IsOtro(t: TurnoItem): bool
  {
    !IsPendiente(t) && !IsConfirmado(t) && !IsCancelado(t)
  }

  datatype Stats = Stats(total: nat, pendientes: nat, confirmados: nat, cancelados: nat)

  /** `stats`. */
  function StatsOf(turnos: seq<TurnoItem>): Stats
  {
    Stats(|turnos|, Count(turnos, IsPendiente), Count(turnos, IsConfirmado), Count(turnos, IsCancelado))
  }

  /** Appending a turno adds one to a count exactly when the turno passes its test. */
  lemma CountSnoc(s: seq<TurnoItem>, t: TurnoItem, p: TurnoItem -> bool)
    ensures Count(s + [t], p) == Count(s, p) + if p(t) then 1 else 0
  {
    FilterSnoc(s, t, p);
  }

  /** Every turno falls under exactly one of the three counters or under none. */
  lemma {:induction false} CountsPartition(turnos: seq<TurnoItem>)
    ensures Count(turnos, IsPendiente) + Count(turnos, IsConfirmado) + Count(turnos, IsCancelado) +
            Count(turnos, IsOtro) == |turnos|
  {
    if |turnos| > 0 {
      CountsPartition(turnos[..|turnos| - 1]);
      CountsStep(turnos);
    }
  }

  /** Dropping the last turno takes one off exactly one of the four counts. */
  lemma CountsStep(s: seq<TurnoItem>)
    requires |s| > 0
    ensures var init := s[..|s| - 1];
            Count(s, IsPendiente) + Count(s, IsConfirmado) + Count(s, IsCancelado) + Count(s, IsOtro) ==
            Count(init, IsPendiente) + Count(init, IsConfirmado) + Count(init, IsCancelado) + Count(init, IsOtro) + 1
  {
    var init, t := s[..|s| - 1], s[|s| - 1];
    assert s == init + [t];
    CountSnoc(init, t, IsPendiente);
    CountSnoc(init, t, IsConfirmado);
    CountSnoc(init, t, IsCancelado);
    CountSnoc(init, t, IsOtro);
  }

  /**
   * The three counters never add up to more than the total, and add up to
   * exactly the total when every state is empty, pending, confirmed or
   * cancelled.
   */
  lemma StatsSum(turnos: seq<TurnoItem>)
    ensures var st := StatsOf(turnos);
            st.pendientes + st.confirmados + st.cancelados <= st.total
    ensures (forall i :: 0 <= i < |turnos| ==> turnos[i].estado in ["", "pendiente", "confirmado", "cancelado"]) ==>
            var st := StatsOf(turnos);
            st.pendientes + st.confirmados + st.cancelados == st.total
  {
    CountsPartition(turnos);
    if forall i :: 0 <= i < |turnos| ==> turnos[i].estado in ["", "pendiente", "confirmado", "cancelado"] {
      FilterNone(turnos, IsOtro);
    }
  }

  // ---------------------------------------------------------------------------
  // Latest turnos

  /** Date descending (a missing date counts as 0), then time text descending. */
  function RecentKey(t: TurnoItem): Key
  {
    [Num(-Timestamp(t.fecha)), TextDesc(t.hora)]
  }

  /** `a` comes no earlier than `b`: a later date, or the same date and a time not before. */
  predicate NotBefore(a: TurnoItem, b: TurnoItem)
  {
    Timestamp(a.fecha) > Timestamp(b.fecha) ||
    (Timestamp(a.fecha) == Timestamp(b.fecha) && StrLe(b.hora, a.hora))
  }

  /** `ultimos`: a copy sorted newest first, then `slice(0, 5)`. */
  function Ultimos(turnos: seq<TurnoItem>): seq<TurnoItem>
  {
    var sorted := SortBy(turnos, RecentKey);
    if |sorted| <= 5 then sorted else sorted[..5]
  }

  /** What the newest-first key order means for two turnos. */
  lemma RecentKeyOrder(a: TurnoItem, b: TurnoItem)
    requires KeyLe(RecentKey(a), RecentKey(b))
    ensures NotBefore(a, b)
  {
    var x, y := RecentKey(a), RecentKey(b);
    KeyLeCons(x, y);
    KeyLeCons(x[1..], y[1..]);
    assert x[1..][1..] == [] && y[1..][1..] == [];
    assert KeyLe(x[1..][1..], y[1..][1..]);
    PartLtTotal(x[1], y[1]);
    if PartLt(y[1], x[1]) {
      PartLtAsymmetric(y[1], x[1]);
    }
  }

  /** At most five turnos, all taken from the list, newest first. */
  lemma UltimosSpec(turnos: seq<TurnoItem>, i: nat, j: nat)
    ensures |Ultimos(turnos)| == if |turnos| <= 5 then |turnos| else 5
    ensures multiset(Ultimos(turnos)) <= multiset(turnos)
    ensures i < j < |Ultimos(turnos)| ==> NotBefore(Ultimos(turnos)[i], Ultimos(turnos)[j])
  {
    var sorted := SortBy(turnos, RecentKey);
    var r := Ultimos(turnos);
    if |sorted| > 5 {
      assert sorted == r + sorted[5..];
    }
    if i < j < |r| {
      assert r[i] == sorted[i] && r[j] == sorted[j];
      RecentKeyOrder(r[i], r[j]);
    }
  }

  /** A turno left out of the five is no newer than any of them. */
  lemma UltimosLatest(turnos: seq<TurnoItem>, t: TurnoItem, i: nat)
    requires t in turnos && t !in Ultimos(turnos) && i < |Ultimos(turnos)|
    ensures NotBefore(Ultimos(turnos)[i], t)
  {
    var sorted := SortBy(turnos, RecentKey);
    var r := Ultimos(turnos);
    SortByMembers(turnos, RecentKey);
    var k :| 0 <= k < |sorted| && sorted[k] == t;
    assert k >= 5;
    assert r[i] == sorted[i];
    RecentKeyOrder(sorted[i], sorted[k]);
  }
}
