/**
 * The availability modal (frontend/src/components/DisponibilidadQuickView.jsx):
 * a professional's ranges grouped by their raw day name, the days in week
 * order, and each day's ranges by ascending start.
 *
 * The request is a parameter of the effect: `None` when it failed,
 * `Some(data)` with the body otherwise, where `data` is `None` when the body
 * is not an array.
 */
module DisponibilidadQuickView {
  import opened Wrappers
  import opened Ordering
  import opened JsString
  import opened Models
  import opened ScheduleUtils
  import opened Grouping

  const LOAD_ERROR: string := "No se pudo cargar la disponibilidad."

  /** `list.indexOf(x)`: the first position of `x`, or -1. */
  function IndexIn(list: seq<string>, x: string): (r: int)
    ensures -1 <= r < |list|
    ensures r == -1 <==> x !in list
    ensures r >= 0 ==> list[r] == x && forall j :: 0 <= j < r ==> list[j] != x
  {
    if |list| == 0 then -1
    else if list[0] == x then 0
    else
      var rest := IndexIn(list[1..], x);
      if rest == -1 then -1 else rest + 1
  }

  /** `idxDia`: the position of the lower-cased day in week order, -1 for an unknown day. */
  function IdxDia(d: string): (r: int)
    ensures -1 <= r < 7
    ensures r == -1 <==> Lower(d) !in DIAS_ORDEN
    ensures r >= 0 ==> DIAS_ORDEN[r] == Lower(d)
  {
    IndexIn(DIAS_ORDEN, Lower(d))
  }

  /** The case of the day name does not change its position. */
  lemma IdxDiaIgnoresCase(d: string)
    ensures IdxDia(Lower(d)) == IdxDia(d)
  {
    LowerIdempotent(d);
  }

  /** A text `toLowerCase` leaves unchanged. */
  predicate IsLowerText(s: string)
  {
    forall i :: 0 <= i < |s| ==> LowerChar(s[i]) == s[i]
  }

  lemma LowerOfLowerText(s: string)
    requires IsLowerText(s)
    ensures Lower(s) == s
  {
  }

  /** The canonical names are lower-case, so each one sits at its own position. */
  lemma IdxDiaCanonical(i: nat)
    requires i < 7
    ensures IdxDia(DIAS_ORDEN[i]) == i
  {
    DiasOrden();
    var d := DIAS_ORDEN[i];
    assert Lower(d) == d by {
      DiasOrdenLower(i);
      LowerOfLowerText(d);
    }
    var r := IdxDia(d);
    assert r >= 0 && DIAS_ORDEN[r] == d;
  }

  /** Each name of the week is already lower case. */
  lemma DiasOrdenLower(i: nat)
    requires i < 7
    ensures IsLowerText(DIAS_ORDEN[i])
  {
    DiasOrden();
  }

  /** The key a range is filed under: its day as stored. */
  function RawDay(d: Disponibilidad): string
  {
    d.diaSemana
  }

  /** The key the days are sorted by: the day's position in week order. */
  function DayOrderKey(g: Group<Disponibilidad>): Key
  {
    [Num(IdxDia(g.key))]
  }

  /** `agruparYOrdenar(items)`. */
  function AgruparYOrdenar(items: seq<Disponibilidad>): seq<Group<Disponibilidad>>
  {
    SortedGroups(SortBy(Grouped(items, RawDay), DayOrderKey), StartKey)
  }

  /** The `reduce` filling the map, the sort of its keys, and the sort of each day's list. */
  method AgruparYOrdenarOf(items: seq<Disponibilidad>) returns (dias: seq<Group<Disponibilidad>>)
    ensures dias == AgruparYOrdenar(items)
  {
    var groups := GroupBy(items, RawDay);
    var keys := SortBy(groups, DayOrderKey);
    dias := SortEach(keys, StartKey);
  }

  /** The days come in week order; unknown days (position -1) come first. */
  lemma AgruparOrder(items: seq<Disponibilidad>)
    ensures var r := AgruparYOrdenar(items);
            forall i, j :: 0 <= i < j < |r| ==> IdxDia(r[i].key) <= IdxDia(r[j].key)
  {
    var s := SortBy(Grouped(items, RawDay), DayOrderKey);
    var r := AgruparYOrdenar(items);
    forall i, j | 0 <= i < j < |r| ensures IdxDia(r[i].key) <= IdxDia(r[j].key) {
      assert KeyLe(DayOrderKey(s[i]), DayOrderKey(s[j]));
      NumKeyOrder(IdxDia(s[i].key), IdxDia(s[j].key));
    }
  }

  /**
   * Each day appears once, is not empty, holds exactly the ranges stored
   * under that day name (as a multiset), and lists them by ascending start.
   */
  lemma AgruparSpec(items: seq<Disponibilidad>, i: nat)
    requires i < |AgruparYOrdenar(items)|
    ensures var r := AgruparYOrdenar(items);
            (forall j :: 0 <= j < |r| && j != i ==> r[j].key != r[i].key) &&
            |r[i].items| > 0 &&
            multiset(r[i].items) == multiset(Filter(items, KeyIs(RawDay, r[i].key))) &&
            forall a, b :: 0 <= a < b < |r[i].items| ==> StrLe(r[i].items[a].horaInicio, r[i].items[b].horaInicio)
  {
    var gs := Grouped(items, RawDay);
    var s := SortBy(gs, DayOrderKey);
    var r := AgruparYOrdenar(items);
    AgruparKeysDistinct(items);
    assert s[i] in multiset(gs);
    var k :| 0 <= k < |gs| && gs[k] == s[i];
    GroupedNonEmpty(items, RawDay, k);
    GroupedFilter(items, RawDay, k);
    SortedByStart(r[i].items);
  }

  /** No day is listed twice. */
  lemma AgruparKeysDistinct(items: seq<Disponibilidad>)
    ensures DistinctKeys(AgruparYOrdenar(items))
  {
    var gs := Grouped(items, RawDay);
    var s := SortBy(gs, DayOrderKey);
    var r := AgruparYOrdenar(items);
    GroupedDistinct(items, RawDay);
    PermutedGroups(gs, s);
    forall i, j | 0 <= i < j < |r| ensures r[i].key != r[j].key {
      assert r[i].key == s[i].key && r[j].key == s[j].key;
    }
  }

  /** Every range is listed under its own day name and under no other. */
  lemma AgruparMember(items: seq<Disponibilidad>, x: Disponibilidad, i: nat)
    requires x in items && i < |AgruparYOrdenar(items)|
    ensures var r := AgruparYOrdenar(items);
            x in r[i].items <==> r[i].key == x.diaSemana
  {
    var gs := Grouped(items, RawDay);
    var s := SortBy(gs, DayOrderKey);
    var r := AgruparYOrdenar(items);
    assert s[i] in multiset(gs);
    var k :| 0 <= k < |gs| && gs[k] == s[i];
    GroupedMember(items, RawDay, x);
    SortByMembers(s[i].items, StartKey);
  }

  /** There is a day for each day name some range has, and for no other. */
  lemma AgruparDays(items: seq<Disponibilidad>, day: string)
    ensures var r := AgruparYOrdenar(items);
            (exists i :: 0 <= i < |r| && r[i].key == day) <==> exists j :: 0 <= j < |items| && items[j].diaSemana == day
  {
    var gs := Grouped(items, RawDay);
    var s := SortBy(gs, DayOrderKey);
    var r := AgruparYOrdenar(items);
    GroupedKeys(items, RawDay, day);
    PermutedKeys(gs, s, day);
    if exists i :: 0 <= i < |r| && r[i].key == day {
      var i :| 0 <= i < |r| && r[i].key == day;
      assert s[i].key == day;
    }
    if exists i :: 0 <= i < |s| && s[i].key == day {
      var i :| 0 <= i < |s| && s[i].key == day;
      assert r[i].key == day;
    }
  }

  /** The modal's state. */
  class QuickView {
    var loading: bool
    var error: string
    var items: seq<Disponibilidad>

    constructor ()
      ensures !loading && error == "" && items == []
    {
      loading := false;
      error := "";
      items := [];
    }

    /**
     * The effect: nothing happens while the modal is closed or no
     * professional is chosen; otherwise the list is the body when it is an
     * array and empty when it is not, and a failed request empties the list
     * and sets the error.
     */
    method Fetch(isOpen: bool, profesionalId: string, response: Option<Option<seq<Disponibilidad>>>)
      modifies this
      ensures !isOpen || profesionalId == "" ==> items == old(items) && error == old(error) && loading == old(loading)
      ensures isOpen && profesionalId != "" && response.None? ==> items == [] && error == LOAD_ERROR && !loading
      ensures isOpen && profesionalId != "" && response.Some? ==>
                items == response.value.GetOr([]) && error == "" && !loading
    {
      if !isOpen || profesionalId == "" {
        return;
      }
      loading := true;
      error := "";
      if response.None? {
        error := LOAD_ERROR;
        items := [];
      } else {
        items := response.value.GetOr([]);
      }
      loading := false;
    }

    /** The "no ranges" notice. */
    predicate ShowsEmptyNotice(profesionalId: string)
      reads this
    {
      !loading && error == "" && profesionalId != "" && |items| == 0
    }

    /** The list of days. */
    predicate ShowsList()
      reads this
    {
      !loading && error == "" && |AgruparYOrdenar(items)| > 0
    }
  }

  /** There are days exactly when there are ranges. */
  lemma AgruparEmpty(items: seq<Disponibilidad>)
    ensures |AgruparYOrdenar(items)| == 0 <==> |items| == 0
  {
    if |items| > 0 {
      AgruparDays(items, items[0].diaSemana);
    }
  }

  /**
   * With a professional chosen, once loading ends without an error the modal
   * shows either the notice or the list, never both and never neither.
   */
  lemma NoticeOrList(v: QuickView, profesionalId: string)
    requires profesionalId != "" && !v.loading && v.error == ""
    ensures v.ShowsEmptyNotice(profesionalId) != v.ShowsList()
  {
    AgruparEmpty(v.items);
  }
}
