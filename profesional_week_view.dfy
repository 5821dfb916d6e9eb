/**
 * The week view of one professional's availability
 * (frontend/src/components/ProfesionalWeekView.jsx): one entry per day of
 * the week, Monday first, each with that day's ranges by ascending start.
 */
module ProfesionalWeekView {
  import opened Ordering
  import opened JsString
  import opened Models
  import opened ScheduleUtils
  import opened Grouping

  /** The key a range is filed under: its day, lower-cased. */
  function WeekKey(d: Disponibilidad): string
  {
    Lower(d.diaSemana)
  }

  /** One entry per name in `days`: the ranges filed under it, sorted by start. */
  function DayEntries(groups: seq<Group<Disponibilidad>>, days: seq<string>): (r: seq<Group<Disponibilidad>>)
    ensures |r| == |days|
    ensures forall i :: 0 <= i < |days| ==> r[i].key == days[i] && r[i].items == SortBy(Lookup(groups, days[i]), StartKey)
  {
    if |days| == 0 then []
    else DayEntries(groups, days[..|days| - 1]) + [Group(days[|days| - 1], SortBy(Lookup(groups, days[|days| - 1]), StartKey))]
  }

  /** Adding the next day to the prefix appends that day's entry. */
  lemma DayEntriesStep(groups: seq<Group<Disponibilidad>>, days: seq<string>, i: nat)
    requires i < |days|
    ensures DayEntries(groups, days[..i + 1]) ==
            DayEntries(groups, days[..i]) + [Group(days[i], SortBy(Lookup(groups, days[i]), StartKey))]
  {
    assert days[..i + 1][..i] == days[..i];
  }

  /** `dias`: the seven days in order, each with its sorted ranges. */
  function WeekView(items: seq<Disponibilidad>): seq<Group<Disponibilidad>>
  {
    DayEntries(Grouped(items, WeekKey), DIAS_ORDEN)
  }

  /** The `reduce` filling the map, then `DIAS_ORDEN.map` sorting each day's list. */
  method WeekViewOf(items: seq<Disponibilidad>) returns (dias: seq<Group<Disponibilidad>>)
    ensures dias == WeekView(items)
  {
    var groups := GroupBy(items, WeekKey);
    dias := [];
    for i := 0 to |DIAS_ORDEN|
      invariant dias == DayEntries(groups, DIAS_ORDEN[..i])
    {
      DayEntriesStep(groups, DIAS_ORDEN, i);
      var d := DIAS_ORDEN[i];
      dias := dias + [Group(d, SortBy(Lookup(groups, d), StartKey))];
    }
    assert DIAS_ORDEN[..|DIAS_ORDEN|] == DIAS_ORDEN;
  }

  /**
   * Seven entries, Monday first; entry `i` holds exactly the ranges whose
   * lower-cased day is the `i`-th day (as a multiset), by ascending start.
   */
  lemma WeekViewSpec(items: seq<Disponibilidad>, i: nat)
    requires i < 7
    ensures var w := WeekView(items);
            |w| == 7 && w[i].key == DIAS_ORDEN[i] &&
            multiset(w[i].items) == multiset(Filter(items, KeyIs(WeekKey, DIAS_ORDEN[i]))) &&
            forall a, b :: 0 <= a < b < |w[i].items| ==> StrLe(w[i].items[a].horaInicio, w[i].items[b].horaInicio)
  {
    var w := WeekView(items);
    LookupGrouped(items, WeekKey, DIAS_ORDEN[i]);
    SortedByStart(w[i].items);
  }

  /**
   * A range shows under a day iff its lower-cased day is that day, so it
   * shows at most once, and a range with an unknown day shows nowhere.
   */
  lemma WeekViewMember(items: seq<Disponibilidad>, x: Disponibilidad, i: nat)
    requires x in items && i < 7
    ensures x in WeekView(items)[i].items <==> WeekKey(x) == DIAS_ORDEN[i]
  {
    var w := WeekView(items);
    var p := KeyIs(WeekKey, DIAS_ORDEN[i]);
    WeekViewSpec(items, i);
    var f := Filter(items, p);
    assert x in w[i].items <==> x in multiset(w[i].items);
    assert x in f <==> x in multiset(f);
    if x in f {
      var m :| 0 <= m < |f| && f[m] == x;
      assert p(f[m]);
    }
  }

  /** The badge of a day: how many ranges it has, green when there is any. */
  datatype Badge = Badge(count: nat, cls: string)

  function DayBadge(g: Group<Disponibilidad>): (b: Badge)
    ensures b.count == |g.items|
    ensures b.cls == "bg-success" <==> |g.items| > 0
    ensures b.cls == "bg-success" || b.cls == "bg-secondary"
  {
    Badge(|g.items|, if |g.items| > 0 then "bg-success" else "bg-secondary")
  }

  /** The badge of day `i` counts the ranges whose lower-cased day is that day. */
  lemma BadgeCounts(items: seq<Disponibilidad>, i: nat)
    requires i < 7
    ensures DayBadge(WeekView(items)[i]).count == Count(items, KeyIs(WeekKey, DIAS_ORDEN[i]))
  {
    WeekViewSpec(items, i);
    var w := WeekView(items);
    assert |w[i].items| == |multiset(w[i].items)|;
  }
}
