/**
 * The availability hook (frontend/src/hooks/useDisponibilidad.js): the
 * fetched ranges with their times formatted, the ranges grouped by normalised
 * day and sorted by start, and the set of days that have ranges.
 *
 * The request is a parameter: `None` when it failed, `Some(data)` with the
 * body otherwise, where `data` is `None` when the body is not an array.
 */
module UseDisponibilidad {
  import opened Wrappers
  import opened Ordering
  import opened TimeUtils
  import opened Models
  import opened ScheduleUtils
  import opened Grouping

  const LOAD_ERROR: string := "No se pudo cargar la disponibilidad"

  /** One fetched range with both times through `toHHmm`; the other fields are kept. */
  function NormalizeTimes(d: Disponibilidad): Disponibilidad
  {
    d.(horaInicio := ToHHmm(d.horaInicio), horaFin := ToHHmm(d.horaFin))
  }

  /** `(Array.isArray(data) ? data : []).map(...)`. */
  function NormalizeItems(data: Option<seq<Disponibilidad>>): (r: seq<Disponibilidad>)
    ensures data.None? ==> r == []
    ensures data.Some? ==> |r| == |data.value|
    ensures data.Some? ==> forall i :: 0 <= i < |r| ==> r[i] == NormalizeTimes(data.value[i])
  {
    if data.None? then [] else NormalizeAll(data.value)
  }

  function NormalizeAll(ds: seq<Disponibilidad>): (r: seq<Disponibilidad>)
    ensures |r| == |ds|
    ensures forall i :: 0 <= i < |r| ==> r[i] == NormalizeTimes(ds[i])
  {
    if |ds| == 0 then [] else NormalizeAll(ds[..|ds| - 1]) + [NormalizeTimes(ds[|ds| - 1])]
  }

  /**
   * Every stored time is already in `HH:mm` form (formatting it again changes
   * nothing) and stands for the same minute as the fetched time.
   */
  lemma NormalizeItemsFormatted(data: Option<seq<Disponibilidad>>, i: nat)
    requires i < |NormalizeItems(data)|
    ensures var d := NormalizeItems(data)[i];
            ToHHmm(d.horaInicio) == d.horaInicio && ToHHmm(d.horaFin) == d.horaFin &&
            Minutes(d.horaInicio) == Minutes(data.value[i].horaInicio) &&
            Minutes(d.horaFin) == Minutes(data.value[i].horaFin) &&
            d.diaSemana == data.value[i].diaSemana && d.id == data.value[i].id
  {
    ToHHmmIdempotent(data.value[i].horaInicio);
    ToHHmmIdempotent(data.value[i].horaFin);
  }

  /** The hook's state. */
  class DisponibilidadHook {
    var items: seq<Disponibilidad>
    var loading: bool
    var error: string

    constructor ()
      ensures items == [] && !loading && error == ""
    {
      items := [];
      loading := false;
      error := "";
    }

    /**
     * The effect run for `profesionalId`: without an id it clears the list and
     * the error; otherwise it stores the formatted ranges, or on failure an
     * empty list and an error message.
     */
    method Run(profesionalId: string, response: Option<Option<seq<Disponibilidad>>>)
      modifies this
      ensures profesionalId == "" ==> items == [] && error == "" && loading == old(loading)
      ensures profesionalId != "" && response.None? ==> items == [] && error == LOAD_ERROR && !loading
      ensures profesionalId != "" && response.Some? ==> items == NormalizeItems(response.value) && error == "" && !loading
      ensures profesionalId != "" && response.None? ==> error != ""
    {
      if profesionalId == "" {
        items := [];
        error := "";
        return;
      }
      loading := true;
      error := "";
      if response.None? {
        error := LOAD_ERROR;
        items := [];
      } else {
        items := NormalizeItems(response.value);
      }
      loading := false;
    }
  }

  /** The `byDay` key of a range: its normalised day. */
  function DayKey(d: Disponibilidad): string
  {
    NormalizeDia(d.diaSemana)
  }

  /** `byDay`: the ranges grouped by normalised day, each list sorted by start. */
  function ByDay(items: seq<Disponibilidad>): seq<Group<Disponibilidad>>
  {
    SortedGroups(Grouped(items, DayKey), StartKey)
  }

  /** The `forEach` that fills the map, then the `forEach` that sorts each list. */
  method ByDayOf(items: seq<Disponibilidad>) returns (byDay: seq<Group<Disponibilidad>>)
    ensures byDay == ByDay(items)
  {
    var groups := GroupBy(items, DayKey);
    byDay := SortEach(groups, StartKey);
  }

  /**
   * Each entry of `byDay` is keyed by a normalised day no other entry has,
   * holds exactly the ranges of that day (as a multiset), and lists them by
   * ascending start.
   */
  lemma ByDaySpec(items: seq<Disponibilidad>, i: nat)
    requires i < |ByDay(items)|
    ensures var e := ByDay(items)[i];
            (forall j :: 0 <= j < |ByDay(items)| && j != i ==> ByDay(items)[j].key != e.key) &&
            |e.items| > 0 &&
            multiset(e.items) == multiset(Filter(items, KeyIs(DayKey, e.key))) &&
            forall a, b :: 0 <= a < b < |e.items| ==> StrLe(e.items[a].horaInicio, e.items[b].horaInicio)
  {
    var gs := Grouped(items, DayKey);
    GroupedDistinct(items, DayKey);
    GroupedNonEmpty(items, DayKey, i);
    GroupedFilter(items, DayKey, i);
    var e := ByDay(items)[i];
    assert e.key == gs[i].key && e.items == SortBy(gs[i].items, StartKey);
    SortedByStart(e.items);
    forall j | 0 <= j < |ByDay(items)| && j != i ensures ByDay(items)[j].key != e.key {
      assert ByDay(items)[j].key == gs[j].key;
      if j < i {
        assert gs[j].key != gs[i].key;
      } else {
        assert gs[i].key != gs[j].key;
      }
    }
  }

  /** Every range is listed under its normalised day and under no other. */
  lemma ByDayMember(items: seq<Disponibilidad>, x: Disponibilidad, i: nat)
    requires x in items && i < |ByDay(items)|
    ensures x in ByDay(items)[i].items <==> ByDay(items)[i].key == DayKey(x)
    ensures exists j :: 0 <= j < |ByDay(items)| && ByDay(items)[j].key == DayKey(x)
  {
    var gs := Grouped(items, DayKey);
    GroupedMember(items, DayKey, x);
    var s := ByDay(items)[i].items;
    assert x in s <==> x in multiset(s);
    assert x in gs[i].items <==> x in multiset(gs[i].items);
    var j := IndexOfKey(gs, DayKey(x)).value;
    assert ByDay(items)[j].key == DayKey(x);
  }

  /** `availableDaysSet`: the keys of `byDay`. */
  function AvailableDays(byDay: seq<Group<Disponibilidad>>): set<string>
  {
    set i | 0 <= i < |byDay| :: byDay[i].key
  }

  /** A day is available iff some range is on it once normalised. */
  lemma AvailableDaysSpec(items: seq<Disponibilidad>, day: string)
    ensures day in AvailableDays(ByDay(items)) <==> exists j :: 0 <= j < |items| && DayKey(items[j]) == day
  {
    var gs := Grouped(items, DayKey);
    GroupedKeys(items, DayKey, day);
    if day in AvailableDays(ByDay(items)) {
      var i :| 0 <= i < |ByDay(items)| && ByDay(items)[i].key == day;
      assert gs[i].key == day;
    }
    if IndexOfKey(gs, day).Some? {
      var i := IndexOfKey(gs, day).value;
      assert ByDay(items)[i].key == day;
    }
  }
}
