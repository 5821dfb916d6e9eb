/**
 * The availability list (frontend/src/pages/DisponibilidadesPage.jsx): the
 * text search, the day filter, the flat list kept together by professional,
 * and the professional mode (the professionals the search matched, the
 * automatic choice of a single one, and the chosen one's ranges).
 */
module DisponibilidadesPage {
  import opened Wrappers
  import opened JsString
  import opened Ordering
  import opened SearchUtils
  import opened ListItems
  import DisponibilidadQuickView

  // ---------------------------------------------------------------------------
  // 1) Text search

  /** The texts the search looks in; a missing professional gives missing texts. */
  function TextFields(d: DisponibilidadItem): (fs: seq<Option<string>>)
    ensures |fs| == 6
  {
    var p := d.profesional;
    [Some(d.diaSemana), Some(d.horaInicio), Some(d.horaFin),
     if p.Some? then Some(p.value.nombre) else None,
     if p.Some? then Some(p.value.especialidad) else None,
     if p.Some? then Some(p.value.email) else None]
  }

  function MatchesText(q: string): DisponibilidadItem -> bool
  {
    (d: DisponibilidadItem) => IncludesSome(Some(q), TextFields(d))
  }

  /** `filteredByText`: everything for a blank query, else the ranges `includesSome` matches. */
  function FilteredByText(items: seq<DisponibilidadItem>, query: string): seq<DisponibilidadItem>
  {
    var q := Trim(query);
    if q == "" then items else Filter(items, MatchesText(q))
  }

  /**
   * A blank query keeps the list as it is; otherwise a range is kept iff
   * one of its six texts matches the trimmed query, and nothing is added.
   */
  lemma FilteredByTextMember(items: seq<DisponibilidadItem>, query: string, x: DisponibilidadItem)
    ensures IsBlank(query) ==> FilteredByText(items, query) == items
    ensures x in FilteredByText(items, query) <==>
            x in items && (IsBlank(query) || IncludesSome(Some(Trim(query)), TextFields(x)))
    ensures multiset(FilteredByText(items, query)) <= multiset(items)
  {
    if !IsBlank(query) {
      FilterMember(items, MatchesText(Trim(query)), x);
    }
  }

  // ---------------------------------------------------------------------------
  // 2) Day filter

  function DayIs(day: string): DisponibilidadItem -> bool
  {
    (d: DisponibilidadItem) => Lower(d.diaSemana) == Lower(day)
  }

  /** `filtered`: the day filter, which the professional mode does not apply. */
  function Filtered(fbt: seq<DisponibilidadItem>, dayFilter: string, focusMode: bool): seq<DisponibilidadItem>
  {
    if dayFilter == "" || focusMode then fbt else Filter(fbt, DayIs(dayFilter))
  }

  /**
   * With a day chosen and outside the professional mode, a range is kept iff
   * its day equals the chosen one ignoring case; otherwise all are kept.
   */
  lemma FilteredMember(fbt: seq<DisponibilidadItem>, dayFilter: string, focusMode: bool, x: DisponibilidadItem)
    ensures x in Filtered(fbt, dayFilter, focusMode) <==>
            x in fbt && (dayFilter == "" || focusMode || Lower(x.diaSemana) == Lower(dayFilter))
    ensures multiset(Filtered(fbt, dayFilter, focusMode)) <= multiset(fbt)
  {
    if !(dayFilter == "" || focusMode) {
      FilterMember(fbt, DayIs(dayFilter), x);
    }
  }

  // ---------------------------------------------------------------------------
  // 3) The flat list: professional, then day of the week, then start

  function ProfName(d: DisponibilidadItem): string
  {
    if d.profesional.Some? then d.profesional.value.nombre else ""
  }

  function ViewKey(d: DisponibilidadItem): Key
  {
    [Text(ProfName(d)), Num(DisponibilidadQuickView.IdxDia(d.diaSemana)), Text(d.horaInicio)]
  }

  /** `view`: a sorted copy of `filtered`. */
  function View(filtered: seq<DisponibilidadItem>): seq<DisponibilidadItem>
  {
    SortBy(filtered, ViewKey)
  }

  /**
   * The flat list holds the same ranges as `filtered`, ordered by the
   * professional's name, then by the day's place in the week (an unknown day
   * first), then by start.
   */
  lemma ViewOrder(filtered: seq<DisponibilidadItem>, i: nat, j: nat)
    requires i < j < |View(filtered)|
    ensures multiset(View(filtered)) == multiset(filtered)
    ensures var r := View(filtered);
            var da, db := DisponibilidadQuickView.IdxDia(r[i].diaSemana), DisponibilidadQuickView.IdxDia(r[j].diaSemana);
            StrLt(ProfName(r[i]), ProfName(r[j])) ||
            (ProfName(r[i]) == ProfName(r[j]) && (da < db || (da == db && StrLe(r[i].horaInicio, r[j].horaInicio))))
  {
    var r := View(filtered);
    assert KeyLe(ViewKey(r[i]), ViewKey(r[j]));
    ViewKeyOrder(r[i], r[j]);
  }

  /** What the name, day, start key order means for two availabilities. */
  lemma ViewKeyOrder(x: DisponibilidadItem, y: DisponibilidadItem)
    requires KeyLe(ViewKey(x), ViewKey(y))
    ensures var dx, dy := DisponibilidadQuickView.IdxDia(x.diaSemana), DisponibilidadQuickView.IdxDia(y.diaSemana);
            StrLt(ProfName(x), ProfName(y)) ||
            (ProfName(x) == ProfName(y) && (dx < dy || (dx == dy && StrLe(x.horaInicio, y.horaInicio))))
  {
    var a, b := ViewKey(x), ViewKey(y);
    KeyLeThree(a, b);
    if a[2] != b[2] && !PartLt(a[2], b[2]) {
      PartLtTotal(a[2], b[2]);
    }
  }


  /** The ranges of one professional name stand together in the flat list. */
  lemma ViewKeepsProfesionalTogether(filtered: seq<DisponibilidadItem>, i: nat, j: nat, k: nat)
    requires i < j < k < |View(filtered)|
    requires ProfName(View(filtered)[i]) == ProfName(View(filtered)[k])
    ensures ProfName(View(filtered)[j]) == ProfName(View(filtered)[i])
  {
    var r := View(filtered);
    ViewOrder(filtered, i, j);
    ViewOrder(filtered, j, k);
  }

  // ---------------------------------------------------------------------------
  // 4) profList: each professional once, by name

  /** Some entry of `ps` has the id. */
  predicate HasId(ps: seq<ProfesionalRef>, id: string)
  {
    exists i :: 0 <= i < |ps| && ps[i].id == id
  }

  /** `d.profesional?._id === id`. */
  predicate HasProfId(d: DisponibilidadItem, id: string)
  {
    d.profesional.Some? && d.profesional.value.id == id
  }

  /**
   * The `Map`'s values in insertion order: each range's professional when it
   * has a non-empty id not seen before.
   */
  function FirstProfs(base: seq<DisponibilidadItem>): seq<ProfesionalRef>
  {
    if |base| == 0 then []
    else
      var prev := FirstProfs(base[..|base| - 1]);
      var p := base[|base| - 1].profesional;
      if p.Some? && p.value.id != "" && !HasId(prev, p.value.id) then prev + [p.value] else prev
  }

  function NameKey(p: ProfesionalRef): Key
  {
    TextKey(p.nombre)
  }

  /** `profList`. */
  function ProfList(base: seq<DisponibilidadItem>): seq<ProfesionalRef>
  {
    SortBy(FirstProfs(base), NameKey)
  }

  /** The `forEach` filling the `Map`, then the values sorted by name. */
  method ProfListOf(base: seq<DisponibilidadItem>) returns (list: seq<ProfesionalRef>)
    ensures list == ProfList(base)
  {
    var seen: map<string, ProfesionalRef> := map[];
    var values: seq<ProfesionalRef> := [];
    for i := 0 to |base|
      invariant values == FirstProfs(base[..i])
      invariant forall id :: id in seen <==> HasId(values, id)
    {
      assert base[..i + 1][..i] == base[..i];
      var p := base[i].profesional;
      if p.Some? && p.value.id != "" && p.value.id !in seen {
        forall id ensures HasId(values + [p.value], id) <==> HasId(values, id) || id == p.value.id {
          if HasId(values + [p.value], id) && id != p.value.id {
            var k :| 0 <= k < |values| + 1 && (values + [p.value])[k].id == id;
            assert values[k].id == id;
          }
          if HasId(values, id) {
            var k :| 0 <= k < |values| && values[k].id == id;
            assert (values + [p.value])[k].id == id;
          }
          if id == p.value.id {
            assert (values + [p.value])[|values|].id == id;
          }
        }
        seen := seen[p.value.id := p.value];
        values := values + [p.value];
      }
    }
    assert base[..|base|] == base;
    list := SortBy(values, NameKey);
  }

  /** Every range with a professional of non-empty id contributes that id. */
  lemma {:induction false} FirstProfsComplete(base: seq<DisponibilidadItem>, k: nat)
    requires k < |base| && base[k].profesional.Some? && base[k].profesional.value.id != ""
    ensures HasId(FirstProfs(base), base[k].profesional.value.id)
  {
    var n := |base| - 1;
    var init := base[..n];
    var prev := FirstProfs(init);
    var id := base[k].profesional.value.id;
    if k < n {
      assert init[k] == base[k];
      FirstProfsComplete(init, k);
      var i :| 0 <= i < |prev| && prev[i].id == id;
      assert FirstProfs(base)[i] == prev[i];
    } else if !HasId(prev, id) {
      assert FirstProfs(base)[|prev|].id == id;
    } else {
      var i :| 0 <= i < |prev| && prev[i].id == id;
      assert FirstProfs(base)[i] == prev[i];
    }
  }

  /**
   * Every listed professional has a non-empty id and is the professional of
   * the first range carrying that id.
   */
  lemma {:induction false} FirstProfsSound(base: seq<DisponibilidadItem>, p: ProfesionalRef)
    requires p in FirstProfs(base)
    ensures p.id != ""
    ensures exists k :: 0 <= k < |base| && base[k].profesional == Some(p) &&
                        forall j :: 0 <= j < k ==> !HasProfId(base[j], p.id)
  {
    var n := |base| - 1;
    var init := base[..n];
    var prev := FirstProfs(init);
    if p in prev {
      FirstProfsSound(init, p);
      var k :| 0 <= k < |init| && init[k].profesional == Some(p) &&
                forall j :: 0 <= j < k ==> !HasProfId(init[j], p.id);
      assert base[k] == init[k];
      forall j | 0 <= j < k ensures !HasProfId(base[j], p.id) {
        assert base[j] == init[j];
      }
    } else {
      assert base[n].profesional == Some(p) && !HasId(prev, p.id);
      forall j | 0 <= j < n ensures !HasProfId(base[j], p.id) {
        if HasProfId(base[j], p.id) {
          assert init[j] == base[j];
          FirstProfsComplete(init, j);
        }
      }
    }
  }

  /** No two entries share an id. */
  predicate UniqueIds(ps: seq<ProfesionalRef>)
  {
    forall i, j :: 0 <= i < j < |ps| ==> ps[i].id != ps[j].id
  }

  /** No two listed professionals share an id. */
  lemma {:induction false} FirstProfsUnique(base: seq<DisponibilidadItem>)
    ensures UniqueIds(FirstProfs(base))
  {
    if |base| > 0 {
      var init := base[..|base| - 1];
      FirstProfsUnique(init);
      var prev := FirstProfs(init);
      var r := FirstProfs(base);
      var p := base[|base| - 1].profesional;
      if p.Some? && p.value.id != "" && !HasId(prev, p.value.id) {
        assert r == prev + [p.value];
        forall i, j | 0 <= i < j < |r| ensures r[i].id != r[j].id {
          assert r[i] == prev[i];
          if j < |prev| {
            assert r[j] == prev[j];
          }
        }
      }
    }
  }

  /** The listed professionals are those of `FirstProfs`, reordered, so their ids stay distinct. */
  lemma ProfListUnique(base: seq<DisponibilidadItem>)
    ensures UniqueIds(ProfList(base))
  {
    var first := FirstProfs(base);
    var r := ProfList(base);
    FirstProfsUnique(base);
    assert Distinct(first) by {
      forall i, j | 0 <= i < j < |first| ensures first[i] != first[j] {
        assert first[i].id != first[j].id;
      }
    }
    PermutationDistinct(first, r);
    forall i, j | 0 <= i < j < |r| ensures r[i].id != r[j].id {
      ProfListSameIds(first, r, i, j);
    }
  }

  /** Distinct entries of a permutation of a list with distinct ids have distinct ids. */
  lemma ProfListSameIds(first: seq<ProfesionalRef>, r: seq<ProfesionalRef>, i: nat, j: nat)
    requires multiset(r) == multiset(first) && UniqueIds(first)
    requires i < |r| && j < |r| && r[i] != r[j]
    ensures r[i].id != r[j].id
  {
    assert r[i] in multiset(first) && r[j] in multiset(first);
    var a :| 0 <= a < |first| && first[a] == r[i];
    var b :| 0 <= b < |first| && first[b] == r[j];
    assert a != b;
    if a > b {
      assert first[b].id != first[a].id;
    }
  }

  /** The professionals come sorted by name. */
  lemma ProfListSorted(base: seq<DisponibilidadItem>, i: nat, j: nat)
    requires i < j < |ProfList(base)|
    ensures StrLe(ProfList(base)[i].nombre, ProfList(base)[j].nombre)
  {
    var r := ProfList(base);
    assert KeyLe(NameKey(r[i]), NameKey(r[j]));
    TextKeyOrder(r[i].nombre, r[j].nombre);
  }

  /**
   * A professional is listed iff it has a non-empty id and is the
   * professional of the first range carrying that id.
   */
  lemma ProfListMember(base: seq<DisponibilidadItem>, p: ProfesionalRef)
    ensures p in ProfList(base) <==>
            p.id != "" &&
            exists k :: 0 <= k < |base| && base[k].profesional == Some(p) &&
                        forall j :: 0 <= j < k ==> !HasProfId(base[j], p.id)
  {
    var first := FirstProfs(base);
    SortByMembers(first, NameKey);
    if p in first {
      FirstProfsSound(base, p);
    }
    if p.id != "" && exists k :: 0 <= k < |base| && base[k].profesional == Some(p) &&
                                 forall j :: 0 <= j < k ==> !HasProfId(base[j], p.id) {
      var k :| 0 <= k < |base| && base[k].profesional == Some(p) &&
                forall j :: 0 <= j < k ==> !HasProfId(base[j], p.id);
      FirstProfsComplete(base, k);
      var i :| 0 <= i < |first| && first[i].id == p.id;
      FirstProfsSound(base, first[i]);
      var k' :| 0 <= k' < |base| && base[k'].profesional == Some(first[i]) &&
                 forall j :: 0 <= j < k' ==> !HasProfId(base[j], first[i].id);
      assert HasProfId(base[k], p.id) && HasProfId(base[k'], p.id);
      assert k == k';
    }
  }

  // ---------------------------------------------------------------------------
  // 5) The professional mode

  /** The automatic choice: in professional mode with nothing chosen, a single listed professional is chosen. */
  function AutoSelect(focusMode: bool, focusedProfId: string, profList: seq<ProfesionalRef>): (id: string)
    ensures focusMode && focusedProfId == "" && |profList| == 1 ==> id == profList[0].id
    ensures !(focusMode && focusedProfId == "" && |profList| == 1) ==> id == focusedProfId
  {
    if focusMode && focusedProfId == "" && |profList| == 1 then profList[0].id else focusedProfId
  }

  /** `profList.find(p => p._id === id)`. */
  function FindProf(ps: seq<ProfesionalRef>, id: string): (r: Option<ProfesionalRef>)
    ensures r.None? <==> !HasId(ps, id)
    ensures r.Some? ==> exists i :: 0 <= i < |ps| && ps[i] == r.value && r.value.id == id &&
                                    forall j :: 0 <= j < i ==> ps[j].id != id
  {
    if |ps| == 0 then None
    else if ps[0].id == id then Some(ps[0])
    else
      var r := FindProf(ps[1..], id);
      if r.Some? then
        var i :| 0 <= i < |ps[1..]| && ps[1..][i] == r.value && r.value.id == id &&
                 forall j :: 0 <= j < i ==> ps[1..][j].id != id;
        assert ps[i + 1] == r.value;
        r
      else
        r
  }

  function ProfIdIs(id: string): DisponibilidadItem -> bool
  {
    (d: DisponibilidadItem) => HasProfId(d, id)
  }

  /** `focusedItems`: nothing without a choice, else the chosen professional's ranges among the searched ones. */
  function FocusedItems(fbt: seq<DisponibilidadItem>, id: string): seq<DisponibilidadItem>
  {
    if id == "" then [] else Filter(fbt, ProfIdIs(id))
  }

  /** A range is shown in professional mode iff a professional is chosen and the range is that professional's. */
  lemma FocusedItemsMember(fbt: seq<DisponibilidadItem>, id: string, x: DisponibilidadItem)
    ensures x in FocusedItems(fbt, id) <==> id != "" && x in fbt && HasProfId(x, id)
    ensures multiset(FocusedItems(fbt, id)) <= multiset(fbt)
  {
    if id != "" {
      FilterMember(fbt, ProfIdIs(id), x);
    }
  }

  /** A single listed professional is the only entry of `FirstProfs`. */
  lemma SingleProf(fbt: seq<DisponibilidadItem>)
    requires |ProfList(fbt)| == 1
    ensures FirstProfs(fbt) == ProfList(fbt) && ProfList(fbt)[0].id != ""
  {
    var first := FirstProfs(fbt);
    var r := ProfList(fbt);
    assert r[0] in multiset(first);
    assert first == [r[0]];
    FirstProfsSound(fbt, r[0]);
  }

  /**
   * When the search leaves a single professional and nothing is chosen, the
   * automatic choice finds that professional and shows every searched range
   * that has a professional with an id.
   */
  lemma AutoSelectShowsAll(fbt: seq<DisponibilidadItem>, x: DisponibilidadItem)
    requires |ProfList(fbt)| == 1
    requires x in fbt && x.profesional.Some? && x.profesional.value.id != ""
    ensures var id := AutoSelect(true, "", ProfList(fbt));
            id != "" && FindProf(ProfList(fbt), id) == Some(ProfList(fbt)[0]) &&
            x in FocusedItems(fbt, id)
  {
    var r := ProfList(fbt);
    var id := AutoSelect(true, "", r);
    SingleProf(fbt);
    var k :| 0 <= k < |fbt| && fbt[k] == x;
    FirstProfsComplete(fbt, k);
    FocusedItemsMember(fbt, id, x);
  }
}
