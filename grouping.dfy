/**
 * Grouping a list by a text key, as the views do with a `Map` or a plain
 * object filled in a `forEach` or `reduce`: groups appear in the order their
 * key is first met, and each group keeps its items in input order.
 */
module Grouping {
  import opened Wrappers
  import opened Ordering

  /** One entry of the grouping: a key and the items filed under it. */
  datatype Group<T> = Group(key: string, items: seq<T>)

  /** The position of the group with key `k`, if there is one. */
  function IndexOfKey<T>(gs: seq<Group<T>>, k: string): (r: Option<nat>)
    ensures r.Some? ==> r.value < |gs| && gs[r.value].key == k
    ensures r.None? ==> forall i :: 0 <= i < |gs| ==> gs[i].key != k
  {
    if |gs| == 0 then None
    else if gs[0].key == k then Some(0)
    else
      var rest := IndexOfKey(gs[1..], k);
      if rest.None? then None else Some(rest.value + 1)
  }

  /** `(acc[k] = acc[k] || []).push(x)`: appends to the group of `k`, opening it at the end if new. */
  function Add<T>(gs: seq<Group<T>>, k: string, x: T): (r: seq<Group<T>>)
    ensures |r| == |gs| || |r| == |gs| + 1
  {
    var i := IndexOfKey(gs, k);
    if i.Some? then gs[i.value := Group(k, gs[i.value].items + [x])] else gs + [Group(k, [x])]
  }

  /** The grouping of `items` by `keyOf`, item after item. */
  function Grouped<T>(items: seq<T>, keyOf: T -> string): seq<Group<T>>
  {
    if |items| == 0 then []
    else
      var x := items[|items| - 1];
      Add(Grouped(items[..|items| - 1], keyOf), keyOf(x), x)
  }

  /** The test "has key `k`". */
  function KeyIs<T>(keyOf: T -> string, k: string): T -> bool
  {
    x => keyOf(x) == k
  }

  /** The loop filling the groups: one `push` per item. */
  method GroupBy<T>(items: seq<T>, keyOf: T -> string) returns (groups: seq<Group<T>>)
    ensures groups == Grouped(items, keyOf)
  {
    groups := [];
    for n := 0 to |items|
      invariant groups == Grouped(items[..n], keyOf)
    {
      assert items[..n + 1][..n] == items[..n];
      var x := items[n];
      var k := keyOf(x);
      var i := IndexOfKey(groups, k);
      if i.Some? {
        groups := groups[i.value := Group(k, groups[i.value].items + [x])];
      } else {
        groups := groups + [Group(k, [x])];
      }
    }
    assert items[..|items|] == items;
  }

  /** There is a group for a key iff some item has that key. */
  lemma {:induction false} GroupedKeys<T>(items: seq<T>, keyOf: T -> string, k: string)
    ensures IndexOfKey(Grouped(items, keyOf), k).Some? <==> exists j :: 0 <= j < |items| && keyOf(items[j]) == k
  {
    if |items| > 0 {
      var init := items[..|items| - 1];
      var x := items[|items| - 1];
      var gs := Grouped(init, keyOf);
      GroupedKeys(init, keyOf, k);
      var gs' := Add(gs, keyOf(x), x);
      if IndexOfKey(gs, k).Some? {
        var i := IndexOfKey(gs, k).value;
        assert gs'[i].key == k;
        var j :| 0 <= j < |init| && keyOf(init[j]) == k;
        assert items[j] == init[j];
      } else if keyOf(x) == k {
        assert gs'[|gs'| - 1].key == k;
      } else {
        assert forall i :: 0 <= i < |gs'| ==> gs'[i].key != k;
        forall j | 0 <= j < |items| ensures keyOf(items[j]) != k {
          if j < |init| {
            assert items[j] == init[j];
          }
        }
      }
    }
  }

  /** No two groups share a key. */
  predicate DistinctKeys<T>(gs: seq<Group<T>>)
  {
    forall i, j :: 0 <= i < j < |gs| ==> gs[i].key != gs[j].key
  }

  lemma {:induction false} GroupedDistinct<T>(items: seq<T>, keyOf: T -> string)
    ensures DistinctKeys(Grouped(items, keyOf))
  {
    if |items| > 0 {
      var init := items[..|items| - 1];
      var x := items[|items| - 1];
      var gs := Grouped(init, keyOf);
      GroupedDistinct(init, keyOf);
      var gs' := Add(gs, keyOf(x), x);
      if IndexOfKey(gs, keyOf(x)).None? {
        forall i, j | 0 <= i < j < |gs'| ensures gs'[i].key != gs'[j].key {
          if j == |gs| {
            assert gs'[i] == gs[i];
          }
        }
      }
    }
  }

  lemma {:induction false} GroupedNonEmpty<T>(items: seq<T>, keyOf: T -> string, i: nat)
    requires i < |Grouped(items, keyOf)|
    ensures |Grouped(items, keyOf)[i].items| > 0
  {
    var init := items[..|items| - 1];
    var x := items[|items| - 1];
    var gs := Grouped(init, keyOf);
    if i < |gs| && IndexOfKey(gs, keyOf(x)) != Some(i) {
      GroupedNonEmpty(init, keyOf, i);
    }
  }

  lemma {:induction false} GroupedFilter<T>(items: seq<T>, keyOf: T -> string, i: nat)
    requires i < |Grouped(items, keyOf)|
    ensures Grouped(items, keyOf)[i].items == Filter(items, KeyIs(keyOf, Grouped(items, keyOf)[i].key))
  {
    var init := items[..|items| - 1];
    var x := items[|items| - 1];
    assert items == init + [x];
    var gs := Grouped(init, keyOf);
    var gs' := Grouped(items, keyOf);
    var p := KeyIs(keyOf, gs'[i].key);
    FilterSnoc(init, x, p);
    if i < |gs| {
      assert gs'[i].key == gs[i].key;
      GroupedFilter(init, keyOf, i);
      var idx := IndexOfKey(gs, keyOf(x));
      if idx == Some(i) {
        assert gs'[i].items == gs[i].items + [x];
      } else {
        GroupedDistinct(init, keyOf);
        assert !p(x);
        assert gs'[i] == gs[i];
      }
    } else {
      GroupedKeys(init, keyOf, keyOf(x));
      FilterNone(init, p);
    }
  }

  /**
   * The grouping partitions the items: the keys are distinct, no group is
   * empty, and each group holds exactly the items with its key, in input order.
   */
  lemma GroupedSpec<T>(items: seq<T>, keyOf: T -> string)
    ensures var gs := Grouped(items, keyOf);
            (forall i, j :: 0 <= i < j < |gs| ==> gs[i].key != gs[j].key) &&
            (forall i :: 0 <= i < |gs| ==> |gs[i].items| > 0) &&
            (forall i :: 0 <= i < |gs| ==> gs[i].items == Filter(items, KeyIs(keyOf, gs[i].key)))
  {
    var gs := Grouped(items, keyOf);
    GroupedDistinct(items, keyOf);
    forall i | 0 <= i < |gs|
      ensures |gs[i].items| > 0 && gs[i].items == Filter(items, KeyIs(keyOf, gs[i].key))
    {
      GroupedNonEmpty(items, keyOf, i);
      GroupedFilter(items, keyOf, i);
    }
  }

  /** An item sits in a group iff the group's key is the item's key: each item is in exactly one group. */
  lemma GroupedMember<T>(items: seq<T>, keyOf: T -> string, x: T)
    requires x in items
    ensures var gs := Grouped(items, keyOf);
            IndexOfKey(gs, keyOf(x)).Some? &&
            forall i :: 0 <= i < |gs| ==> (x in gs[i].items <==> gs[i].key == keyOf(x))
  {
    var gs := Grouped(items, keyOf);
    GroupedSpec(items, keyOf);
    var j :| 0 <= j < |items| && items[j] == x;
    GroupedKeys(items, keyOf, keyOf(x));
    forall i | 0 <= i < |gs| ensures x in gs[i].items <==> gs[i].key == keyOf(x) {
      var p := KeyIs(keyOf, gs[i].key);
      if x in gs[i].items {
        var m :| 0 <= m < |gs[i].items| && gs[i].items[m] == x;
        assert p(gs[i].items[m]);
      }
      if gs[i].key == keyOf(x) {
        assert p(items[j]);
      }
    }
  }

  /** Each group's items sorted by `key`, the groups kept in place. */
  function SortedGroups<T(==)>(gs: seq<Group<T>>, key: T -> Key): (r: seq<Group<T>>)
    ensures |r| == |gs|
    ensures forall i :: 0 <= i < |gs| ==> r[i].key == gs[i].key && r[i].items == SortBy(gs[i].items, key)
  {
    if |gs| == 0 then []
    else SortedGroups(gs[..|gs| - 1], key) + [Group(gs[|gs| - 1].key, SortBy(gs[|gs| - 1].items, key))]
  }

  /** `m.forEach(arr => arr.sort(cmp))`: sorts the groups one after the other. */
  method SortEach<T(==)>(gs: seq<Group<T>>, key: T -> Key) returns (r: seq<Group<T>>)
    ensures r == SortedGroups(gs, key)
  {
    r := [];
    for i := 0 to |gs|
      invariant r == SortedGroups(gs[..i], key)
    {
      assert gs[..i + 1][..i] == gs[..i];
      r := r + [Group(gs[i].key, SortBy(gs[i].items, key))];
    }
    assert gs[..|gs|] == gs;
  }

  /** The items of the group with key `k`, or none (`map[k] || []`). */
  function Lookup<T>(gs: seq<Group<T>>, k: string): seq<T>
  {
    var i := IndexOfKey(gs, k);
    if i.Some? then gs[i.value].items else []
  }

  /** Looking a key up in the grouping gives the items with that key, in input order. */
  lemma LookupGrouped<T>(items: seq<T>, keyOf: T -> string, k: string)
    ensures Lookup(Grouped(items, keyOf), k) == Filter(items, KeyIs(keyOf, k))
  {
    GroupedSpec(items, keyOf);
    GroupedKeys(items, keyOf, k);
    if IndexOfKey(Grouped(items, keyOf), k).None? {
      FilterNone(items, KeyIs(keyOf, k));
    }
  }

  /** Reordering the groups keeps the set of keys. */
  lemma PermutedKeys<T>(gs: seq<Group<T>>, ss: seq<Group<T>>, k: string)
    requires multiset(gs) == multiset(ss)
    ensures (exists i :: 0 <= i < |ss| && ss[i].key == k) <==> exists i :: 0 <= i < |gs| && gs[i].key == k
  {
    if exists i :: 0 <= i < |ss| && ss[i].key == k {
      var i :| 0 <= i < |ss| && ss[i].key == k;
      assert ss[i] in multiset(gs);
      var j :| 0 <= j < |gs| && gs[j] == ss[i];
    }
    if exists i :: 0 <= i < |gs| && gs[i].key == k {
      var i :| 0 <= i < |gs| && gs[i].key == k;
      assert gs[i] in multiset(ss);
      var j :| 0 <= j < |ss| && ss[j] == gs[i];
    }
  }

  /**
   * Reordering the groups keeps their keys distinct, and every entry of the
   * reordered list is one of the groups.
   */
  lemma PermutedGroups<T>(gs: seq<Group<T>>, ss: seq<Group<T>>)
    requires multiset(gs) == multiset(ss) && DistinctKeys(gs)
    ensures DistinctKeys(ss)
    ensures forall i :: 0 <= i < |ss| ==> ss[i] in gs
  {
    assert Distinct(gs);
    PermutationDistinct(gs, ss);
    forall i | 0 <= i < |ss| ensures ss[i] in gs {
      assert ss[i] in multiset(ss);
    }
    forall i, j | 0 <= i < j < |ss| ensures ss[i].key != ss[j].key {
      assert ss[i] in gs && ss[j] in gs;
      var a :| 0 <= a < |gs| && gs[a] == ss[i];
      var b :| 0 <= b < |gs| && gs[b] == ss[j];
      assert ss[i] != ss[j];
      assert a != b;
    }
  }
}
