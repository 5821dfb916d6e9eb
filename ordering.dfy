/**
 * Orders and the generic list operations the front end applies with
 * `Array.prototype.sort`, `filter` and `localeCompare`.
 *
 * Strings are compared lexicographically by code point (JavaScript's `<` on
 * strings and the default `sort()`); `localeCompare` is modelled by the same order.
 * A sort comparator that chains several criteria is modelled by a composite key.
 */
module Ordering {

  // ---------------------------------------------------------------------------
  // Lexicographic order on strings

  predicate StrLt(a: string, b: string)
  {
    if |a| == 0 then |b| > 0
    else if |b| == 0 then false
    else a[0] < b[0] || (a[0] == b[0] && StrLt(a[1..], b[1..]))
  }

  /** `a <= b` on strings. */
  predicate StrLe(a: string, b: string)
  {
    !StrLt(b, a)
  }

  lemma {:induction false} StrLtIrreflexive(a: string)
    ensures !StrLt(a, a)
  {
    if |a| > 0 {
      StrLtIrreflexive(a[1..]);
    }
  }

  lemma {:induction false} StrLtTransitive(a: string, b: string, c: string)
    requires StrLt(a, b) && StrLt(b, c)
    ensures StrLt(a, c)
  {
    if |a| > 0 && |b| > 0 && |c| > 0 && a[0] == b[0] && b[0] == c[0] {
      StrLtTransitive(a[1..], b[1..], c[1..]);
    }
  }

  lemma {:induction false} StrLtTotal(a: string, b: string)
    ensures a == b || StrLt(a, b) || StrLt(b, a)
  {
    if |a| > 0 && |b| > 0 && a[0] == b[0] {
      StrLtTotal(a[1..], b[1..]);
      if a[1..] == b[1..] {
        assert a == [a[0]] + a[1..] && b == [b[0]] + b[1..];
      }
    }
  }

  lemma StrLtAsymmetric(a: string, b: string)
    requires StrLt(a, b)
    ensures !StrLt(b, a)
  {
    if StrLt(b, a) {
      StrLtTransitive(a, b, a);
      StrLtIrreflexive(a);
    }
  }

  // ---------------------------------------------------------------------------
  // Composite sort keys

  /**
   * One criterion of a sort comparator: a string ascending, a number ascending,
   * or a string descending.
   */
  datatype KeyPart = Text(s: string) | Num(n: int) | TextDesc(s: string)

  type Key = seq<KeyPart>

  function Rank(p: KeyPart): nat
  {
    match p
    case Text(_) => 0
    case Num(_) => 1
    case TextDesc(_) => 2
  }

  predicate PartLt(a: KeyPart, b: KeyPart)
  {
    match (a, b)
    case (Text(x), Text(y)) => StrLt(x, y)
    case (Num(x), Num(y)) => x < y
    case (TextDesc(x), TextDesc(y)) => StrLt(y, x)
    case _ => Rank(a) < Rank(b)
  }

  lemma PartLtIrreflexive(a: KeyPart)
    ensures !PartLt(a, a)
  {
    match a
    case Text(x) => StrLtIrreflexive(x);
    case Num(_) =>
    case TextDesc(x) => StrLtIrreflexive(x);
  }

  lemma PartLtTransitive(a: KeyPart, b: KeyPart, c: KeyPart)
    requires PartLt(a, b) && PartLt(b, c)
    ensures PartLt(a, c)
  {
    if a.Text? && b.Text? && c.Text? {
      StrLtTransitive(a.s, b.s, c.s);
    } else if a.TextDesc? && b.TextDesc? && c.TextDesc? {
      StrLtTransitive(c.s, b.s, a.s);
    }
  }

  lemma PartLtTotal(a: KeyPart, b: KeyPart)
    ensures a == b || PartLt(a, b) || PartLt(b, a)
  {
    if a.Text? && b.Text? {
      StrLtTotal(a.s, b.s);
    } else if a.TextDesc? && b.TextDesc? {
      StrLtTotal(a.s, b.s);
    }
  }

  /** Lexicographic order on keys: the first criterion that differs decides. */
  predicate KeyLt(a: Key, b: Key)
  {
    if |a| == 0 then |b| > 0
    else if |b| == 0 then false
    else PartLt(a[0], b[0]) || (a[0] == b[0] && KeyLt(a[1..], b[1..]))
  }

  lemma {:induction false} KeyLtIrreflexive(a: Key)
    ensures !KeyLt(a, a)
  {
    if |a| > 0 {
      PartLtIrreflexive(a[0]);
      KeyLtIrreflexive(a[1..]);
    }
  }

  lemma {:induction false} KeyLtTransitive(a: Key, b: Key, c: Key)
    requires KeyLt(a, b) && KeyLt(b, c)
    ensures KeyLt(a, c)
  {
    if |a| > 0 && |b| > 0 && |c| > 0 {
      PartLtIrreflexive(a[0]);
      PartLtIrreflexive(b[0]);
      if a[0] == b[0] && b[0] == c[0] {
        KeyLtTransitive(a[1..], b[1..], c[1..]);
      } else if PartLt(a[0], b[0]) && PartLt(b[0], c[0]) {
        PartLtTransitive(a[0], b[0], c[0]);
      }
    }
  }

  lemma {:induction false} KeyLtTotal(a: Key, b: Key)
    ensures a == b || KeyLt(a, b) || KeyLt(b, a)
  {
    if |a| > 0 && |b| > 0 {
      PartLtTotal(a[0], b[0]);
      if a[0] == b[0] {
        KeyLtTotal(a[1..], b[1..]);
        if a[1..] == b[1..] {
          assert a == [a[0]] + a[1..] && b == [b[0]] + b[1..];
        }
      }
    }
  }

  lemma KeyLtAsymmetric(a: Key, b: Key)
    requires KeyLt(a, b)
    ensures !KeyLt(b, a)
  {
    if KeyLt(b, a) {
      KeyLtTransitive(a, b, a);
      KeyLtIrreflexive(a);
    }
  }

  /** `a` sorts no later than `b`. */
  predicate KeyLe(a: Key, b: Key)
  {
    !KeyLt(b, a)
  }

  lemma KeyLeTransitive(a: Key, b: Key, c: Key)
    requires KeyLe(a, b) && KeyLe(b, c)
    ensures KeyLe(a, c)
  {
    KeyLtTotal(a, b);
    KeyLtTotal(b, c);
    if KeyLt(c, a) {
      if KeyLt(a, b) {
        KeyLtTransitive(c, a, b);
      }
    }
  }

  lemma PartLtAsymmetric(a: KeyPart, b: KeyPart)
    requires PartLt(a, b)
    ensures !PartLt(b, a)
  {
    if PartLt(b, a) {
      PartLtTransitive(a, b, a);
      PartLtIrreflexive(a);
    }
  }

  /** Keys compare by their first criterion, and by the rest when the first ones are equal. */
  lemma KeyLeCons(a: Key, b: Key)
    requires |a| > 0 && |b| > 0
    ensures KeyLe(a, b) <==> PartLt(a[0], b[0]) || (a[0] == b[0] && KeyLe(a[1..], b[1..]))
  {
    PartLtTotal(a[0], b[0]);
    if PartLt(a[0], b[0]) {
      PartLtAsymmetric(a[0], b[0]);
    }
    if a[0] == b[0] {
      PartLtIrreflexive(a[0]);
    }
  }

  /** For three-criterion keys: the first criterion that differs decides, and equal keys tie. */
  lemma KeyLeThree(a: Key, b: Key)
    requires |a| == 3 && |b| == 3 && KeyLe(a, b)
    ensures PartLt(a[0], b[0]) ||
            (a[0] == b[0] && (PartLt(a[1], b[1]) || (a[1] == b[1] && !PartLt(b[2], a[2]))))
  {
    KeyLeCons(a, b);
    if a[0] == b[0] && !PartLt(a[0], b[0]) {
      KeyLeCons(a[1..], b[1..]);
      if a[1] == b[1] && !PartLt(a[1], b[1]) {
        KeyLeCons(a[2..], b[2..]);
        assert a[1..][1..] == a[2..] && b[1..][1..] == b[2..];
        assert a[2..][1..] == [] && b[2..][1..] == [];
        assert KeyLe(a[2..][1..], b[2..][1..]);
      }
    }
  }

  /** The key of the default `sort()` on strings: the string itself, ascending. */
  function TextKey(s: string): Key
  {
    [Text(s)]
  }

  /** Ordering by `TextKey` is the lexicographic order on strings. */
  lemma TextKeyOrder(a: string, b: string)
    ensures KeyLe(TextKey(a), TextKey(b)) <==> StrLe(a, b)
  {
    var ka, kb := TextKey(a), TextKey(b);
    assert ka[1..] == [] && kb[1..] == [];
    assert !KeyLt(kb[1..], ka[1..]);
    assert PartLt(kb[0], ka[0]) <==> StrLt(b, a);
    assert KeyLt(kb, ka) <==> StrLt(b, a);
  }

  /** Ordering by a single number is the order on numbers. */
  lemma NumKeyOrder(a: int, b: int)
    ensures KeyLe([Num(a)], [Num(b)]) <==> a <= b
  {
    var ka, kb: Key := [Num(a)], [Num(b)];
    assert ka[1..] == [] && kb[1..] == [];
    assert !KeyLt(kb[1..], ka[1..]);
    assert KeyLt(kb, ka) <==> b < a;
  }

  // ---------------------------------------------------------------------------
  // Sorting

  /** Every element sorts no later than every element after it. */
  predicate SortedBy<T>(s: seq<T>, key: T -> Key)
  {
    forall i, j :: 0 <= i < j < |s| ==> KeyLe(key(s[i]), key(s[j]))
  }

  /** Inserts `x` after every element that does not sort after it. */
  function Insert<T(==)>(x: T, s: seq<T>, key: T -> Key): (r: seq<T>)
    requires SortedBy(s, key)
    ensures multiset(r) == multiset(s) + multiset{x}
    ensures |r| == |s| + 1
    ensures forall i :: 0 <= i < |r| ==> r[i] == x || r[i] in s
    ensures SortedBy(r, key)
  {
    if |s| == 0 then [x]
    else if KeyLt(key(x), key(s[0])) then
      InsertFront(x, s, key);
      [x] + s
    else
      var rest := Insert(x, s[1..], key);
      InsertBehind(x, s, rest, key);
      assert s == [s[0]] + s[1..];
      [s[0]] + rest
  }

  lemma InsertFront<T>(x: T, s: seq<T>, key: T -> Key)
    requires SortedBy(s, key) && |s| > 0 && KeyLt(key(x), key(s[0]))
    ensures SortedBy([x] + s, key)
  {
    var r := [x] + s;
    forall i, j | 0 <= i < j < |r| ensures KeyLe(key(r[i]), key(r[j])) {
      if i == 0 {
        var y := s[j - 1];
        if j - 1 > 0 {
          assert KeyLe(key(s[0]), key(y));
          KeyLtTotal(key(s[0]), key(y));
          if KeyLt(key(s[0]), key(y)) {
            KeyLtTransitive(key(x), key(s[0]), key(y));
          }
        }
        KeyLtAsymmetric(key(x), key(y));
      }
    }
  }

  lemma InsertBehind<T>(x: T, s: seq<T>, rest: seq<T>, key: T -> Key)
    requires SortedBy(s, key) && |s| > 0 && !KeyLt(key(x), key(s[0]))
    requires SortedBy(rest, key)
    requires forall i :: 0 <= i < |rest| ==> rest[i] == x || rest[i] in s[1..]
    ensures SortedBy([s[0]] + rest, key)
  {
    var r := [s[0]] + rest;
    forall i, j | 0 <= i < j < |r| ensures KeyLe(key(r[i]), key(r[j])) {
      if i == 0 {
        var y := rest[j - 1];
        if y != x {
          var k :| 0 <= k < |s[1..]| && s[1..][k] == y;
          assert s[k + 1] == y;
        }
      }
    }
  }

  /** `[...s].sort(cmp)` where `cmp` orders by `key`: a sorted permutation of `s`. */
  function SortBy<T(==)>(s: seq<T>, key: T -> Key): (r: seq<T>)
    ensures multiset(r) == multiset(s)
    ensures |r| == |s|
    ensures SortedBy(r, key)
  {
    if |s| == 0 then []
    else
      assert s == s[..|s| - 1] + [s[|s| - 1]];
      Insert(s[|s| - 1], SortBy(s[..|s| - 1], key), key)
  }

  lemma SortByMembers<T>(s: seq<T>, key: T -> Key)
    ensures forall x :: x in SortBy(s, key) <==> x in s
  {
    var r := SortBy(s, key);
    forall x ensures x in r <==> x in s {
      assert x in r <==> x in multiset(r);
      assert x in s <==> x in multiset(s);
    }
  }

  // ---------------------------------------------------------------------------
  // Filtering and counting

  /** `s.filter(p)`, keeping the order of `s`. */
  function Filter<T>(s: seq<T>, p: T -> bool): (r: seq<T>)
    ensures |r| <= |s|
    ensures forall i :: 0 <= i < |r| ==> r[i] in s
    ensures forall i :: 0 <= i < |s| && p(s[i]) ==> s[i] in r
    ensures multiset(r) <= multiset(s)
    ensures forall i :: 0 <= i < |r| ==> p(r[i])
  {
    if |s| == 0 then []
    else
      assert s == s[..|s| - 1] + [s[|s| - 1]];
      Filter(s[..|s| - 1], p) + (if p(s[|s| - 1]) then [s[|s| - 1]] else [])
  }

  lemma FilterSnoc<T>(s: seq<T>, x: T, p: T -> bool)
    ensures Filter(s + [x], p) == Filter(s, p) + (if p(x) then [x] else [])
  {
    assert (s + [x])[..|s + [x]| - 1] == s;
  }

  /** Nothing passes the filter when no element satisfies the predicate. */
  lemma {:induction false} FilterNone<T>(s: seq<T>, p: T -> bool)
    requires forall i :: 0 <= i < |s| ==> !p(s[i])
    ensures Filter(s, p) == []
  {
    if |s| > 0 {
      FilterNone(s[..|s| - 1], p);
    }
  }

  /** An element survives the filter iff it is in the list and passes the test. */
  lemma FilterMember<T>(s: seq<T>, p: T -> bool, x: T)
    ensures x in Filter(s, p) <==> x in s && p(x)
  {
    if x in Filter(s, p) {
      var i :| 0 <= i < |Filter(s, p)| && Filter(s, p)[i] == x;
    }
  }

  /** `s.filter(p).length`. */
  function Count<T>(s: seq<T>, p: T -> bool): nat
  {
    |Filter(s, p)|
  }

  // ---------------------------------------------------------------------------
  // Flattening

  /** The lists one after the other. */
  function Flatten<T>(lists: seq<seq<T>>): seq<T>
  {
    if |lists| == 0 then [] else Flatten(lists[..|lists| - 1]) + lists[|lists| - 1]
  }

  /** An element of the flattened list is an element of one of the lists, and back. */
  lemma {:induction false} FlattenMembers<T>(lists: seq<seq<T>>, x: T)
    ensures x in Flatten(lists) <==> exists k :: 0 <= k < |lists| && x in lists[k]
  {
    if |lists| > 0 {
      var init := lists[..|lists| - 1];
      FlattenMembers(init, x);
      if exists k :: 0 <= k < |lists| && x in lists[k] {
        var k :| 0 <= k < |lists| && x in lists[k];
        if k < |init| {
          assert init[k] == lists[k];
        }
      }
    }
  }

  // ---------------------------------------------------------------------------
  // Distinct elements

  predicate Distinct<T(==)>(s: seq<T>)
  {
    forall i, j :: 0 <= i < j < |s| ==> s[i] != s[j]
  }

  lemma {:induction false} DistinctMultiplicity<T>(s: seq<T>)
    ensures Distinct(s) <==> forall x :: multiset(s)[x] <= 1
  {
    if |s| > 0 {
      var t := s[1..];
      assert s == [s[0]] + t;
      DistinctMultiplicity(t);
      if Distinct(s) {
        assert s[0] !in t;
        assert Distinct(t) by {
          forall i, j | 0 <= i < j < |t| ensures t[i] != t[j] {
            assert t[i] == s[i + 1] && t[j] == s[j + 1];
          }
        }
      } else {
        var i, j :| 0 <= i < j < |s| && s[i] == s[j];
        if i == 0 {
          assert s[j] in t;
          assert multiset(s)[s[0]] >= 2;
        } else {
          assert !Distinct(t) by {
            assert t[i - 1] == t[j - 1];
          }
          var x :| multiset(t)[x] > 1;
          assert multiset(s)[x] > 1;
        }
      }
    }
  }

  /** A permutation of a list with distinct elements has distinct elements. */
  lemma PermutationDistinct<T>(a: seq<T>, b: seq<T>)
    requires multiset(a) == multiset(b) && Distinct(a)
    ensures Distinct(b)
  {
    DistinctMultiplicity(a);
    DistinctMultiplicity(b);
  }
}
