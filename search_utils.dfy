/**
 * The text search helpers of the list pages (frontend/src/utils/searchUtils.js).
 *
 * A value that may be `null` or `undefined` is an `Option<string>`; fields are
 * always strings or absent, so `toString()` is the identity here.
 */
module SearchUtils {
  import opened Wrappers
  import opened JsString
  import opened ScheduleUtils

  /**
   * `normalize`: `''` for null or undefined, otherwise trimmed, lower-cased
   * and without accents. The pipeline is the one `normalizeDia` applies.
   */
  function Normalize(s: Option<string>): (r: string)
    ensures s.None? ==> r == ""
    ensures forall i :: 0 <= i < |r| ==> !IsCombiningMark(r[i])
  {
    NormalizeDia(s.GetOr(""))
  }

  /** A blank text normalises to the empty string. */
  lemma NormalizeBlank(s: string)
    requires IsBlank(s)
    ensures Normalize(Some(s)) == ""
  {
    assert Lower(Trim(s)) == "";
  }

  /** Normalising ignores case. */
  lemma NormalizeIgnoresCase(s: string)
    ensures Normalize(Some(Lower(s))) == Normalize(Some(s))
  {
    NormalizeDiaIgnoresCase(s);
  }

  /** `xs.some(p)`: scans from the front for an element that passes. */
  function AnyOf<T>(xs: seq<T>, p: T -> bool): bool
  {
    if |xs| == 0 then false
    else p(xs[0]) || AnyOf(xs[1..], p)
  }

  /** The scan finds an element iff one passes. */
  lemma {:induction false} AnyOfSpec<T>(xs: seq<T>, p: T -> bool)
    ensures AnyOf(xs, p) <==> exists i :: 0 <= i < |xs| && p(xs[i])
  {
    if |xs| > 0 {
      AnyOfSpec(xs[1..], p);
      if exists i :: 0 <= i < |xs| && p(xs[i]) {
        var i :| 0 <= i < |xs| && p(xs[i]);
        if i > 0 {
          assert xs[1..][i - 1] == xs[i];
        }
      }
    }
  }

  /** The test `includesSome` applies to one field. */
  function FieldContains(q: string): Option<string> -> bool
  {
    f => Contains(Normalize(f), q)
  }

  /** `includesSome`: a blank query matches everything; otherwise some field must contain it. */
  function IncludesSome(query: Option<string>, fields: seq<Option<string>>): (b: bool)
    ensures Normalize(query) == "" ==> b
  {
    var q := Normalize(query);
    q == "" || AnyOf(fields, FieldContains(q))
  }

  /**
   * A non-blank query matches iff some normalised field contains the
   * normalised query.
   */
  lemma IncludesSomeSpec(query: Option<string>, fields: seq<Option<string>>)
    ensures IncludesSome(query, fields) <==>
            Normalize(query) == "" ||
            exists i :: 0 <= i < |fields| && Contains(Normalize(fields[i]), Normalize(query))
  {
    AnyOfSpec(fields, FieldContains(Normalize(query)));
  }

  /** A blank or missing query keeps every item, whatever its fields. */
  lemma IncludesSomeBlank(query: string, fields: seq<Option<string>>)
    requires IsBlank(query)
    ensures IncludesSome(Some(query), fields) && IncludesSome(None, fields)
  {
    NormalizeBlank(query);
  }

  /** A query that is not blank after normalising matches nothing when there are no fields. */
  lemma IncludesSomeNoFields(query: Option<string>)
    ensures IncludesSome(query, []) <==> Normalize(query) == ""
  {
  }

  /** Adding a field never turns a match into a miss. */
  lemma IncludesSomeMonotone(query: Option<string>, fields: seq<Option<string>>, f: Option<string>)
    requires IncludesSome(query, fields)
    ensures IncludesSome(query, fields + [f])
  {
    IncludesSomeSpec(query, fields);
    IncludesSomeSpec(query, fields + [f]);
    if Normalize(query) != "" {
      var i :| 0 <= i < |fields| && Contains(Normalize(fields[i]), Normalize(query));
      assert (fields + [f])[i] == fields[i];
    }
  }

  /** The case of the query does not matter. */
  lemma IncludesSomeIgnoresCase(query: string, fields: seq<Option<string>>)
    ensures IncludesSome(Some(Lower(query)), fields) == IncludesSome(Some(query), fields)
  {
    NormalizeIgnoresCase(query);
  }

  /** A text contains each of its prefixes. */
  lemma ContainsPrefix(s: string, p: string)
    requires p <= s
    ensures Contains(s, p)
  {
    assert s[0..] == s;
  }

  /** The query `"mie"` is already normalised. */
  lemma NormalizeMie()
    ensures Normalize(Some("mie")) == "mie"
  {
    NormalizeDiaPlain("mie");
  }


  /** The field `" Miércoles "` normalises to `miercoles`. */
  lemma NormalizeMiercoles()
    ensures Normalize(Some(" " + "Mi" + "é" + "rcoles" + " ")) == "mi" + "e" + "rcoles"
  {
    NormalizeDiaExample();
  }

  /**
   * Accents and case are ignored: the query `"mie"` finds the field
   * `" Miércoles "`.
   */
  lemma IncludesSomeExample()
    ensures IncludesSome(Some("mie"), [Some(" " + "Mi" + "é" + "rcoles" + " ")])
  {
    var field := Some(" " + "Mi" + "é" + "rcoles" + " ");
    assert FieldContains("mie")(field) by {
      NormalizeMiercoles();
      ContainsPrefix("mi" + "e" + "rcoles", "mie");
    }
    assert AnyOf([field], FieldContains("mie"));
    NormalizeMie();
  }
}
