/**
 * The checks the entity forms repeat in their `validate`: a required text
 * field (blank after `trim()`), the email pattern `^\S+@\S+\.\S+$`, and the
 * time pattern `^([01]\d|2[0-3]):[0-5]\d$`.
 */
module FormRules {
  import opened Wrappers
  import opened JsString
  import opened Ordering
  import opened TimeUtils

  // ---------------------------------------------------------------------------
  // ^\S+@\S+\.\S+$

  /** No white space anywhere (`\S` for every character). */
  predicate NoSpace(s: string)
  {
    forall i :: 0 <= i < |s| ==> !IsSpace(s[i])
  }

  /**
   * The email pattern: no white space, an `@` with something before it, and
   * after that a `.` with something on both sides of it.
   */
  predicate IsEmailLike(s: string)
  {
    NoSpace(s) &&
    exists i, j :: 0 < i && i + 1 < j && j + 1 < |s| && s[i] == '@' && s[j] == '.'
  }

  /** A text the email pattern accepts is never blank, so it never gets both errors. */
  lemma EmailNotBlank(s: string)
    requires IsEmailLike(s)
    ensures !IsBlank(s)
  {
    assert |s| > 0 && !IsSpace(s[0]);
  }

  /**
   * `x@y.z` without white space matches when all three parts are non-empty;
   * a leading space never matches.
   */
  lemma EmailShape(x: string, y: string, z: string)
    requires NoSpace(x + "@" + y + "." + z)
    ensures |x| > 0 && |y| > 0 && |z| > 0 ==> IsEmailLike(x + "@" + y + "." + z)
    ensures !IsEmailLike(" " + x)
  {
    var s := x + "@" + y + "." + z;
    if |x| > 0 && |y| > 0 && |z| > 0 {
      assert s[|x|] == '@' && s[|x| + 1 + |y|] == '.';
    }
    assert IsSpace((" " + x)[0]);
  }

  const MSG_EMAIL_REQUERIDO: string := "El email es obligatorio."
  const MSG_EMAIL_FORMATO: string := "Formato de email inválido."

  /** `if (!value.trim()) e[key] = msg`. */
  function RequireText(e: map<string, string>, key: string, value: string, msg: string): (r: map<string, string>)
    ensures IsBlank(value) ==> r == e[key := msg]
    ensures !IsBlank(value) ==> r == e
  {
    if IsBlank(value) then e[key := msg] else e
  }

  /** The email check: required first, then the pattern. */
  function CheckEmail(e: map<string, string>, email: string): (r: map<string, string>)
    ensures IsBlank(email) ==> r == e["email" := MSG_EMAIL_REQUERIDO]
    ensures !IsBlank(email) && !IsEmailLike(email) ==> r == e["email" := MSG_EMAIL_FORMATO]
    ensures !IsBlank(email) && IsEmailLike(email) ==> r == e
  {
    if IsBlank(email) then e["email" := MSG_EMAIL_REQUERIDO]
    else if !IsEmailLike(email) then e["email" := MSG_EMAIL_FORMATO]
    else e
  }

  /**
   * The error object a `validate` builds by checking the fields in order:
   * each field whose check fails gets its message under its name.
   */
  function Errors<F>(fs: seq<F>, name: F -> string, check: F -> Option<string>): map<string, string>
  {
    if |fs| == 0 then map[]
    else
      var e := Errors(fs[..|fs| - 1], name, check);
      var f := fs[|fs| - 1];
      if check(f).Some? then e[name(f) := check(f).value] else e
  }

  /** Checking one more field adds at most that field's entry. */
  lemma ErrorsStep<F>(fs: seq<F>, i: nat, name: F -> string, check: F -> Option<string>)
    requires i < |fs|
    ensures Errors(fs[..i + 1], name, check) ==
            if check(fs[i]).Some? then Errors(fs[..i], name, check)[name(fs[i]) := check(fs[i]).value]
            else Errors(fs[..i], name, check)
  {
    assert fs[..i + 1][..i] == fs[..i];
  }

  /** Distinct fields have distinct names. */
  ghost predicate Injective<F(!new)>(name: F -> string)
  {
    forall a, b :: name(a) == name(b) ==> a == b
  }

  /**
   * With distinct names, a field has an entry iff it is checked and its check
   * fails, and the entry is that check's message.
   */
  lemma {:induction false} ErrorsSpec<F(!new)>(fs: seq<F>, name: F -> string, check: F -> Option<string>, f: F)
    requires Injective(name)
    ensures name(f) in Errors(fs, name, check) <==> f in fs && check(f).Some?
    ensures name(f) in Errors(fs, name, check) ==> Errors(fs, name, check)[name(f)] == check(f).value
  {
    if |fs| > 0 {
      var init := fs[..|fs| - 1];
      ErrorsSpec(init, name, check, f);
      assert fs == init + [fs[|fs| - 1]];
    }
  }

  /** Only names of checked fields are keys. */
  lemma {:induction false} ErrorsKeys<F>(fs: seq<F>, name: F -> string, check: F -> Option<string>, k: string)
    requires k in Errors(fs, name, check)
    ensures exists i :: 0 <= i < |fs| && name(fs[i]) == k
  {
    var init := fs[..|fs| - 1];
    var f := fs[|fs| - 1];
    if k in Errors(init, name, check) {
      ErrorsKeys(init, name, check, k);
      var i :| 0 <= i < |init| && name(init[i]) == k;
      assert fs[i] == init[i];
    }
  }

  /** The message the email check leaves, when it leaves one. */
  function EmailError(email: string): string
  {
    if IsBlank(email) then MSG_EMAIL_REQUERIDO else MSG_EMAIL_FORMATO
  }

  // ---------------------------------------------------------------------------
  // ^([01]\d|2[0-3]):[0-5]\d$

  /** The time pattern: two-digit hour 00 to 23, a colon, two-digit minute 00 to 59. */
  predicate IsHHmm(s: string)
  {
    |s| == 5 && s[2] == ':' && IsDigit(s[1]) && '0' <= s[3] <= '5' && IsDigit(s[4]) &&
    (s[0] == '0' || s[0] == '1' || (s[0] == '2' && s[1] <= '3'))
  }

  /** The minute of the day a matching time stands for. */
  function ClockValue(s: string): (m: nat)
    requires IsHHmm(s)
    ensures m <= 1439
  {
    600 * DigitValue(s[0]) + 60 * DigitValue(s[1]) + 10 * DigitValue(s[3]) + DigitValue(s[4])
  }

  /**
   * A matching time is already in `HH:mm` form and converts to the minute it
   * stands for, as the server's `toMinutes` reads it.
   */
  lemma HHmmMinutes(s: string)
    requires IsHHmm(s)
    ensures ':' in s
    ensures ToHHmm(s) == s
    ensures ToMinutes(s) == Int(ClockValue(s)) && Minutes(s) == Int(ClockValue(s))
  {
    var h, m := s[..2], s[3..];
    assert h == [s[0], s[1]] && m == [s[3], s[4]];
    assert s == h + ":" + m;
    assert s[2] == ':';
    TwoDigits(s[0], s[1]);
    TwoDigits(s[3], s[4]);
    ToHHmmOf(h, m);
    ToMinutesOfClock(h, m);
  }

  /**
   * On matching times, comparing the texts (as `validate` does with `>=`)
   * is comparing the minutes they stand for.
   */
  lemma HHmmOrder(a: string, b: string)
    requires IsHHmm(a) && IsHHmm(b)
    ensures StrLt(a, b) <==> ClockValue(a) < ClockValue(b)
  {
    var a1, b1 := a[1..], b[1..];
    var a2, b2 := a1[1..], b1[1..];
    var a3, b3 := a2[1..], b2[1..];
    var a4, b4 := a3[1..], b3[1..];
    var a5, b5 := a4[1..], b4[1..];
    assert |a5| == 0 && |b5| == 0;
    assert a1[0] == a[1] && a3[0] == a[3] && a4[0] == a[4];
    assert b1[0] == b[1] && b3[0] == b[3] && b4[0] == b[4];
    assert a2[0] == ':' && b2[0] == ':';
    assert !StrLt(a5, b5);
    assert StrLt(a4, b4) <==> a[4] < b[4];
    assert StrLt(a3, b3) <==> a[3] < b[3] || (a[3] == b[3] && a[4] < b[4]);
    assert StrLt(a1, b1) <==> a[1] < b[1] || (a[1] == b[1] && StrLt(a3, b3));
  }
}
