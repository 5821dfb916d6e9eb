/**
 * The front end's decoding of an error response into a field → message map
 * (frontend/src/utils/parseApiErrors.js).
 *
 * `error?.response?.data` is an `Option<Payload>`: `None` when the request
 * failed without a response body. The map's key order is not modelled.
 */
module ParseApiErrors {
  import opened Wrappers
  import opened JsString
  import opened FieldErrors

  const FALLBACK_MSG: string := "Ocurrió un error. Verificá los datos e intentá nuevamente."
  const EMAIL_DUP_MSG: string := "Ese email ya está registrado."
  const DNI_DUP_MSG: string := "Ese DNI ya está registrado."
  const GENERIC_DUP_MSG: string := "Dato único duplicado."

  /** The generic message, on `_general`. */
  function Fallback(): (r: map<string, string>)
    ensures "_general" in r && |r| == 1
  {
    map["_general" := FALLBACK_MSG]
  }

  /** `e.param || e.path || '_general'`. */
  function KeyOf(e: ErrorItem): (k: string)
    ensures k != ""
  {
    if e.param != "" then e.param else if e.path != "" then e.path else "_general"
  }

  /** One step of the loop: a message already stored (and not empty) gets the new one appended after a space. */
  function AddError(m: map<string, string>, e: ErrorItem): map<string, string>
  {
    var k := KeyOf(e);
    m[k := if k in m && m[k] != "" then m[k] + " " + e.msg else e.msg]
  }

  /** The map the loop over an `errors` array builds. */
  function CollectErrors(items: seq<ErrorItem>): map<string, string>
  {
    if |items| == 0 then map[] else AddError(CollectErrors(items[..|items| - 1]), items[|items| - 1])
  }

  /** The loop over `data.errors`, updating the map item by item. */
  method CollectFieldErrors(items: seq<ErrorItem>) returns (fieldErrors: map<string, string>)
    ensures fieldErrors == CollectErrors(items)
  {
    fieldErrors := map[];
    for i := 0 to |items|
      invariant fieldErrors == CollectErrors(items[..i])
    {
      assert items[..i + 1][..i] == items[..i];
      var e := items[i];
      var key := KeyOf(e);
      if key in fieldErrors && fieldErrors[key] != "" {
        fieldErrors := fieldErrors[key := fieldErrors[key] + " " + e.msg];
      } else {
        fieldErrors := fieldErrors[key := e.msg];
      }
    }
    assert items[..|items|] == items;
  }

  /** `String(data.error || data.message || '')`; an exception object prints as `[object Object]`. */
  function Raw(d: Payload): string
  {
    if d.error.Some? && d.error.value.ErrObject? then "[object Object]"
    else if d.error.Some? && d.error.value.text != "" then d.error.value.text
    else if d.message.Some? && d.message.value != "" then d.message.value
    else ""
  }

  /** `data?.error?.keyValue || data?.keyValue`: the keys of the first object present. */
  function KeyValue(d: Payload): Option<seq<string>>
  {
    if d.error.Some? && d.error.value.ErrObject? && d.error.value.keyValue.Some? then d.error.value.keyValue
    else d.keyValue
  }

  /** The message for a duplicated unique key. */
  function DupMessage(key: string): (msg: string)
    ensures msg in {EMAIL_DUP_MSG, DNI_DUP_MSG, GENERIC_DUP_MSG}
    ensures msg == EMAIL_DUP_MSG <==> key == "email"
    ensures msg == DNI_DUP_MSG <==> key == "dni"
  {
    if key == "email" then EMAIL_DUP_MSG else if key == "dni" then DNI_DUP_MSG else GENERIC_DUP_MSG
  }

  /** The duplicate-key error read from the text of an `E11000` error. */
  function DupFromText(lower: string): map<string, string>
  {
    if Contains(lower, "email") then map["email" := EMAIL_DUP_MSG]
    else if Contains(lower, "dni") then map["dni" := DNI_DUP_MSG]
    else map["_general" := GENERIC_DUP_MSG]
  }

  /** `parseApiErrors(error)`, with its branches in the order the code tries them. */
  function ApiErrors(data: Option<Payload>): (r: map<string, string>)
    ensures |r| > 0
  {
    if data.None? then Fallback()
    else
      var d := data.value;
      if d.errors.Some? then
        var m := CollectErrors(d.errors.value);
        if |m| > 0 then m else Fallback()
      else
        var keyValue := KeyValue(d);
        if keyValue.Some? && |keyValue.value| > 0 && keyValue.value[0] != "" then
          map[keyValue.value[0] := DupMessage(keyValue.value[0])]
        else if Contains(Lower(Raw(d)), "e11000") then
          DupFromText(Lower(Raw(d)))
        else if d.message.Some? && !IsBlank(d.message.value) then
          map["_general" := d.message.value]
        else Fallback()
  }

  /** `parseApiErrors`: the `errors` branch loops; the other branches are plain conditionals. */
  method ParseApiErrorsOf(data: Option<Payload>) returns (r: map<string, string>)
    ensures r == ApiErrors(data)
  {
    if data.None? {
      return Fallback();
    }
    var d := data.value;
    if d.errors.Some? {
      var fieldErrors := CollectFieldErrors(d.errors.value);
      if |fieldErrors| > 0 {
        return fieldErrors;
      }
      return Fallback();
    }
    r := ApiErrors(data);
  }

  /** The keys of the collected map are exactly the keys of the items. */
  lemma {:induction false} CollectErrorsKeys(items: seq<ErrorItem>, k: string)
    ensures k in CollectErrors(items) <==> exists i :: 0 <= i < |items| && KeyOf(items[i]) == k
  {
    if |items| > 0 {
      var init := items[..|items| - 1];
      CollectErrorsKeys(init, k);
      if exists i :: 0 <= i < |init| && KeyOf(init[i]) == k {
        var i :| 0 <= i < |init| && KeyOf(init[i]) == k;
        assert items[i] == init[i];
      }
      if exists i :: 0 <= i < |items| && KeyOf(items[i]) == k {
        var i :| 0 <= i < |items| && KeyOf(items[i]) == k;
        if i < |init| {
          assert init[i] == items[i];
        }
      }
    }
  }

  /** The messages of the items with key `k`, in input order. */
  function MsgsFor(items: seq<ErrorItem>, k: string): seq<string>
  {
    if |items| == 0 then []
    else MsgsFor(items[..|items| - 1], k) + (if KeyOf(items[|items| - 1]) == k then [items[|items| - 1].msg] else [])
  }

  lemma JoinNonEmpty(parts: seq<string>, sep: string)
    requires |parts| > 0 && parts[0] != ""
    ensures Join(parts, sep) != ""
  {
  }

  /**
   * When every message is non-empty, a key's entry is the messages of that
   * key's items in input order, joined by single spaces.
   */
  lemma {:induction false} CollectErrorsJoin(items: seq<ErrorItem>, k: string)
    requires forall i :: 0 <= i < |items| ==> items[i].msg != ""
    ensures k in CollectErrors(items) <==> |MsgsFor(items, k)| > 0
    ensures k in CollectErrors(items) ==> CollectErrors(items)[k] == Join(MsgsFor(items, k), " ")
  {
    if |items| > 0 {
      var init := items[..|items| - 1];
      var e := items[|items| - 1];
      CollectErrorsJoin(init, k);
      var prev := CollectErrors(init);
      var msgs := MsgsFor(init, k);
      if KeyOf(e) == k {
        assert MsgsFor(items, k) == msgs + [e.msg];
        if k in prev {
          MsgsForNonEmpty(init, k);
          JoinNonEmpty(msgs, " ");
          JoinAppend(msgs, e.msg, " ");
        } else {
          assert msgs + [e.msg] == [e.msg];
        }
      } else {
        assert MsgsFor(items, k) == msgs;
      }
    }
  }

  /** The messages gathered for a key are all among the non-empty messages. */
  lemma {:induction false} MsgsForNonEmpty(items: seq<ErrorItem>, k: string)
    requires forall i :: 0 <= i < |items| ==> items[i].msg != ""
    ensures forall j :: 0 <= j < |MsgsFor(items, k)| ==> MsgsFor(items, k)[j] != ""
  {
    if |items| > 0 {
      MsgsForNonEmpty(items[..|items| - 1], k);
    }
  }

  /**
   * The `errors` array takes precedence over every other field: an empty
   * array gives the fallback, and otherwise the keys are exactly the keys of
   * its items, whatever `message`, `error` or `keyValue` hold.
   */
  lemma ErrorsTakePrecedence(d: Payload, k: string)
    requires d.errors.Some?
    ensures |d.errors.value| == 0 ==> ApiErrors(Some(d)) == Fallback()
    ensures |d.errors.value| > 0 ==>
              (k in ApiErrors(Some(d)) <==> exists i :: 0 <= i < |d.errors.value| && KeyOf(d.errors.value[i]) == k)
  {
    var items := d.errors.value;
    CollectErrorsKeys(items, k);
    if |items| > 0 {
      CollectErrorsKeys(items, KeyOf(items[0]));
    }
  }

  /** The payload `fieldError(p, m)` decodes to the single entry `{p: m}` (or `_general` for an empty `p`). */
  lemma FieldErrorRoundTrip(p: string, m: string)
    ensures ApiErrors(Some(FieldError(p, m))) == map[(if p != "" then p else "_general") := m]
  {
    var items := FieldError(p, m).errors.value;
    assert items[..0] == [];
    assert CollectErrors(items) == AddError(map[], items[0]);
  }

  /** A `keyValue` object with a first key gives one entry, on that key, with the duplicate message for it. */
  lemma KeyValueDuplicate(d: Payload)
    requires d.errors.None? && d.error.None?
    requires d.keyValue.Some? && |d.keyValue.value| > 0 && d.keyValue.value[0] != ""
    ensures var r := ApiErrors(Some(d)); var key := d.keyValue.value[0];
            |r| == 1 && key in r &&
            (key == "email" ==> r[key] == EMAIL_DUP_MSG) &&
            (key == "dni" ==> r[key] == DNI_DUP_MSG) &&
            (key != "email" && key != "dni" ==> r[key] == GENERIC_DUP_MSG)
  {
  }

  /**
   * An `E11000` text with no usable `keyValue` maps to `email` if the text
   * mentions it, else to `dni` if it mentions that, else to `_general`.
   */
  lemma DuplicateText(d: Payload)
    requires d.errors.None? && KeyValue(d).None?
    requires Contains(Lower(Raw(d)), "e11000")
    ensures var r := ApiErrors(Some(d)); var lower := Lower(Raw(d));
            |r| == 1 &&
            ("email" in r <==> Contains(lower, "email")) &&
            ("dni" in r <==> !Contains(lower, "email") && Contains(lower, "dni")) &&
            ("_general" in r <==> !Contains(lower, "email") && !Contains(lower, "dni"))
  {
  }

  /**
   * A non-blank `message`, with no `errors` array, no `keyValue` and no
   * `E11000` text, is shown as the general error.
   */
  lemma MessageIsGeneral(d: Payload)
    requires d.errors.None? && KeyValue(d).None? && !Contains(Lower(Raw(d)), "e11000")
    requires d.message.Some? && !IsBlank(d.message.value)
    ensures ApiErrors(Some(d)) == map["_general" := d.message.value]
  {
  }
}
