/**
 * The client form (frontend/src/pages/ClienteFormPage.jsx): its client-side
 * validation and its change handler. The form is a value the page replaces
 * on each change; the error object is a map from field name to message, and
 * clearing an error removes its key.
 */
module ClienteFormPage {
  import opened Wrappers
  import opened JsString
  import opened FormRules

  const MSG_NOMBRE: string := "El nombre es obligatorio."
  const MSG_APELLIDO: string := "El apellido es obligatorio."
  const MSG_TELEFONO: string := "El teléfono es obligatorio."
  const MSG_DNI: string := "El DNI es obligatorio."
  const MSG_DIRECCION: string := "La dirección es obligatoria."

  /** The form's six fields. */
  datatype Fields = Fields(nombre: string, apellido: string, email: string, telefono: string, dni: string, direccion: string)

  /** Which input a change event comes from. */
  datatype Field = Nombre | Apellido | Email | Telefono | Dni | Direccion

  function FieldName(f: Field): string
  {
    match f
    case Nombre => "nombre"
    case Apellido => "apellido"
    case Email => "email"
    case Telefono => "telefono"
    case Dni => "dni"
    case Direccion => "direccion"
  }

  function Get(form: Fields, f: Field): string
  {
    match f
    case Nombre => form.nombre
    case Apellido => form.apellido
    case Email => form.email
    case Telefono => form.telefono
    case Dni => form.dni
    case Direccion => form.direccion
  }

  /** `{ ...prev, [name]: value }`. */
  function Set(form: Fields, f: Field, value: string): (r: Fields)
    ensures Get(r, f) == value
    ensures forall g :: g != f ==> Get(r, g) == Get(form, g)
  {
    match f
    case Nombre => form.(nombre := value)
    case Apellido => form.(apellido := value)
    case Email => form.(email := value)
    case Telefono => form.(telefono := value)
    case Dni => form.(dni := value)
    case Direccion => form.(direccion := value)
  }

  /** The required-field message of each field other than the email. */
  function RequiredMsg(f: Field): string
  {
    match f
    case Nombre => MSG_NOMBRE
    case Apellido => MSG_APELLIDO
    case Email => MSG_EMAIL_REQUERIDO
    case Telefono => MSG_TELEFONO
    case Dni => MSG_DNI
    case Direccion => MSG_DIRECCION
  }

  /** The fields in the order `validate` checks them. */
  const FIELDS: seq<Field> := [Nombre, Apellido, Email, Telefono, Dni, Direccion]

  /**
   * The check `validate` makes on one field: a field blank after trimming
   * gets its required message, and a non-blank email that does not match the
   * pattern gets the format message.
   */
  function FieldCheck(form: Fields, f: Field): Option<string>
  {
    if f == Email then
      (if IsBlank(form.email) || !IsEmailLike(form.email) then Some(EmailError(form.email)) else None)
    else if IsBlank(Get(form, f)) then Some(RequiredMsg(f))
    else None
  }

  /** `FieldCheck` on a fixed form, as a test per field. */
  function Check(form: Fields): Field -> Option<string>
  {
    f => FieldCheck(form, f)
  }

  /** The errors `validate` records. */
  function FormErrors(form: Fields): map<string, string>
  {
    Errors(FIELDS, FieldName, Check(form))
  }

  /** The field names are distinct. */
  lemma FieldNameInjective()
    ensures Injective(FieldName)
  {
  }

  /** `validate` checks every field. */
  lemma AllFields(f: Field)
    ensures f in FIELDS
  {
    match f
    case Nombre => assert FIELDS[0] == f;
    case Apellido => assert FIELDS[1] == f;
    case Email => assert FIELDS[2] == f;
    case Telefono => assert FIELDS[3] == f;
    case Dni => assert FIELDS[4] == f;
    case Direccion => assert FIELDS[5] == f;
  }

  /**
   * A field has an error iff it is blank after trimming (the email also when
   * it does not match the pattern); the message is its required message, or
   * the email's required or format message.
   */
  lemma FormErrorsSpec(form: Fields, f: Field)
    ensures var e := FormErrors(form);
            (FieldName(f) in e <==> IsBlank(Get(form, f)) || (f == Email && !IsEmailLike(form.email))) &&
            (FieldName(f) in e ==> e[FieldName(f)] == if f == Email then EmailError(form.email) else RequiredMsg(f))
  {
    FieldNameInjective();
    AllFields(f);
    ErrorsSpec(FIELDS, FieldName, Check(form), f);
  }

  /** The form passes exactly when no field is blank and the email matches the pattern. */
  lemma FormErrorsEmpty(form: Fields)
    ensures |FormErrors(form)| == 0 <==>
            (forall f :: !IsBlank(Get(form, f))) && IsEmailLike(form.email)
  {
    var e := FormErrors(form);
    if |e| == 0 {
      forall f ensures !IsBlank(Get(form, f)) {
        FormErrorsSpec(form, f);
      }
      FormErrorsSpec(form, Email);
    } else {
      var k :| k in e;
      ErrorsKeys(FIELDS, FieldName, Check(form), k);
      var i :| 0 <= i < |FIELDS| && FieldName(FIELDS[i]) == k;
      FormErrorsSpec(form, FIELDS[i]);
    }
  }

  /** The page's form and error state. */
  class ClienteForm {
    var form: Fields
    var errors: map<string, string>

    /** `initialForm` and no errors. */
    constructor ()
      ensures form == Fields("", "", "", "", "", "") && errors == map[]
    {
      form := Fields("", "", "", "", "", "");
      errors := map[];
    }

    /**
     * `validate`: checks the fields in order, filling the error object, and
     * reports whether it stayed empty.
     */
    method Validate() returns (ok: bool)
      modifies this`errors
      ensures errors == FormErrors(form)
      ensures ok <==> |errors| == 0
    {
      var current := form;
      var e: map<string, string> := map[];
      for i := 0 to |FIELDS|
        invariant e == Errors(FIELDS[..i], FieldName, Check(current))
      {
        ErrorsStep(FIELDS, i, FieldName, Check(current));
        var f := FIELDS[i];
        var msg := FieldCheck(current, f);
        if msg.Some? {
          e := e[FieldName(f) := msg.value];
        }
      }
      assert FIELDS[..|FIELDS|] == FIELDS;
      errors := e;
      ok := |e| == 0;
    }

    /** `handleChange`: sets the named field and clears its error and `_general`. */
    method HandleChange(f: Field, value: string)
      modifies this
      ensures form == Set(old(form), f, value)
      ensures errors == old(errors) - {FieldName(f), "_general"}
    {
      form := Set(form, f, value);
      errors := errors - {FieldName(f), "_general"};
    }
  }
}
