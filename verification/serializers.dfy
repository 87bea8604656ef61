/**
 * users/serializers.py: what `RegistroUsuarioSerializer` accepts and shows,
 * what its `create` forwards to the manager, and `LoginUsuarioSerializer.validate`
 * over the framework's `authenticate`.
 */
module Serializers {
  import opened Wrappers
  import opened Models
  import opened Responses

  const NombreField := "nombre_usuario"
  const EmailField := "email_usuario"
  const PasswordField := "contrasenia_usuario"
  /** The key a `ValidationError` raised from `validate` is reported under. */
  const NonFieldErrors := "non_field_errors"
  const InvalidCredentials := "Credenciales inválidas"

  /** `Meta.fields` of `RegistroUsuarioSerializer` (serializers.py:11). */
  const RegistroFields: seq<string> := [NombreField, EmailField, PasswordField]

  /**
   * The output of `RegistroUsuarioSerializer(usuario).data`: the declared
   * fields minus the write-only password.
   */
  function SerializeUsuario(u: Usuario): (j: Json)
    ensures j.JObject? && j.fields.Keys == {NombreField, EmailField}
    ensures PasswordField !in j.fields
    ensures j.fields[NombreField] == JString(u.nombreUsuario) && j.fields[EmailField] == JString(u.emailUsuario)
  {
    JObject(map[NombreField := JString(u.nombreUsuario), EmailField := JString(u.emailUsuario)])
  }

  /** Every declared field except the write-only one is shown, and nothing else. */
  lemma SerializedFieldsAreDeclaredReadable(u: Usuario)
    ensures SerializeUsuario(u).fields.Keys == (set f | f in RegistroFields) - {PasswordField}
  {
  }

  /**
   * The output reveals nothing but the username and email: two rows that agree
   * on those serialise identically, whatever their passwords, roles or flags.
   */
  lemma SerializeShowsOnlyNameAndEmail(u: Usuario, v: Usuario)
    ensures SerializeUsuario(u) == SerializeUsuario(v) <==>
      u.nombreUsuario == v.nombreUsuario && u.emailUsuario == v.emailUsuario
  {
    if SerializeUsuario(u) == SerializeUsuario(v) {
      assert SerializeUsuario(u).fields[NombreField] == SerializeUsuario(v).fields[NombreField];
      assert SerializeUsuario(u).fields[EmailField] == SerializeUsuario(v).fields[EmailField];
    }
  }

  /** `many=True`: each user of a listing serialised in order. */
  function SerializeAll(users: seq<Usuario>): (js: seq<Json>)
    ensures |js| == |users|
    ensures forall k :: 0 <= k < |users| ==> js[k] == SerializeUsuario(users[k])
  {
    if users == [] then [] else [SerializeUsuario(users[0])] + SerializeAll(users[1..])
  }

  /** A request body sent to the registration endpoint; `rol` may be present but is not a declared field. */
  datatype RegisterRequest = RegisterRequest(
    nombre: Option<string>,
    email: Option<string>,
    password: Option<string>,
    rol: Option<string>)

  /** A declared field that is required and may not be blank. */
  predicate Missing(v: Option<string>)
  {
    v.None? || v.value == ""
  }

  /**
   * `RegistroUsuarioSerializer.is_valid()`: the fields whose validation fails.
   * The model fields give each declared field its rules: required and not
   * blank; `nombre_usuario` at most 50 characters and not already stored
   * (compared exactly); `email_usuario` a well-formed address (the framework's
   * email validator, taken as given), at most 254 characters and not already
   * stored (compared as sent, before normalisation).
   */
  function RegistrationErrors(users: seq<Usuario>, req: RegisterRequest, emailFormatOk: string -> bool): (errs: set<string>)
    ensures errs <= {NombreField, EmailField, PasswordField}
    ensures NombreField !in errs <==>
      req.nombre.Some? && req.nombre.value != "" && |req.nombre.value| <= MaxUsernameLength && !NameTaken(users, req.nombre.value)
    ensures EmailField !in errs <==>
      req.email.Some? && req.email.value != "" && emailFormatOk(req.email.value) &&
      |req.email.value| <= MaxEmailLength && !EmailTaken(users, req.email.value)
    ensures PasswordField !in errs <==> !Missing(req.password)
  {
    var nombreBad :=
      Missing(req.nombre) || |req.nombre.value| > MaxUsernameLength || IndexOfName(users, req.nombre.value).Some?;
    var emailBad :=
      Missing(req.email) || !emailFormatOk(req.email.value) || |req.email.value| > MaxEmailLength ||
      IndexOfEmail(users, req.email.value).Some?;
    (if nombreBad then {NombreField} else {}) +
    (if emailBad then {EmailField} else {}) +
    (if Missing(req.password) then {PasswordField} else {})
  }

  /**
   * The username width boundary: with the other fields valid, a free username
   * of 50 characters is accepted and one of 51 is refused.
   */
  lemma UsernameWidthBoundary(users: seq<Usuario>, req: RegisterRequest, emailFormatOk: string -> bool)
    requires req.nombre.Some? && req.nombre.value != "" && !NameTaken(users, req.nombre.value)
    ensures NombreField in RegistrationErrors(users, req, emailFormatOk) <==> |req.nombre.value| > MaxUsernameLength
    ensures |req.nombre.value| == 50 ==> NombreField !in RegistrationErrors(users, req, emailFormatOk)
    ensures |req.nombre.value| == 51 ==> NombreField in RegistrationErrors(users, req, emailFormatOk)
  {
  }

  /** A request that passed validation carries the three declared fields. */
  predicate Validated(req: RegisterRequest)
  {
    req.nombre.Some? && req.email.Some? && req.password.Some?
  }

  /**
   * `RegistroUsuarioSerializer.create` (serializers.py:13-19): only the three
   * declared fields reach `create_user`, with no extra fields, so whatever
   * `rol` the request carried is dropped.
   */
  method CreateRegistered(db: Database, req: RegisterRequest) returns (r: Result<Usuario, StoreError>)
    requires db.Valid() && Validated(req)
    modifies db
    ensures db.Valid()
    ensures r == CreateUserSpec(old(db.usuarios), old(db.nextId), db.normalizeEmail,
                                req.nombre.value, req.email.value, req.password, NoExtraFields)
    ensures db.usuarios == (if r.Success? then old(db.usuarios) + [r.value] else old(db.usuarios))
    ensures db.nextId == (if r.Success? then old(db.nextId) + 1 else old(db.nextId))
    ensures db.tokens == old(db.tokens)
  {
    r := db.CreateUser(req.nombre.value, req.email.value, Some(req.password.value), NoExtraFields);
  }

  /**
   * A registered user always has the default role, is active and is neither
   * staff nor superuser, whatever `rol` the request carried.
   */
  lemma RegisteredUserHasDefaultRole(
    users: seq<Usuario>, nextId: nat, normalize: string -> string, req: RegisterRequest)
    requires Validated(req)
    requires CreateUserSpec(users, nextId, normalize, req.nombre.value, req.email.value, req.password, NoExtraFields).Success?
    ensures var u := CreateUserSpec(users, nextId, normalize, req.nombre.value, req.email.value, req.password, NoExtraFields).value;
      u.rol == DefaultRol && u.isActive && !u.isStaff && !u.isSuperuser &&
      u.nombreUsuario == req.nombre.value && CheckPassword(u.password, req.password.value)
  {
  }

  /**
   * Django's `authenticate` with its default model backend: the user stored
   * under that username, if the password verifies and the account is active.
   */
  function Authenticate(users: seq<Usuario>, nombre: string, password: string): (r: Option<Usuario>)
    requires NamesUnique(users)
    ensures r.Some? <==> exists i :: 0 <= i < |users| && users[i].nombreUsuario == nombre &&
                                     CheckPassword(users[i].password, password) && users[i].isActive
    ensures r.Some? ==> exists i :: 0 <= i < |users| && users[i] == r.value && r.value.nombreUsuario == nombre
  {
    match IndexOfName(users, nombre)
    case None => None
    case Some(i) =>
      if CheckPassword(users[i].password, password) && users[i].isActive then Some(users[i]) else None
  }

  /** A request body sent to the login endpoint. */
  datatype LoginRequest = LoginRequest(nombre: Option<string>, password: Option<string>)

  /** Field validation of `LoginUsuarioSerializer`: both fields required and not blank. */
  function LoginFieldErrors(req: LoginRequest): (errs: set<string>)
    ensures errs <= {NombreField, PasswordField}
    ensures NombreField in errs <==> Missing(req.nombre)
    ensures PasswordField in errs <==> Missing(req.password)
    ensures errs == {} <==> !Missing(req.nombre) && !Missing(req.password)
  {
    (if Missing(req.nombre) then {NombreField} else {}) +
    (if Missing(req.password) then {PasswordField} else {})
  }

  /**
   * `LoginUsuarioSerializer.validate` (serializers.py:28-36), given what
   * `authenticate` returned: no user becomes "Credenciales inválidas",
   * a user is returned as the validated data.
   */
  function ValidateLogin(authenticated: Option<Usuario>): (r: Result<Usuario, string>)
    ensures r.Failure? <==> authenticated.None?
    ensures r.Failure? ==> r.error == InvalidCredentials
    ensures r.Success? ==> r.value == authenticated.value
  {
    match authenticated
    case None => Failure(InvalidCredentials)
    case Some(u) => Success(u)
  }
}
