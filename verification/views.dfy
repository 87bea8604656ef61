/**
 * The handlers of users/views.py over the in-memory database: the superuser
 * gate, registration, detail, update, soft delete, the paginated listing and
 * login. Each handler returns the response it sends; the ones that write to
 * the database are methods with `modifies db`.
 */
module Views {
  import opened Wrappers
  import opened Models
  import opened Responses
  import opened Serializers
  import Pagination

  /** `request.user`: absent, the framework's anonymous user, or a stored user. */
  datatype RequestUser = NoUser | AnonymousUser | User(usuario: Usuario)

  /** `request.user.is_authenticated`: false for the anonymous user, true for a stored one. */
  predicate IsAuthenticatedAttr(u: RequestUser)
    requires !u.NoUser?
  {
    u.User?
  }

  /** `request.user.is_superuser`: the anonymous user is never a superuser. */
  predicate IsSuperuserAttr(u: RequestUser)
    requires !u.NoUser?
  {
    match u
    case AnonymousUser => false
    case User(x) => x.isSuperuser
  }

  /** `permissions.IsAuthenticated.has_permission`. */
  predicate IsAuthenticated(u: RequestUser)
  {
    !u.NoUser? && IsAuthenticatedAttr(u)
  }

  /** `EsSuperUsuario.has_permission` (views.py:18-19). */
  predicate HasPermission(u: RequestUser)
  {
    !u.NoUser? && IsAuthenticatedAttr(u) && IsSuperuserAttr(u)
  }

  /**
   * `permission_classes = [IsAuthenticated, EsSuperUsuario]`, checked before the
   * handler runs: it lets a request through exactly when a stored superuser
   * makes it.
   */
  function AdminGate(u: RequestUser): (ok: bool)
    ensures ok <==> u.User? && u.usuario.isSuperuser
  {
    IsAuthenticated(u) && HasPermission(u)
  }

  /** The framework's refusal when a permission class says no: a `detail` body and 403. */
  function Denied(u: RequestUser): (r: Response)
    ensures r.status == HTTP_403_FORBIDDEN && Field(r, "detail").Some?
  {
    var detail :=
      if !IsAuthenticated(u) then "Authentication credentials were not provided."
      else "You do not have permission to perform this action.";
    Response(JObject(map["detail" := JString(detail)]), HTTP_403_FORBIDDEN)
  }

  /**
   * `format_serializer_errors(serializer.errors)`: the failing fields. That
   * helper is not part of this model, so the messages are left out.
   */
  function FieldErrors(fields: set<string>): (j: Json)
    ensures j.JObject? && j.fields.Keys == fields
  {
    JObject(map f | f in fields :: JNull)
  }

  const ValidationFailed := "Error de validación."
  const InternalError := "Error interno del servidor"
  const AlreadyRegistered := "El usuario o correo ya están registrados."

  /** The `data` of a created or logged-in user (views.py:41-46). */
  function UserData(u: Usuario): (j: Json)
    ensures j.JObject? && j.fields.Keys == {"id", "nombre_usuario", "email_usuario", "rol"}
    ensures j.fields["id"] == JInt(u.id) && j.fields["rol"] == JString(u.rol)
    ensures j.fields["nombre_usuario"] == JString(u.nombreUsuario) && j.fields["email_usuario"] == JString(u.emailUsuario)
  {
    JObject(map[
      "id" := JInt(u.id),
      "nombre_usuario" := JString(u.nombreUsuario),
      "email_usuario" := JString(u.emailUsuario),
      "rol" := JString(u.rol)])
  }

  /** The `data` of a login (views.py:271-277): the user's fields and the token key. */
  function LoginData(u: Usuario, key: string): (j: Json)
    ensures j.JObject? && j.fields.Keys == {"id", "nombre_usuario", "email_usuario", "rol", "token"}
    ensures j.fields["token"] == JString(key) && j.fields["id"] == JInt(u.id)
    ensures j.fields["nombre_usuario"] == JString(u.nombreUsuario) && j.fields["email_usuario"] == JString(u.emailUsuario)
    ensures j.fields["rol"] == JString(u.rol)
  {
    JObject(UserData(u).fields["token" := JString(key)])
  }

  /** The token key a login response hands out, if it is one. */
  function TokenOf(r: Response): (key: Option<string>)
    ensures key.Some? ==> (r.body.JObject? && "data" in r.body.fields &&
                           r.body.fields["data"].JObject? && "token" in r.body.fields["data"].fields)
  {
    match Field(r, "data")
    case Some(JObject(d)) =>
      if "token" in d && d["token"].JString? then Some(d["token"].s) else None
    case _ => None
  }

  /** A login response reads back the key it was built with. */
  lemma LoginDataRoundTrip(u: Usuario, key: string, message: string, status: int)
    ensures TokenOf(SuccessResponse(message, LoginData(u, key), status)) == Some(key)
  {
  }

  /**
   * How the registration handler answers a refusal of `create_user`: the
   * manager's `ValueError`s as 400 with their text, a unique-constraint
   * violation as 400 with a fixed text, anything else as 500.
   */
  function RegisterFailure(e: StoreError): (r: Response)
    ensures r.status == (if e.DataError? then HTTP_500_INTERNAL_SERVER_ERROR else HTTP_400_BAD_REQUEST)
    ensures IsErrorEnvelope(r) && StatusMirrored(r)
  {
    EnvelopesRoundTrip("", JNull, 0);
    if IsValueError(e) then ErrorResponse(ErrorMessage(e), JNull, HTTP_400_BAD_REQUEST)
    else if e.IntegrityError? then ErrorResponse(AlreadyRegistered, JNull, HTTP_400_BAD_REQUEST)
    else ErrorResponse(InternalError, JNull, HTTP_500_INTERNAL_SERVER_ERROR)
  }

  /**
   * `RegistroUsuarioView.post` (views.py:28-66). A caller who is not a
   * superuser is refused before anything is validated; a request that fails
   * validation, or that `create_user` refuses, changes nothing; otherwise the
   * user is stored with the default role and a token is got or created for it.
   * The user is saved before the token, so a token key clash leaves the user
   * stored while the answer is 400.
   */
  method Register(db: Database, caller: RequestUser, req: RegisterRequest, emailFormatOk: string -> bool, freshKey: string)
    returns (resp: Response)
    requires db.Valid()
    modifies db
    ensures db.Valid()
    ensures !AdminGate(caller) ==> resp == Denied(caller) && unchanged(db)
    ensures AdminGate(caller) && RegistrationErrors(old(db.usuarios), req, emailFormatOk) != {} ==>
      resp == ErrorResponse(ValidationFailed, FieldErrors(RegistrationErrors(old(db.usuarios), req, emailFormatOk)), HTTP_400_BAD_REQUEST) &&
      unchanged(db)
    ensures AdminGate(caller) && RegistrationErrors(old(db.usuarios), req, emailFormatOk) == {} ==>
      Validated(req) &&
      var r := CreateUserSpec(old(db.usuarios), old(db.nextId), db.normalizeEmail,
                              req.nombre.value, req.email.value, req.password, NoExtraFields);
      (r.Failure? ==> resp == RegisterFailure(r.error) && db.usuarios == old(db.usuarios) && db.nextId == old(db.nextId) && db.tokens == old(db.tokens)) &&
      (r.Success? ==>
        db.usuarios == old(db.usuarios) + [r.value] && db.nextId == old(db.nextId) + 1 &&
        r.value.rol == DefaultRol && r.value.id !in old(db.tokens) &&
        (freshKey !in old(db.tokens).Values ==>
          resp == SuccessResponse("Usuario creado exitosamente", UserData(r.value), HTTP_201_CREATED) &&
          db.tokens == old(db.tokens)[r.value.id := freshKey]) &&
        (freshKey in old(db.tokens).Values ==>
          resp == ErrorResponse(AlreadyRegistered, JNull, HTTP_400_BAD_REQUEST) && db.tokens == old(db.tokens)))
  {
    if !AdminGate(caller) {
      return Denied(caller);
    }
    var errs := RegistrationErrors(db.usuarios, req, emailFormatOk);
    if errs != {} {
      return ErrorResponse(ValidationFailed, FieldErrors(errs), HTTP_400_BAD_REQUEST);
    }
    resp := SaveRegistration(db, req, freshKey);
  }

  /**
   * The part of `RegistroUsuarioView.post` after validation: `serializer.save()`
   * then the token's get-or-create.
   */
  method SaveRegistration(db: Database, req: RegisterRequest, freshKey: string) returns (resp: Response)
    requires db.Valid() && Validated(req)
    modifies db
    ensures db.Valid()
    ensures var r := CreateUserSpec(old(db.usuarios), old(db.nextId), db.normalizeEmail,
                                    req.nombre.value, req.email.value, req.password, NoExtraFields);
      (r.Failure? ==> resp == RegisterFailure(r.error) && db.usuarios == old(db.usuarios) && db.nextId == old(db.nextId) && db.tokens == old(db.tokens)) &&
      (r.Success? ==>
        db.usuarios == old(db.usuarios) + [r.value] && db.nextId == old(db.nextId) + 1 &&
        r.value.rol == DefaultRol && r.value.id !in old(db.tokens) &&
        (freshKey !in old(db.tokens).Values ==>
          resp == SuccessResponse("Usuario creado exitosamente", UserData(r.value), HTTP_201_CREATED) &&
          db.tokens == old(db.tokens)[r.value.id := freshKey]) &&
        (freshKey in old(db.tokens).Values ==>
          resp == ErrorResponse(AlreadyRegistered, JNull, HTTP_400_BAD_REQUEST) && db.tokens == old(db.tokens)))
  {
    NextIdFresh(db.usuarios, db.nextId);
    ghost var before := db.usuarios;
    ghost var nextId := db.nextId;
    var created := CreateRegistered(db, req);
    match created
    case Failure(e) =>
      resp := RegisterFailure(e);
    case Success(user) =>
      CreateUserDefaults(before, nextId, db.normalizeEmail, req.nombre.value, req.email.value, req.password, NoExtraFields);
      AppendKeepsTokens(before, db.tokens, user);
      resp := IssueRegistrationToken(db, user, freshKey);
  }

  /**
   * The token step of registration for the user just stored, who holds no
   * token yet: a free key is issued and the user is answered with 201; a key
   * already in use leaves the tokens as they were and the answer is 400.
   */
  method IssueRegistrationToken(db: Database, user: Usuario, freshKey: string) returns (resp: Response)
    requires db.Valid() && user.id in Ids(db.usuarios) && user.id !in db.tokens
    modifies db
    ensures db.Valid()
    ensures db.usuarios == old(db.usuarios) && db.nextId == old(db.nextId)
    ensures freshKey !in old(db.tokens).Values ==>
      resp == SuccessResponse("Usuario creado exitosamente", UserData(user), HTTP_201_CREATED) &&
      db.tokens == old(db.tokens)[user.id := freshKey]
    ensures freshKey in old(db.tokens).Values ==>
      resp == ErrorResponse(AlreadyRegistered, JNull, HTTP_400_BAD_REQUEST) && db.tokens == old(db.tokens)
  {
    var token := db.GetOrCreateTokenFor(user.id, freshKey);
    if token.Failure? {
      resp := ErrorResponse(AlreadyRegistered, JNull, HTTP_400_BAD_REQUEST);
    } else {
      resp := SuccessResponse("Usuario creado exitosamente", UserData(user), HTTP_201_CREATED);
    }
  }

  /**
   * `UsuarioDetailView.get` (views.py:81-96): 404 when no user has that name,
   * otherwise that user as the registration serializer shows it.
   */
  method Detail(db: Database, caller: RequestUser, nombre: string) returns (resp: Response)
    requires db.Valid()
    ensures !AdminGate(caller) ==> resp == Denied(caller)
    ensures AdminGate(caller) && !NameTaken(db.usuarios, nombre) ==>
      resp == ErrorResponse("Usuario no encontrado", JNull, HTTP_404_NOT_FOUND)
    ensures AdminGate(caller) ==> forall i :: 0 <= i < |db.usuarios| && db.usuarios[i].nombreUsuario == nombre ==>
      resp == SuccessResponse("Usuario encontrado", SerializeUsuario(db.usuarios[i]), HTTP_200_OK)
  {
    if !AdminGate(caller) {
      return Denied(caller);
    }
    match IndexOfName(db.usuarios, nombre)
    case None =>
      resp := ErrorResponse("Usuario no encontrado", JNull, HTTP_404_NOT_FOUND);
    case Some(i) =>
      resp := SuccessResponse("Usuario encontrado", SerializeUsuario(db.usuarios[i]), HTTP_200_OK);
  }

  /** A partial update body: each field present or absent. */
  datatype Patch = Patch(nombre: Option<string>, email: Option<string>, rol: Option<string>)

  /** The row after a partial update: the fields the body carries, the rest as stored. */
  function ApplyPatch(u: Usuario, p: Patch): (v: Usuario)
    ensures v.id == u.id && v.password == u.password && v.isActive == u.isActive &&
            v.isStaff == u.isStaff && v.isSuperuser == u.isSuperuser
    ensures v.nombreUsuario == GetOr(p.nombre, u.nombreUsuario)
    ensures v.emailUsuario == GetOr(p.email, u.emailUsuario)
    ensures v.rol == GetOr(p.rol, u.rol)
    ensures p == Patch(None, None, None) ==> v == u
  {
    u.(nombreUsuario := GetOr(p.nombre, u.nombreUsuario),
       emailUsuario := GetOr(p.email, u.emailUsuario),
       rol := GetOr(p.rol, u.rol))
  }

  /**
   * `UsuarioUpdateView.patch` (views.py:107-143). The update serializer is not
   * part of this model: `validate` gives the fields it refuses and `render` its
   * output. 404 when no user has that name, 400 with the refused fields, 500
   * when the store refuses the saved row, otherwise the patched row is stored.
   */
  method Update(db: Database, caller: RequestUser, nombre: string, patch: Patch,
                validate: (Usuario, Patch) -> set<string>, render: Usuario -> Json)
    returns (resp: Response)
    requires db.Valid()
    modifies db
    ensures db.Valid()
    ensures db.nextId == old(db.nextId) && db.tokens == old(db.tokens) && |db.usuarios| == |old(db.usuarios)|
    ensures !AdminGate(caller) ==> resp == Denied(caller) && unchanged(db)
    ensures AdminGate(caller) && !NameTaken(old(db.usuarios), nombre) ==>
      resp == ErrorResponse("Usuario " + nombre + " no encontrado", JNull, HTTP_404_NOT_FOUND) && unchanged(db)
    ensures AdminGate(caller) ==> forall i :: 0 <= i < |old(db.usuarios)| && old(db.usuarios)[i].nombreUsuario == nombre ==>
      var u := old(db.usuarios)[i];
      var errs := validate(u, patch);
      (errs != {} ==> resp == ErrorResponse(ValidationFailed, FieldErrors(errs), HTTP_400_BAD_REQUEST) && db.usuarios == old(db.usuarios)) &&
      (errs == {} && SaveRowSpec(old(db.usuarios), i, ApplyPatch(u, patch)).Failure? ==>
        resp == ErrorResponse(InternalError, JNull, HTTP_500_INTERNAL_SERVER_ERROR) && db.usuarios == old(db.usuarios)) &&
      (errs == {} && SaveRowSpec(old(db.usuarios), i, ApplyPatch(u, patch)).Success? ==>
        resp == SuccessResponse("Usuario " + nombre + " actualizado", render(ApplyPatch(u, patch)), HTTP_200_OK) &&
        db.usuarios == old(db.usuarios)[i := ApplyPatch(u, patch)])
  {
    if !AdminGate(caller) {
      return Denied(caller);
    }
    match IndexOfName(db.usuarios, nombre)
    case None =>
      resp := ErrorResponse("Usuario " + nombre + " no encontrado", JNull, HTTP_404_NOT_FOUND);
    case Some(i) =>
      ghost var before := db.usuarios;
      forall k | 0 <= k < |before| && before[k].nombreUsuario == nombre ensures k == i {
        IndexOfNameUnique(before, nombre, k);
      }
      resp := UpdateRow(db, i, nombre, patch, validate, render);
  }

  /** The part of `UsuarioUpdateView.patch` after the user at `i` was found. */
  method UpdateRow(db: Database, i: nat, nombre: string, patch: Patch,
                   validate: (Usuario, Patch) -> set<string>, render: Usuario -> Json)
    returns (resp: Response)
    requires db.Valid() && i < |db.usuarios|
    modifies db
    ensures db.Valid()
    ensures db.nextId == old(db.nextId) && db.tokens == old(db.tokens)
    ensures var u := old(db.usuarios)[i];
      var errs := validate(u, patch);
      (errs != {} ==> resp == ErrorResponse(ValidationFailed, FieldErrors(errs), HTTP_400_BAD_REQUEST) &&
                      db.usuarios == old(db.usuarios)) &&
      (errs == {} && SaveRowSpec(old(db.usuarios), i, ApplyPatch(u, patch)).Failure? ==>
        resp == ErrorResponse(InternalError, JNull, HTTP_500_INTERNAL_SERVER_ERROR) && db.usuarios == old(db.usuarios)) &&
      (errs == {} && SaveRowSpec(old(db.usuarios), i, ApplyPatch(u, patch)).Success? ==>
        resp == SuccessResponse("Usuario " + nombre + " actualizado", render(ApplyPatch(u, patch)), HTTP_200_OK) &&
        db.usuarios == old(db.usuarios)[i := ApplyPatch(u, patch)])
  {
    var u := db.usuarios[i];
    var errs := validate(u, patch);
    if errs != {} {
      return ErrorResponse(ValidationFailed, FieldErrors(errs), HTTP_400_BAD_REQUEST);
    }
    var updated := ApplyPatch(u, patch);
    var saved := db.SaveRow(i, updated);
    if saved.Failure? {
      resp := ErrorResponse(InternalError, JNull, HTTP_500_INTERNAL_SERVER_ERROR);
    } else {
      resp := SuccessResponse("Usuario " + nombre + " actualizado", render(updated), HTTP_200_OK);
    }
  }

  /** What the soft delete finds: no such user, a user already inactive, or the active user at `index`. */
  datatype DeleteCase = UserNotFound | AlreadyInactive | Deactivate(index: nat)

  /** The branch `UsuarioDeleteView.delete` takes for `nombre` (views.py:156-165). */
  function ClassifyDelete(users: seq<Usuario>, nombre: string): (c: DeleteCase)
    ensures c == UserNotFound <==> !NameTaken(users, nombre)
    ensures c.Deactivate? ==> c.index < |users| && users[c.index].nombreUsuario == nombre && users[c.index].isActive
    ensures c == AlreadyInactive ==> exists i :: 0 <= i < |users| && users[i].nombreUsuario == nombre && !users[i].isActive
  {
    match IndexOfName(users, nombre)
    case None => UserNotFound
    case Some(i) => if users[i].isActive then Deactivate(i) else AlreadyInactive
  }

  /** The user table after the soft delete of `nombre`: the active row flipped to inactive, nothing removed. */
  function SoftDelete(users: seq<Usuario>, nombre: string): seq<Usuario>
  {
    match ClassifyDelete(users, nombre)
    case Deactivate(i) => users[i := users[i].(isActive := false)]
    case _ => users
  }

  /** The answer of the soft delete for each branch (views.py:158-178). */
  function DeleteResponse(c: DeleteCase, nombre: string): (r: Response)
    ensures r.status == (match c
                         case UserNotFound => HTTP_404_NOT_FOUND
                         case AlreadyInactive => HTTP_400_BAD_REQUEST
                         case Deactivate(_) => HTTP_200_OK)
  {
    match c
    case UserNotFound => ErrorResponse("Usuario " + nombre + " no encontrado", JNull, HTTP_404_NOT_FOUND)
    case AlreadyInactive => ErrorResponse("El usuario ya está desactivado.", JNull, HTTP_400_BAD_REQUEST)
    case Deactivate(_) => SuccessResponse("Usuario " + nombre + " desactivado exitosamente", JNull, HTTP_200_OK)
  }

  /**
   * The soft delete changes one thing: the row named `nombre` ends inactive.
   * No row is removed or reordered, and every other field of every row is kept.
   */
  lemma SoftDeleteOnlyDeactivates(users: seq<Usuario>, nombre: string)
    requires NamesUnique(users)
    ensures |SoftDelete(users, nombre)| == |users|
    ensures forall k :: 0 <= k < |users| ==>
      SoftDelete(users, nombre)[k] ==
        (if users[k].nombreUsuario == nombre then users[k].(isActive := false) else users[k])
  {
    match ClassifyDelete(users, nombre)
    case UserNotFound =>
    case AlreadyInactive =>
      var i := IndexOfName(users, nombre).value;
      forall k | 0 <= k < |users| && users[k].nombreUsuario == nombre
        ensures users[k].(isActive := false) == users[k]
      {
        assert k == i;
      }
    case Deactivate(i) =>
      forall k | 0 <= k < |users| && users[k].nombreUsuario == nombre
        ensures k == i
      {
      }
  }

  /** Deleting the same user twice: the second delete always finds it already inactive. */
  lemma SecondDeleteRefused(users: seq<Usuario>, nombre: string)
    requires NamesUnique(users)
    requires ClassifyDelete(users, nombre).Deactivate?
    ensures ClassifyDelete(SoftDelete(users, nombre), nombre) == AlreadyInactive
    ensures DeleteResponse(ClassifyDelete(SoftDelete(users, nombre), nombre), nombre).status == HTTP_400_BAD_REQUEST
  {
    var i := ClassifyDelete(users, nombre).index;
    var t := SoftDelete(users, nombre);
    assert t[i].nombreUsuario == nombre;
    SoftDeleteOnlyDeactivates(users, nombre);
  }

  /** The soft delete keeps the table invariant. */
  lemma SoftDeleteKeepsInvariant(users: seq<Usuario>, nextId: nat, nombre: string)
    requires TableInvariant(users, nextId)
    ensures TableInvariant(SoftDelete(users, nombre), nextId)
  {
    match ClassifyDelete(users, nombre)
    case Deactivate(i) =>
      SaveUnchangedKeysSucceeds(users, nextId, i, users[i].(isActive := false));
      SaveRowKeepsInvariant(users, nextId, i, users[i].(isActive := false));
    case _ =>
  }

  /**
   * `UsuarioDeleteView.delete` (views.py:154-178): 404 for an unknown name, 400
   * for a user already inactive, otherwise the user's row is kept with
   * `is_active` false and the answer is 200.
   */
  method Delete(db: Database, caller: RequestUser, nombre: string) returns (resp: Response)
    requires db.Valid()
    modifies db
    ensures db.Valid()
    ensures !AdminGate(caller) ==> resp == Denied(caller) && unchanged(db)
    ensures AdminGate(caller) ==>
      resp == DeleteResponse(ClassifyDelete(old(db.usuarios), nombre), nombre) &&
      db.usuarios == SoftDelete(old(db.usuarios), nombre) &&
      db.nextId == old(db.nextId) && db.tokens == old(db.tokens)
  {
    if !AdminGate(caller) {
      return Denied(caller);
    }
    match IndexOfName(db.usuarios, nombre)
    case None =>
      resp := ErrorResponse("Usuario " + nombre + " no encontrado", JNull, HTTP_404_NOT_FOUND);
    case Some(i) =>
      var usuario := db.usuarios[i];
      if !usuario.isActive {
        return ErrorResponse("El usuario ya está desactivado.", JNull, HTTP_400_BAD_REQUEST);
      }
      SaveUnchangedKeysSucceeds(db.usuarios, db.nextId, i, usuario.(isActive := false));
      var _ := db.SaveRow(i, usuario.(isActive := false));
      resp := SuccessResponse("Usuario " + nombre + " desactivado exitosamente", JNull, HTTP_200_OK);
  }

  /** The answer of the listing for a refused query (views.py:211-216 and 239-244). */
  function ListError(e: Pagination.PageError): (r: Response)
    ensures r.status == HTTP_400_BAD_REQUEST
  {
    match e
    case NotIntegers => ErrorResponse("Los parámetros 'page' y 'offset' deben ser enteros.", JNull, HTTP_400_BAD_REQUEST)
    case NotPositive => ErrorResponse("Los parámetros 'page' y 'offset' deben ser mayores a 0.", JNull, HTTP_400_BAD_REQUEST)
  }

  /**
   * `UsuarioAllView.get` (views.py:196-237): the users in id order, paginated.
   * A refused query is a 400 and lists nothing; otherwise the answer is 200
   * with the count, the page count and the users of the page, serialised.
   */
  method List(db: Database, caller: RequestUser, page: Pagination.Param, offset: Pagination.Param) returns (resp: Response)
    requires db.Valid()
    ensures !AdminGate(caller) ==> resp == Denied(caller)
    ensures AdminGate(caller) ==>
      match Pagination.Paginate(db.usuarios, page, offset)
      case Failure(e) => resp == ListError(e) && Field(resp, "results").None?
      case Success(p) =>
        OrderedById(db.usuarios) &&
        resp == PaginationResponse(JArray(SerializeAll(p.results)), p.page, p.offset, p.pages, p.count, HTTP_200_OK) &&
        p.results == Pagination.PageSlice(db.usuarios, p.page, p.offset)
  {
    if !AdminGate(caller) {
      return Denied(caller);
    }
    var listing := Pagination.Paginate(db.usuarios, page, offset);
    match listing
    case Failure(e) =>
      resp := ListError(e);
    case Success(p) =>
      resp := PaginationResponse(JArray(SerializeAll(p.results)), p.page, p.offset, p.pages, p.count, HTTP_200_OK);
  }

  /**
   * `LoginUsuarioView.post` (views.py:258-279): field errors or failed
   * credentials give 400 and issue nothing; a user who authenticates gets the
   * token they already hold, or a new one, and never a second one.
   */
  method Login(db: Database, req: LoginRequest, freshKey: string) returns (resp: Response)
    requires db.Valid()
    modifies db
    ensures db.Valid()
    ensures db.usuarios == old(db.usuarios) && db.nextId == old(db.nextId)
    ensures LoginFieldErrors(req) != {} ==>
      resp == ErrorResponse(ValidationFailed, FieldErrors(LoginFieldErrors(req)), HTTP_400_BAD_REQUEST) &&
      db.tokens == old(db.tokens)
    ensures LoginFieldErrors(req) == {} ==>
      var auth := Authenticate(old(db.usuarios), req.nombre.value, req.password.value);
      (auth.None? ==>
        resp == ErrorResponse(ValidationFailed, FieldErrors({NonFieldErrors}), HTTP_400_BAD_REQUEST) &&
        db.tokens == old(db.tokens)) &&
      (auth.Some? && auth.value.id in old(db.tokens) ==>
        resp == SuccessResponse("Inicio de sesión exitoso", LoginData(auth.value, old(db.tokens)[auth.value.id]), HTTP_200_OK) &&
        db.tokens == old(db.tokens)) &&
      (auth.Some? && auth.value.id !in old(db.tokens) && freshKey !in old(db.tokens).Values ==>
        resp == SuccessResponse("Inicio de sesión exitoso", LoginData(auth.value, freshKey), HTTP_200_OK) &&
        db.tokens == old(db.tokens)[auth.value.id := freshKey]) &&
      (auth.Some? && auth.value.id !in old(db.tokens) && freshKey in old(db.tokens).Values ==>
        resp == ErrorResponse(InternalError, JNull, HTTP_500_INTERNAL_SERVER_ERROR) &&
        db.tokens == old(db.tokens))
  {
    var errs := LoginFieldErrors(req);
    if errs != {} {
      return ErrorResponse(ValidationFailed, FieldErrors(errs), HTTP_400_BAD_REQUEST);
    }
    var validated := ValidateLogin(Authenticate(db.usuarios, req.nombre.value, req.password.value));
    if validated.Failure? {
      return ErrorResponse(ValidationFailed, FieldErrors({NonFieldErrors}), HTTP_400_BAD_REQUEST);
    }
    var user := validated.value;
    var token := db.GetOrCreateTokenFor(user.id, freshKey);
    if token.Failure? {
      resp := ErrorResponse(InternalError, JNull, HTTP_500_INTERNAL_SERVER_ERROR);
    } else {
      resp := SuccessResponse("Inicio de sesión exitoso", LoginData(user, token.value), HTTP_200_OK);
    }
  }

  /** An inactive account never logs in, whatever password is sent. */
  lemma InactiveUserCannotLogin(users: seq<Usuario>, i: nat, password: string)
    requires NamesUnique(users) && i < |users| && !users[i].isActive
    ensures Authenticate(users, users[i].nombreUsuario, password).None?
  {
  }

  /** After a soft delete the deleted user's logins all fail. */
  lemma DeletedUserCannotLogin(users: seq<Usuario>, nombre: string, password: string)
    requires NamesUnique(users)
    ensures NamesUnique(SoftDelete(users, nombre))
    ensures Authenticate(SoftDelete(users, nombre), nombre, password).None?
  {
    SoftDeleteOnlyDeactivates(users, nombre);
    var t := SoftDelete(users, nombre);
    assert forall k :: 0 <= k < |t| ==> t[k].nombreUsuario == users[k].nombreUsuario;
  }

  /**
   * Register then log in: a user created with password `p` authenticates with
   * `p` in the table that results, and is that new row.
   */
  lemma RegisteredUserCanLogin(
    users: seq<Usuario>, nextId: nat, normalize: string -> string,
    nombre: string, email: string, p: string)
    requires TableInvariant(users, nextId)
    requires CreateUserSpec(users, nextId, normalize, nombre, email, Some(p), NoExtraFields).Success?
    ensures var u := CreateUserSpec(users, nextId, normalize, nombre, email, Some(p), NoExtraFields).value;
      NamesUnique(users + [u]) && Authenticate(users + [u], nombre, p) == Some(u)
  {
    var u := CreateUserSpec(users, nextId, normalize, nombre, email, Some(p), NoExtraFields).value;
    CreateUserKeepsInvariant(users, nextId, normalize, nombre, email, Some(p), NoExtraFields);
    var t := users + [u];
    assert t[|users|] == u;
    IndexOfNameUnique(t, nombre, |users|);
  }
}
