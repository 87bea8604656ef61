/**
 * The user table of users/models.py and the token table beside it, as one
 * in-memory database. `UsuarioManager.create_user` and `create_superuser`
 * become methods of `Database`; what they compute is given by the pure
 * `CreateUserSpec`, and the rules the manager promises are lemmas about it.
 */
module Models {
  import opened Wrappers

  /** Column widths of the `usuarios` table (models.py:44-46; EmailField's default width). */
  const MaxUsernameLength: nat := 50
  const MaxEmailLength: nat := 254
  const MaxRolLength: nat := 20

  /** The field defaults of `Usuario` and the defaults `create_superuser` adds. */
  const DefaultRol := "profesor"
  const SuperuserRol := "superuser"
  const DefaultSuperuserPassword := "admin123"

  /**
   * A stored password. The salted one-way hash is not modelled: `Hashed(p)`
   * stands for "the hash of p", and two hashes match exactly when their
   * plaintexts do. `set_password(None)` stores an unusable password.
   */
  datatype Credential = Unusable | Hashed(secret: string)

  function SetPassword(raw: Option<string>): Credential
  {
    match raw
    case None => Unusable
    case Some(p) => Hashed(p)
  }

  /** `check_password`: true only for the plaintext that was stored. */
  predicate CheckPassword(c: Credential, attempt: string)
  {
    c.Hashed? && c.secret == attempt
  }

  /** A stored password verifies exactly the plaintext it was set from; an unusable one verifies nothing. */
  lemma SetPasswordThenCheck(raw: Option<string>, attempt: string)
    ensures CheckPassword(SetPassword(raw), attempt) <==> raw == Some(attempt)
  {
  }

  /** One row of the `usuarios` table. `isSuperuser` comes from PermissionsMixin. */
  datatype Usuario = Usuario(
    id: nat,
    nombreUsuario: string,
    emailUsuario: string,
    password: Credential,
    rol: string,
    isActive: bool,
    isStaff: bool,
    isSuperuser: bool)

  /** The `**extra_fields` a caller may pass to the manager; `None` means "not passed". */
  datatype ExtraFields = ExtraFields(
    rol: Option<string>,
    isActive: Option<bool>,
    isStaff: Option<bool>,
    isSuperuser: Option<bool>)

  const NoExtraFields := ExtraFields(None, None, None, None)

  /**
   * Why the store refuses a row: the manager's three `ValueError`s, a value
   * wider than its column, and a unique-constraint violation.
   */
  datatype StoreError = EmailRequired | DuplicateUsername | DuplicateEmail | DataError | IntegrityError

  /** The refusals the manager raises as `ValueError` (the others come from the store). */
  predicate IsValueError(e: StoreError)
  {
    e.EmailRequired? || e.DuplicateUsername? || e.DuplicateEmail?
  }

  /** The text of the manager's `ValueError`s (models.py:8, 14, 16). */
  function ErrorMessage(e: StoreError): string
    requires IsValueError(e)
  {
    match e
    case EmailRequired => "El email es obligatorio"
    case DuplicateUsername => "Ya existe un usuario con ese nombre de usuario"
    case DuplicateEmail => "Ya existe un usuario con ese correo electrónico"
  }

  ghost predicate NameTaken(users: seq<Usuario>, name: string)
  {
    exists i :: 0 <= i < |users| && users[i].nombreUsuario == name
  }

  ghost predicate EmailTaken(users: seq<Usuario>, email: string)
  {
    exists i :: 0 <= i < |users| && users[i].emailUsuario == email
  }

  /** `Usuario.objects.filter(nombre_usuario=name)`: the position of the row with that name, if any. */
  function IndexOfName(users: seq<Usuario>, name: string): (r: Option<nat>)
    ensures r.Some? ==> r.value < |users| && users[r.value].nombreUsuario == name
    ensures r.None? <==> !NameTaken(users, name)
    ensures r.Some? ==> forall j :: 0 <= j < r.value ==> users[j].nombreUsuario != name
  {
    if |users| == 0 then None
    else if users[0].nombreUsuario == name then Some(0)
    else
      match IndexOfName(users[1..], name)
      case None => None
      case Some(i) => Some(i + 1)
  }

  /** `Usuario.objects.filter(email_usuario=email)`: the position of the row with that email, if any. */
  function IndexOfEmail(users: seq<Usuario>, email: string): (r: Option<nat>)
    ensures r.Some? ==> r.value < |users| && users[r.value].emailUsuario == email
    ensures r.None? <==> !EmailTaken(users, email)
  {
    if |users| == 0 then None
    else if users[0].emailUsuario == email then Some(0)
    else
      match IndexOfEmail(users[1..], email)
      case None => None
      case Some(i) => Some(i + 1)
  }

  /** With unique usernames, the lookup by name finds the one row that carries it. */
  lemma IndexOfNameUnique(users: seq<Usuario>, name: string, i: nat)
    requires NamesUnique(users) && i < |users| && users[i].nombreUsuario == name
    ensures IndexOfName(users, name) == Some(i)
  {
  }

  /** The row `self.model(...)` builds: the caller's extra fields, else the field defaults. */
  function NewUsuario(id: nat, nombre: string, email: string, password: Option<string>, extra: ExtraFields): Usuario
  {
    Usuario(
      id, nombre, email, SetPassword(password),
      GetOr(extra.rol, DefaultRol),
      GetOr(extra.isActive, true),
      GetOr(extra.isStaff, false),
      GetOr(extra.isSuperuser, false))
  }

  /** The row's values fit the widths of their columns. */
  predicate Fits(u: Usuario)
  {
    |u.nombreUsuario| <= MaxUsernameLength && |u.emailUsuario| <= MaxEmailLength && |u.rol| <= MaxRolLength
  }

  ghost predicate NamesUnique(users: seq<Usuario>)
  {
    forall i, j :: 0 <= i < j < |users| ==> users[i].nombreUsuario != users[j].nombreUsuario
  }

  ghost predicate EmailsUnique(users: seq<Usuario>)
  {
    forall i, j :: 0 <= i < j < |users| ==> users[i].emailUsuario != users[j].emailUsuario
  }

  /** Rows are kept in insertion order, which is ascending id order. */
  ghost predicate OrderedById(users: seq<Usuario>)
  {
    forall i, j :: 0 <= i < j < |users| ==> users[i].id < users[j].id
  }

  /**
   * The invariant of the user table: every row fits its columns and has an id
   * below the next one to hand out, rows are in id order, and no two rows share
   * a username or an email (models.py:44-45).
   */
  ghost predicate TableInvariant(users: seq<Usuario>, nextId: nat)
  {
    (forall i :: 0 <= i < |users| ==> Fits(users[i]) && users[i].id < nextId) &&
    OrderedById(users) && NamesUnique(users) && EmailsUnique(users)
  }

  ghost function Ids(users: seq<Usuario>): set<nat>
  {
    set i | 0 <= i < |users| :: users[i].id
  }

  /** The id the table hands out next belongs to no stored row. */
  lemma NextIdFresh(users: seq<Usuario>, nextId: nat)
    requires TableInvariant(users, nextId)
    ensures nextId !in Ids(users)
  {
  }

  /**
   * The invariant of the token table (user id to key): every token belongs to a
   * stored user, and no two users share a key (the key is the primary key).
   * Keying the table by user id is what makes "at most one token per user".
   */
  ghost predicate TokensInvariant(users: seq<Usuario>, tokens: map<nat, string>)
  {
    tokens.Keys <= Ids(users) &&
    forall a, b :: a in tokens && b in tokens && a != b ==> tokens[a] != tokens[b]
  }

  /**
   * What `create_user` does to a table (models.py:6-25): refuse an empty email,
   * normalise it, refuse a taken username, then a taken email, then a row too
   * wide for its columns; otherwise the new row.
   */
  ghost function CreateUserSpec(
    users: seq<Usuario>, nextId: nat, normalize: string -> string,
    nombre: string, email: string, password: Option<string>, extra: ExtraFields): Result<Usuario, StoreError>
  {
    if email == "" then Failure(EmailRequired)
    else if NameTaken(users, nombre) then Failure(DuplicateUsername)
    else if EmailTaken(users, normalize(email)) then Failure(DuplicateEmail)
    else
      var u := NewUsuario(nextId, nombre, normalize(email), password, extra);
      if Fits(u) then Success(u) else Failure(DataError)
  }

  /**
   * The refusals of `create_user`, in the order the code checks them: an empty
   * email first, then a taken username (whatever the email), then a taken
   * normalised email. A refusal is the only outcome in these cases.
   */
  lemma CreateUserRefusals(
    users: seq<Usuario>, nextId: nat, normalize: string -> string,
    nombre: string, email: string, password: Option<string>, extra: ExtraFields)
    ensures var r := CreateUserSpec(users, nextId, normalize, nombre, email, password, extra);
      (email == "" ==> r == Failure(EmailRequired)) &&
      (email != "" && NameTaken(users, nombre) ==> r == Failure(DuplicateUsername)) &&
      (email != "" && !NameTaken(users, nombre) && EmailTaken(users, normalize(email)) ==> r == Failure(DuplicateEmail)) &&
      (r.Success? <==> email != "" && !NameTaken(users, nombre) && !EmailTaken(users, normalize(email)) &&
                       Fits(NewUsuario(nextId, nombre, normalize(email), password, extra)))
  {
  }

  /**
   * A new row carries the given username, the normalised email and the next
   * id; each of `rol`, `is_active`, `is_staff`, `is_superuser` is the caller's
   * value when one was passed and the model default ('profesor', true, false,
   * false) otherwise.
   */
  lemma CreateUserDefaults(
    users: seq<Usuario>, nextId: nat, normalize: string -> string,
    nombre: string, email: string, password: Option<string>, extra: ExtraFields)
    requires CreateUserSpec(users, nextId, normalize, nombre, email, password, extra).Success?
    ensures var u := CreateUserSpec(users, nextId, normalize, nombre, email, password, extra).value;
      u.id == nextId && u.nombreUsuario == nombre && u.emailUsuario == normalize(email) &&
      u.password == SetPassword(password) &&
      u.rol == (if extra.rol.Some? then extra.rol.value else DefaultRol) &&
      u.isActive == (extra.isActive != Some(false)) &&
      u.isStaff == (extra.isStaff == Some(true)) &&
      u.isSuperuser == (extra.isSuperuser == Some(true))
  {
  }

  /** Appending the row `create_user` accepted keeps the table invariant. */
  lemma CreateUserKeepsInvariant(
    users: seq<Usuario>, nextId: nat, normalize: string -> string,
    nombre: string, email: string, password: Option<string>, extra: ExtraFields)
    requires TableInvariant(users, nextId)
    requires CreateUserSpec(users, nextId, normalize, nombre, email, password, extra).Success?
    ensures TableInvariant(users + [CreateUserSpec(users, nextId, normalize, nombre, email, password, extra).value], nextId + 1)
  {
    var u := CreateUserSpec(users, nextId, normalize, nombre, email, password, extra).value;
    var t := users + [u];
    forall i, j | 0 <= i < j < |t|
      ensures t[i].nombreUsuario != t[j].nombreUsuario && t[i].emailUsuario != t[j].emailUsuario
    {
      if j == |users| {
        assert t[i] == users[i];
      }
    }
  }

  /** The keyword arguments `create_superuser` passes on: setdefault of is_staff, is_superuser and rol. */
  function SuperuserExtraFields(extra: ExtraFields): ExtraFields
  {
    extra.(
      isStaff := SetDefault(extra.isStaff, true),
      isSuperuser := SetDefault(extra.isSuperuser, true),
      rol := SetDefault(extra.rol, SuperuserRol))
  }

  /** The password `create_superuser` passes on: 'admin123' in place of a missing or empty one. */
  function SuperuserPassword(password: Option<string>): (p: string)
    ensures password.Some? && password.value != "" ==> p == password.value
    ensures password.None? || password.value == "" ==> p == DefaultSuperuserPassword
  {
    if password.None? || password.value == "" then DefaultSuperuserPassword else password.value
  }

  /**
   * What `create_superuser` stores (models.py:27-35): is_staff, is_superuser
   * and rol take True, True and 'superuser' unless the caller passed them; a
   * missing or empty password becomes 'admin123'; everything else is as for
   * `create_user`.
   */
  lemma CreateSuperuserDefaults(
    users: seq<Usuario>, nextId: nat, normalize: string -> string,
    nombre: string, email: string, password: Option<string>, extra: ExtraFields)
    requires CreateUserSpec(users, nextId, normalize, nombre, email, Some(SuperuserPassword(password)), SuperuserExtraFields(extra)).Success?
    ensures var u := CreateUserSpec(users, nextId, normalize, nombre, email, Some(SuperuserPassword(password)), SuperuserExtraFields(extra)).value;
      u.nombreUsuario == nombre && u.emailUsuario == normalize(email) &&
      u.isStaff == (extra.isStaff != Some(false)) &&
      u.isSuperuser == (extra.isSuperuser != Some(false)) &&
      u.rol == (if extra.rol.Some? then extra.rol.value else SuperuserRol) &&
      u.isActive == (extra.isActive != Some(false)) &&
      (password.None? || password == Some("") ==> CheckPassword(u.password, DefaultSuperuserPassword)) &&
      (password.Some? && password.value != "" ==> CheckPassword(u.password, password.value))
  {
  }

  /** A superuser with no keyword arguments is staff, superuser and has rol 'superuser'. */
  lemma CreateSuperuserPlain(
    users: seq<Usuario>, nextId: nat, normalize: string -> string,
    nombre: string, email: string, password: Option<string>)
    requires CreateUserSpec(users, nextId, normalize, nombre, email, Some(SuperuserPassword(password)), SuperuserExtraFields(NoExtraFields)).Success?
    ensures var u := CreateUserSpec(users, nextId, normalize, nombre, email, Some(SuperuserPassword(password)), SuperuserExtraFields(NoExtraFields)).value;
      u.isStaff && u.isSuperuser && u.rol == SuperuserRol && u.isActive
  {
  }

  /**
   * `save()` of an existing row replaced by `row`: the store checks the column
   * widths, then the unique constraints against every other row.
   */
  ghost function SaveRowSpec(users: seq<Usuario>, i: nat, row: Usuario): Result<Usuario, StoreError>
    requires i < |users|
  {
    if !Fits(row) then Failure(DataError)
    else if exists j :: 0 <= j < |users| && j != i &&
              (users[j].nombreUsuario == row.nombreUsuario || users[j].emailUsuario == row.emailUsuario)
    then Failure(IntegrityError)
    else Success(row)
  }

  /** A saved row that keeps its id keeps the table invariant. */
  lemma SaveRowKeepsInvariant(users: seq<Usuario>, nextId: nat, i: nat, row: Usuario)
    requires TableInvariant(users, nextId) && i < |users| && row.id == users[i].id
    requires SaveRowSpec(users, i, row).Success?
    ensures TableInvariant(users[i := row], nextId)
    ensures Ids(users[i := row]) == Ids(users)
  {
    var t := users[i := row];
    forall x | x in Ids(t) ensures x in Ids(users) {
      var k :| 0 <= k < |t| && t[k].id == x;
      assert users[k].id == x;
    }
    forall x | x in Ids(users) ensures x in Ids(t) {
      var k :| 0 <= k < |users| && users[k].id == x;
      assert t[k].id == x;
    }
  }

  /**
   * Saving a row whose username, email and rol are those already stored never
   * fails: the soft delete of users/views.py cannot be refused by the store.
   */
  lemma SaveUnchangedKeysSucceeds(users: seq<Usuario>, nextId: nat, i: nat, row: Usuario)
    requires TableInvariant(users, nextId) && i < |users|
    requires row.nombreUsuario == users[i].nombreUsuario && row.emailUsuario == users[i].emailUsuario
    requires row.rol == users[i].rol
    ensures SaveRowSpec(users, i, row) == Success(row)
  {
  }

  /**
   * `Token.objects.get_or_create(user=...)`: the user's key when there is one,
   * otherwise `freshKey` (the framework's random key) inserted for the user;
   * inserting a key another user already holds violates the primary key.
   * The result is the new table and the key handed back.
   */
  function GetOrCreateToken(tokens: map<nat, string>, userId: nat, freshKey: string): (r: Result<(map<nat, string>, string), StoreError>)
    ensures userId in tokens ==> r == Success((tokens, tokens[userId]))
    ensures r.Failure? <==> userId !in tokens && freshKey in tokens.Values
    ensures r.Success? ==> userId in r.value.0 && r.value.0[userId] == r.value.1
    ensures r.Success? ==> r.value.0.Keys == tokens.Keys + {userId}
    ensures r.Success? ==> forall u :: u in tokens ==> r.value.0[u] == tokens[u]
    ensures userId !in tokens && freshKey !in tokens.Values ==> r == Success((tokens[userId := freshKey], freshKey))
  {
    if userId in tokens then Success((tokens, tokens[userId]))
    else if freshKey in tokens.Values then Failure(IntegrityError)
    else Success((tokens[userId := freshKey], freshKey))
  }

  /**
   * get-or-create is idempotent: once a user has a token, every later call,
   * whatever fresh key the framework draws, returns the same key and leaves the
   * table as it is.
   */
  lemma GetOrCreateTokenStable(tokens: map<nat, string>, userId: nat, k1: string, k2: string)
    requires GetOrCreateToken(tokens, userId, k1).Success?
    ensures var (t1, key1) := GetOrCreateToken(tokens, userId, k1).value;
      GetOrCreateToken(t1, userId, k2) == Success((t1, key1))
  {
  }

  /** Issuing a token for a stored user keeps the token invariant: still one key per user, keys distinct. */
  lemma GetOrCreateTokenKeepsInvariant(users: seq<Usuario>, tokens: map<nat, string>, userId: nat, freshKey: string)
    requires TokensInvariant(users, tokens) && userId in Ids(users)
    requires GetOrCreateToken(tokens, userId, freshKey).Success?
    ensures TokensInvariant(users, GetOrCreateToken(tokens, userId, freshKey).value.0)
  {
    var t := GetOrCreateToken(tokens, userId, freshKey).value.0;
    if userId !in tokens {
      forall a, b | a in t && b in t && a != b ensures t[a] != t[b] {
        if a == userId {
          assert b in tokens && tokens[b] in tokens.Values;
        } else if b == userId {
          assert a in tokens && tokens[a] in tokens.Values;
        }
      }
    }
  }

  /** A new row's id is not among the stored ids, so the token table stays tied to stored users. */
  lemma AppendKeepsTokens(users: seq<Usuario>, tokens: map<nat, string>, u: Usuario)
    requires TokensInvariant(users, tokens)
    ensures TokensInvariant(users + [u], tokens)
    ensures Ids(users + [u]) == Ids(users) + {u.id}
  {
    var t := users + [u];
    forall x | x in Ids(users) ensures x in Ids(t) {
      var k :| 0 <= k < |users| && users[k].id == x;
      assert t[k].id == x;
    }
    assert t[|users|].id == u.id;
    forall x | x in Ids(t) ensures x in Ids(users) + {u.id} {
      var k :| 0 <= k < |t| && t[k].id == x;
      if k < |users| { assert users[k].id == x; }
    }
  }

  /**
   * The database: the `usuarios` table with its id counter, the token table, and
   * the email normaliser of the manager (a library routine, taken as given).
   */
  class Database {
    const normalizeEmail: string -> string
    var usuarios: seq<Usuario>
    var nextId: nat
    var tokens: map<nat, string>

    ghost predicate Valid()
      reads this
    {
      TableInvariant(usuarios, nextId) && TokensInvariant(usuarios, tokens)
    }

    constructor (normalizeEmail: string -> string)
      ensures Valid()
      ensures this.normalizeEmail == normalizeEmail
      ensures usuarios == [] && nextId == 1 && tokens == map[]
    {
      this.normalizeEmail := normalizeEmail;
      usuarios := [];
      nextId := 1;
      tokens := map[];
    }

    /** `UsuarioManager.create_user` (models.py:6-25). */
    method CreateUser(nombre: string, email: string, password: Option<string>, extra: ExtraFields)
      returns (r: Result<Usuario, StoreError>)
      requires Valid()
      modifies this
      ensures Valid()
      ensures r == CreateUserSpec(old(usuarios), old(nextId), normalizeEmail, nombre, email, password, extra)
      ensures usuarios == (if r.Success? then old(usuarios) + [r.value] else old(usuarios))
      ensures nextId == (if r.Success? then old(nextId) + 1 else old(nextId))
      ensures tokens == old(tokens)
    {
      if email == "" {
        return Failure(EmailRequired);
      }
      var normalized := normalizeEmail(email);
      if IndexOfName(usuarios, nombre).Some? {
        return Failure(DuplicateUsername);
      }
      if IndexOfEmail(usuarios, normalized).Some? {
        return Failure(DuplicateEmail);
      }
      var user := NewUsuario(nextId, nombre, normalized, password, extra);
      if !Fits(user) {
        return Failure(DataError);
      }
      CreateUserKeepsInvariant(usuarios, nextId, normalizeEmail, nombre, email, password, extra);
      AppendKeepsTokens(usuarios, tokens, user);
      usuarios := usuarios + [user];
      nextId := nextId + 1;
      r := Success(user);
    }

    /** `UsuarioManager.create_superuser` (models.py:27-35). */
    method CreateSuperuser(nombre: string, email: string, password: Option<string>, extra: ExtraFields)
      returns (r: Result<Usuario, StoreError>)
      requires Valid()
      modifies this
      ensures Valid()
      ensures r == CreateUserSpec(old(usuarios), old(nextId), normalizeEmail, nombre, email,
                                  Some(SuperuserPassword(password)), SuperuserExtraFields(extra))
      ensures usuarios == (if r.Success? then old(usuarios) + [r.value] else old(usuarios))
      ensures nextId == (if r.Success? then old(nextId) + 1 else old(nextId))
      ensures tokens == old(tokens)
    {
      var fields := SuperuserExtraFields(extra);
      var pw := SuperuserPassword(password);
      r := CreateUser(nombre, email, Some(pw), fields);
    }

    /** `save()` of the row at position `i`, changed to `row`. */
    method SaveRow(i: nat, row: Usuario) returns (r: Result<Usuario, StoreError>)
      requires Valid() && i < |usuarios| && row.id == usuarios[i].id
      modifies this
      ensures Valid()
      ensures r == SaveRowSpec(old(usuarios), i, row)
      ensures usuarios == (if r.Success? then old(usuarios)[i := row] else old(usuarios))
      ensures nextId == old(nextId) && tokens == old(tokens)
    {
      if !Fits(row) {
        return Failure(DataError);
      }
      var j := 0;
      while j < |usuarios|
        invariant 0 <= j <= |usuarios|
        invariant forall k :: 0 <= k < j && k != i ==>
          usuarios[k].nombreUsuario != row.nombreUsuario && usuarios[k].emailUsuario != row.emailUsuario
      {
        if j != i && (usuarios[j].nombreUsuario == row.nombreUsuario || usuarios[j].emailUsuario == row.emailUsuario) {
          return Failure(IntegrityError);
        }
        j := j + 1;
      }
      SaveRowKeepsInvariant(usuarios, nextId, i, row);
      usuarios := usuarios[i := row];
      r := Success(row);
    }

    /** `Token.objects.get_or_create(user=...)` for a stored user. */
    method GetOrCreateTokenFor(userId: nat, freshKey: string) returns (r: Result<string, StoreError>)
      requires Valid() && userId in Ids(usuarios)
      modifies this
      ensures Valid()
      ensures r.Success? <==> GetOrCreateToken(old(tokens), userId, freshKey).Success?
      ensures r.Success? ==> r.value == GetOrCreateToken(old(tokens), userId, freshKey).value.1
      ensures r.Success? ==> tokens == GetOrCreateToken(old(tokens), userId, freshKey).value.0
      ensures r.Failure? ==> r.error == IntegrityError && tokens == old(tokens)
      ensures usuarios == old(usuarios) && nextId == old(nextId)
    {
      var issued := GetOrCreateToken(tokens, userId, freshKey);
      match issued
      case Failure(e) =>
        r := Failure(e);
      case Success((t, key)) =>
        GetOrCreateTokenKeepsInvariant(usuarios, tokens, userId, freshKey);
        tokens := t;
        r := Success(key);
    }
  }
}
