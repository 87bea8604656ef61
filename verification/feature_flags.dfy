/**
 * feature_flags/context_builder.py: `user_context`, the evaluation context a
 * feature-flag client is given for a request's user.
 */
module FeatureFlags {
  import opened Wrappers
  import Models

  /**
   * The user object as `user_context` sees it: whether it is authenticated,
   * its `id`, and the string attributes it carries by name (`getattr`).
   */
  datatype FlagUser = FlagUser(isAuthenticated: bool, id: nat, attrs: map<string, string>)

  const AnonymousKey := "anonymous"
  const DefaultRole := "user"

  /** Why building a context fails: the user object has no `email` attribute. */
  datatype ContextError = AttributeError(name: string)

  /** One decimal digit of `str(n)`. */
  function DigitChar(d: nat): (c: char)
    requires d < 10
    ensures '0' <= c <= '9' && c as int - '0' as int == d
  {
    ('0' as int + d) as char
  }

  /** `str(n)` for a non-negative integer: its decimal digits, most significant first, no leading zero. */
  function NatToDecimal(n: nat): (s: seq<char>)
    ensures |s| >= 1
    ensures forall k :: 0 <= k < |s| ==> '0' <= s[k] <= '9'
    ensures s[0] == '0' ==> n == 0
  {
    if n < 10 then [DigitChar(n)] else NatToDecimal(n / 10) + [DigitChar(n % 10)]
  }

  /** The number a string of decimal digits denotes: `int(s)`. */
  function DecimalValue(s: seq<char>): nat
    requires forall k :: 0 <= k < |s| ==> '0' <= s[k] <= '9'
  {
    if s == [] then 0 else 10 * DecimalValue(s[..|s| - 1]) + (s[|s| - 1] as int - '0' as int)
  }

  /** `int(str(n)) == n`: the key read back is the id it was made from. */
  lemma {:induction false} DecimalRoundTrip(n: nat)
    ensures DecimalValue(NatToDecimal(n)) == n
  {
    if n >= 10 {
      DecimalRoundTrip(n / 10);
      var s := NatToDecimal(n);
      assert s[..|s| - 1] == NatToDecimal(n / 10);
    }
  }

  /** Distinct ids give distinct keys. */
  lemma DecimalInjective(m: nat, n: nat)
    ensures NatToDecimal(m) == NatToDecimal(n) <==> m == n
  {
    if NatToDecimal(m) == NatToDecimal(n) {
      DecimalRoundTrip(m);
      DecimalRoundTrip(n);
    }
  }

  /**
   * `user_context(user)` (context_builder.py:1-10). No user, or one that is not
   * authenticated, gives the anonymous context; otherwise the context carries
   * the id as a decimal key, the `email` attribute (reading it fails when it is
   * missing) and the `role` attribute, "user" when there is none.
   */
  function UserContext(user: Option<FlagUser>): (r: Result<map<string, string>, ContextError>)
    ensures (user.None? || !user.value.isAuthenticated) ==> r == Success(map["kind" := "user", "key" := AnonymousKey])
    ensures user.Some? && user.value.isAuthenticated ==>
      (r.Failure? <==> "email" !in user.value.attrs)
    ensures r.Failure? ==> r.error == AttributeError("email")
    ensures user.Some? && user.value.isAuthenticated && r.Success? ==>
      r.value.Keys == {"kind", "key", "email", "role"} &&
      r.value["kind"] == "user" && r.value["key"] == NatToDecimal(user.value.id) &&
      r.value["email"] == user.value.attrs["email"] &&
      r.value["role"] == GetOr(if "role" in user.value.attrs then Some(user.value.attrs["role"]) else None, DefaultRole)
  {
    if user.None? || !user.value.isAuthenticated then
      Success(map["kind" := "user", "key" := AnonymousKey])
    else if "email" !in user.value.attrs then
      Failure(AttributeError("email"))
    else
      var u := user.value;
      Success(map[
        "kind" := "user",
        "key" := NatToDecimal(u.id),
        "email" := u.attrs["email"],
        "role" := if "role" in u.attrs then u.attrs["role"] else DefaultRole])
  }

  /**
   * The key tells the two kinds of context apart: an authenticated user's key
   * is never "anonymous", and two authenticated users share a key only when
   * they share an id.
   */
  lemma ContextKeysDistinguishUsers(a: FlagUser, b: FlagUser)
    requires a.isAuthenticated && UserContext(Some(a)).Success?
    requires b.isAuthenticated && UserContext(Some(b)).Success?
    ensures UserContext(Some(a)).value["key"] != AnonymousKey
    ensures UserContext(Some(a)).value["key"] == UserContext(Some(b)).value["key"] <==> a.id == b.id
  {
    var key := NatToDecimal(a.id);
    assert key[0] != 'a';
    assert AnonymousKey[0] == 'a';
    DecimalInjective(a.id, b.id);
  }

  /**
   * The attributes a stored user row carries under the model's own field
   * names: `nombre_usuario`, `email_usuario` and `rol`.
   */
  function UsuarioAttrs(u: Models.Usuario): (attrs: map<string, string>)
    ensures attrs.Keys == {"nombre_usuario", "email_usuario", "rol"}
  {
    map["nombre_usuario" := u.nombreUsuario, "email_usuario" := u.emailUsuario, "rol" := u.rol]
  }

  /**
   * Given an authenticated stored user, `user_context` reads `email`, which the
   * user model does not define (its field is `email_usuario`), so no context is built.
   */
  lemma StoredUserHasNoEmailAttribute(u: Models.Usuario)
    ensures UserContext(Some(FlagUser(true, u.id, UsuarioAttrs(u)))) == Failure(AttributeError("email"))
  {
  }
}
