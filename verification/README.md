# Users service, modelled in Dafny

This project models the user-management core of a small Django REST service:

- the `Usuario` model and its manager (`create_user`, `create_superuser`);
- the registration and login serializers;
- the response envelopes;
- the superuser permission;
- the handlers for registration, detail, partial update, soft delete, paginated listing and login;
- the feature-flag evaluation context built for a user.

The user table, the next free id and the token table (user id to key) are the fields of one `Database` class. Its methods change them in place: create, save a row, get or create a token. What each method computes is given by a pure function of the old state, and the rules the source promises are proved as lemmas about those functions.

Files:

- `wrappers.dfy`: `Option` and `Result`, with `setdefault` and `get` with a default.
- `responses.dfy`: a JSON value type and the three envelopes of `users/utils/responses.py`.
- `models.dfy`: the `usuarios` table, the manager and `save()`, and token get-or-create.
- `serializers.dfy`: registration validation and output, `create`, authentication and login validation.
- `pagination.dfy`: the page arithmetic of the listing.
- `views.dfy`: the permission gate and the six handlers.
- `feature_flags.dfy`: `user_context`.

## Model

| member | source | states |
|---|---|---|
| Models.SetPasswordThenCheck | users/models.py:23 | a stored password verifies exactly the plaintext it was set from; `set_password(None)` verifies nothing |
| Models.IndexOfName | users/models.py:13 | the username lookup: a hit is a row with that name and no earlier row has it; a miss means no row has that name |
| Models.IndexOfEmail | users/models.py:15 | the email lookup: a hit is a row with that email; a miss means no row has it |
| Models.IndexOfNameUnique | users/models.py:44 | with unique usernames, the lookup finds the one row that carries the name |
| Models.NextIdFresh | users/models.py:38-48 | the next id is not used by any stored row |
| Models.CreateUserRefusals | users/models.py:6-16 | the refusals come in code order: empty email, then taken username, then taken normalised email; the user is created iff none applies and the row fits its columns |
| Models.CreateUserDefaults | users/models.py:18-23 | a created row has the next id, the given name and the normalised email; `rol`, `is_active`, `is_staff` and `is_superuser` are the caller's values or the defaults 'profesor', true, false, false |
| Models.CreateUserKeepsInvariant | users/models.py:44-45 | creating a user keeps usernames and emails unique and ids increasing |
| Models.Database.CreateUser | users/models.py:6-25 | the result is `CreateUserSpec` of the old table; the row is appended and the next id advanced only on success; tokens untouched; the table invariant kept |
| Models.SuperuserPassword | users/models.py:31-34 | a missing or empty password becomes 'admin123'; any other is kept |
| Models.CreateSuperuserDefaults | users/models.py:27-35 | `is_staff`, `is_superuser` and `rol` take True, True and 'superuser' unless passed; the password rule above; the rest as `create_user` |
| Models.CreateSuperuserPlain | users/models.py:28-30 | a superuser created with no keyword arguments is staff, superuser, active and has rol 'superuser' |
| Models.Database.CreateSuperuser | users/models.py:27-35 | `create_user` applied to the superuser defaults and password; the same state change |
| Models.SaveRowKeepsInvariant | users/models.py:44-45 | a row the store accepts keeps the table invariant and the set of ids |
| Models.SaveUnchangedKeysSucceeds | users/views.py:165-166 | saving a row whose username, email and rol are unchanged is never refused |
| Models.Database.SaveRow | users/views.py:128 | `save()` of an existing row: refused for a too-wide value or a clash with another row, otherwise that row replaced and nothing else changed |
| Models.GetOrCreateToken | users/views.py:268 | an existing token is returned with the table unchanged; otherwise the fresh key is stored for the user and returned, unless another user holds it, which is refused as an integrity error |
| Models.GetOrCreateTokenStable | users/views.py:268 | get-or-create is idempotent: a second call returns the same key and leaves the table as it was |
| Models.GetOrCreateTokenKeepsInvariant | users/views.py:38 | issuing a token keeps one key per stored user and distinct keys |
| Models.AppendKeepsTokens | users/views.py:37-38 | storing a new user keeps the token invariant; the ids grow by the new id |
| Models.Database.GetOrCreateTokenFor | users/views.py:268 | the state change of `Token.objects.get_or_create` for a stored user, as `GetOrCreateToken` |
| Responses.SuccessResponse | users/utils/responses.py:4-12 | body keys `mensaje`, `data`, `status`; the HTTP status repeated in the body |
| Responses.ErrorResponse | users/utils/responses.py:14-22 | body keys `error`, `data`, `status`; the HTTP status repeated in the body |
| Responses.PaginationResponse | users/utils/responses.py:24-39 | body keys `count`, `page`, `offset`, `pages`, `results` and no `status` key |
| Responses.EnvelopesRoundTrip | users/utils/responses.py:4-22 | either envelope reads back its message, data and status; only the error one is an error envelope |
| Responses.PaginationReadBack | users/utils/responses.py:24-39 | a pagination body reads back each value under its key |
| Serializers.SerializeUsuario | users/serializers.py:7-11 | a serialised user shows `nombre_usuario` and `email_usuario` and never the write-only password |
| Serializers.SerializedFieldsAreDeclaredReadable | users/serializers.py:11 | the shown keys are the declared fields minus the write-only one |
| Serializers.SerializeShowsOnlyNameAndEmail | users/serializers.py:11 | two users serialise alike iff they agree on username and email |
| Serializers.SerializeAll | users/views.py:229 | `many=True` keeps the order and the length of the listing |
| Serializers.RegistrationErrors | users/serializers.py:6-11 | each field is refused iff it is missing, blank, too wide, badly formed or already stored, field by field |
| Serializers.UsernameWidthBoundary | users/models.py:44 | a free 50-character username is accepted and a 51-character one refused |
| Serializers.CreateRegistered | users/serializers.py:13-20 | `create` passes the three declared fields and no extra fields to `create_user` |
| Serializers.RegisteredUserHasDefaultRole | users/serializers.py:15-19 | a registered user has rol 'profesor', is active, is neither staff nor superuser, whatever `rol` the request carried |
| Serializers.Authenticate | users/serializers.py:29-33 | authentication succeeds iff a row with that username verifies the password and is active, and returns that row |
| Serializers.LoginFieldErrors | users/serializers.py:24-25 | each of `nombre_usuario` and `contrasenia_usuario` is reported iff it is missing or blank, and nothing else is; the body is accepted iff neither is |
| Serializers.ValidateLogin | users/serializers.py:34-36 | no authenticated user gives "Credenciales inválidas"; otherwise the user is the validated data |
| Pagination.CeilDiv | users/views.py:221 | the page count holds every item, and one page fewer would not |
| Pagination.CeilDivLeast | users/views.py:221 | the page count is the least number of pages that holds every item |
| Pagination.PageSlice | users/views.py:223-226 | a page never holds more than `offset` users |
| Pagination.Paginate | users/views.py:208-226 | refused iff a parameter is not an integer or is below 1, with the not-integer error taking precedence; otherwise the defaults 1 and 10, the count and the page count |
| Pagination.PageSliceElements | users/views.py:223-226 | a page holds the users at positions (page-1)*offset onward, as far as the table reaches |
| Pagination.PageNonEmptyIff | users/views.py:221-226 | a page holds users iff its number is at most the page count |
| Pagination.FiveUsersThreePerPage | users/views.py:220-226 | five users, three per page: 2 pages, holding 3, then 2, then none |
| Pagination.OnPageIff | users/views.py:223-224 | each position is listed on exactly one page, number i / offset + 1 |
| Pagination.PagesDisjoint | users/views.py:223-224 | two different pages share no user |
| Pagination.PagesUpToPrefix | users/views.py:223-226 | pages 1..k read in order are the first k*offset users |
| Pagination.PagesCoverAll | users/views.py:218-226 | pages 1..pages read in order are the whole id-ordered table |
| Views.AdminGate | users/views.py:16-19 | a request passes `IsAuthenticated` and `EsSuperUsuario` iff a stored superuser makes it |
| Views.Denied | users/views.py:26 | a refused permission answers 403 with a `detail` |
| Views.UserData | users/views.py:41-46 | the created user's data: exactly the keys id, username, email and rol, each with the row's value |
| Views.LoginData | users/views.py:271-277 | the login data: exactly the keys id, username, email, rol and token, with the row's values and the key |
| Views.LoginDataRoundTrip | users/views.py:269-279 | a login answer reads back the token key it was built with |
| Views.RegisterFailure | users/views.py:49-66 | a `ValueError` and an `IntegrityError` answer 400, a too-wide row 500; all in the error envelope |
| Views.Register | users/views.py:26-66 | a non-superuser is refused and nothing changes; field errors give 400 and nothing changes; a refusal of `create_user` is answered by kind and nothing changes; otherwise the row is appended with rol 'profesor' and a token issued, 201 |
| Views.SaveRegistration | users/views.py:37-66 | after validation: the user is stored as `create_user` says, then a token is issued; a key clash answers 400 with the user kept |
| Views.IssueRegistrationToken | users/views.py:38-48 | the new user gets the fresh key and 201, or 400 when the key is taken, with tokens unchanged |
| Views.Detail | users/views.py:73-94 | 404 for an unknown name; otherwise the stored user as the registration serializer shows it, 200 |
| Views.ApplyPatch | users/views.py:121 | a partial update replaces exactly the fields the body carries; an empty body changes nothing |
| Views.Update | users/views.py:102-143 | 404 for an unknown name and 400 for refused fields, both changing nothing; 500 when the store refuses the row; otherwise the patched row replaces the stored one |
| Views.UpdateRow | users/views.py:121-143 | the update of the user at a known position, as above |
| Views.ClassifyDelete | users/views.py:156-163 | the delete finds no user, a user already inactive, or the active user to deactivate |
| Views.DeleteResponse | users/views.py:158-178 | 404 for no user, 400 for already inactive, 200 for a deactivation |
| Views.SoftDeleteOnlyDeactivates | users/views.py:165-166 | the soft delete removes no row; it only clears `is_active` on the named row |
| Views.SecondDeleteRefused | users/views.py:158-163 | deleting the same user twice: the second delete answers 400 |
| Views.SoftDeleteKeepsInvariant | users/views.py:165-166 | the soft delete keeps the table invariant |
| Views.Delete | users/views.py:149-178 | the answer is `DeleteResponse` of the branch taken and the table becomes `SoftDelete` of the old one; ids and tokens untouched |
| Views.ListError | users/views.py:211-244 | a refused listing answers 400 |
| Views.List | users/views.py:194-237 | a refused query answers 400 with no results; otherwise 200 with the id-ordered slice of the page, serialised, and its metadata |
| Views.Login | users/views.py:258-279 | field errors or failed credentials give 400 and issue nothing; a user holding a token gets that key; one without gets the fresh key, or 500 if it is taken; users untouched |
| Views.InactiveUserCannotLogin | users/serializers.py:29-35 | an inactive account never authenticates, whatever the password |
| Views.DeletedUserCannotLogin | users/views.py:165-166 | after a soft delete, every login of that user fails |
| Views.RegisteredUserCanLogin | users/serializers.py:13-36 | a user created with password p authenticates with p and is the new row |
| FeatureFlags.NatToDecimal | feature_flags/context_builder.py:7 | `str(id)`: decimal digits only, no leading zero |
| FeatureFlags.DecimalRoundTrip | feature_flags/context_builder.py:7 | reading the key back as a number gives the id |
| FeatureFlags.DecimalInjective | feature_flags/context_builder.py:7 | distinct ids give distinct keys |
| FeatureFlags.UserContext | feature_flags/context_builder.py:1-10 | no user or an unauthenticated one gives exactly the anonymous context; otherwise kind, the id as key, the `email` attribute (failing when absent) and the `role` attribute, else "user" |
| FeatureFlags.ContextKeysDistinguishUsers | feature_flags/context_builder.py:2-7 | an authenticated key is never "anonymous"; two keys agree iff the ids do |
| FeatureFlags.StoredUserHasNoEmailAttribute | feature_flags/context_builder.py:8 | a stored `Usuario` has no `email` attribute, so the context cannot be built from it |

## Left out

- Password hashing: `set_password` and `check_password` are modelled as storing and comparing the plaintext. Salting and the hash function are not modelled.
- `normalize_email` is a parameter of the database (`normalizeEmail`). Nothing is assumed about it.
- The email-format validator of `EmailField` is a parameter (`emailFormatOk`).
- The framework's whitespace trimming of `CharField` input is not modelled.
- The messages that `format_serializer_errors` builds are not modelled. `FieldErrors` keeps only the failing field names. `users/utils/__init__.py` is not part of this model.
- `ActualizarUsuarioSerializer` is not part of this model. `Views.Update` takes its validation (`validate`) and its output (`render`) as parameters. It does not model a password carried in a patch.
- Views.Denied: the framework answers an anonymous caller with 401 or 403, depending on the authentication classes configured. The model always answers 403, and the `detail` texts are the framework's defaults.
- Views.Login: the handler declares no permission classes. The model treats it as open to anyone, which is the framework's usual default.
- The catch-all `except Exception` branches (500) are modelled only where the store refuses a write. Examples are a too-wide row, a clash on save, and a token key clash on login. Other unexpected faults (a lost database connection, the raw `str(e)` of Detail and List) are not modelled.
- Concurrency is not modelled: each request runs alone. So the race between the duplicate checks of `create_user` and the unique constraints, and its `IntegrityError`, are not modelled.
- Models.Database.CreateUser: widths are checked only when the row is saved (as a `DataError`), after the duplicate checks. A database that does not enforce `max_length` is not modelled.
- The random token key is a parameter (`freshKey`).
- Views.List: `page` and `offset` are unbounded integers in the model. The database reads the slice's LIMIT (`offset`) and OFFSET (`(page-1)*offset`) as 64-bit integers. When either exceeds 2^63-1, the source's query fails and the catch-all answers 500 with the error text (users/views.py:245-250). For the same request the model answers 200 with an empty page.
- `math.ceil` of a float division is modelled as exact integer ceiling division. Float rounding for very large counts is not modelled.
- `HealthView`, `TestDarklyView`, the LaunchDarkly client (`authservice/launchdarkly.py`), URL routing and the tests are not part of this model.
- Serializers.Authenticate: models Django's default model backend (lookup by username, `check_password`, then the `is_active` refusal). The project settings that name the authentication backends are not part of this model; `Views.InactiveUserCannotLogin` and `Views.DeletedUserCannotLogin` rest on that default.
- Views.Patch: the patchable fields are taken to be `nombre_usuario`, `email_usuario` and `rol`; `ActualizarUsuarioSerializer` is not part of this model.
- The tests expect registration to refuse the username "User 123" and the address example@gmail.com (users/tests/test_post.py:69-119). No modelled code forbids spaces or digits in a username, or any email domain, so the model accepts both.
- FeatureFlags.UserContext: the user object is modelled as its authentication flag, its id and a map of string attributes. `getattr` on anything else is not modelled.

What the code does, in four points a reader might expect otherwise:

- Registration answers with the user's id, username, email and rol. It does not include the token it issues.
- A soft delete answers 200 with no data.
- The listing's metadata is `count`, `page`, `offset` and `pages`. It has no `has_next` or `has_previous` entries.
- An inactive account fails login with the same "Credenciales inválidas" as a wrong password. There is no distinct "account disabled" answer.

`user_context` reads `email` and `role`. `Usuario` defines `email_usuario` and `rol` instead (`FeatureFlags.StoredUserHasNoEmailAttribute`). No caller of `user_context` is part of this model, so this is noted here rather than corrected.
