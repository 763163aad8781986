# Step-up authentication gate and user table

This project models the backend of a small Spring Boot service that protects
some of its endpoints with OpenID Connect step-up authentication. It has two
parts.

- **The step-up gate.** `StepupAuthenticationInterceptor.preHandle` runs before
  every request handler. A controller method annotated `@StepupAuthentication`
  may run only when the caller's JWT has the `acr` claim with the exact value
  `"2"`.
  - With no JWT, or a JWT without that claim, the response gets status 403.
  - With any other `acr` value, the response gets status 412, content type
    `application/json` and a body. The body carries the URL of the identity
    provider's authorization endpoint (OpenID Connect Core 1.0, section
    3.1.2.1). That URL asks for `acr_values=2` and has a `redirect_uri` built
    from the `referer` and `x-api-cb` request headers, each `"/"` when absent.
    The `redirect_uri` is encoded with the `application/x-www-form-urlencoded`
    byte serializer (WHATWG URL Standard, section 5.2; HTML 4.01, section
    17.13.4.1), which is what `URLEncoder.encode(…, UTF_8)` does.
- **The user table.** `UserRepository` is an in-memory map from e-mail to user.
  It is seeded with two users and changed in place by create, update and
  delete.

Modules:

- `Wrappers`: `Option`, which stands in for Java's `Optional` and for `null`.
- `FormUrlEncoding`: the serializer `Encode` on UTF-8 bytes. Its partner is an
  independent decoder, `FormDecode`.
- `QueryString`: a writer, `JoinQuery`, and a reader, `QueryParameter`, for URL
  queries. The reader is used to show which value each parameter of the
  challenge URL carries.
- `StepupAuthentication`: the request data the gate sees, and the pure
  decision `Decide` with its helpers. Also the class
  `StepupAuthenticationInterceptor`, whose `PreHandle` applies the decision to
  a mutable `HttpResponse` through the same early-return branches as the
  source.
- `Repository`: the class `UserRepository`, which has a `map` field. The
  functions `Created`, `Updated` and `Deleted` state each operation's new
  table. Its invariant is that every key is the e-mail of the user stored
  under it.

Framework inputs become explicit parameters:

- which handler the request goes to, as `Handler`;
- the thread's security context, as `Option<SecurityContext>`;
- the two headers, as `Option` of the UTF-8 bytes of their values;
- the configured issuer URI and client id.

## Model

| member | source | states |
|---|---|---|
| StepupAuthentication.GetAuthorizationToken | backend/src/main/java/com/reservoircode/stepupauth/config/stepup/StepupAuthenticationInterceptor.java:86-92 | A token is returned exactly when there is a context with an authentication whose principal is a JWT, and it is that JWT. Otherwise the context, the authentication or the principal is missing, or the principal is not a JWT. |
| StepupAuthentication.GetAcrClaim | backend/src/main/java/com/reservoircode/stepupauth/config/stepup/StepupAuthenticationInterceptor.java:94-97 | The claim is present exactly when the token has an `acr` claim, and then it is that claim's value. |
| StepupAuthentication.AcrClaimOf | backend/src/main/java/com/reservoircode/stepupauth/config/stepup/StepupAuthenticationInterceptor.java:57-70 | The `acr` value the gate sees is present exactly when both the JWT and its claim are. |
| StepupAuthentication.RedirectTarget | backend/src/main/java/com/reservoircode/stepupauth/config/stepup/StepupAuthenticationInterceptor.java:104-105 | The redirect target is the `referer` value (or `"/"`) followed immediately by the `x-api-cb` value (or `"/"`). Its first part is exactly the first, its rest is exactly the second, and its length is the sum of both. It is `"//"` when both headers are absent. |
| StepupAuthentication.AuthenticationUrlTemplate | backend/src/main/java/com/reservoircode/stepupauth/config/stepup/StepupAuthenticationInterceptor.java:28 | The filled template is exactly `issuer + "/protocol/openid-connect/auth?client_id=" + client + "&redirect_uri=" + redirect + "&response_type=code&response_mode=query&scope=openid&acr_values=" + level`, in that fixed order. It starts with the issuer URI and ends with `acr_values=` and the level. |
| StepupAuthentication.AuthenticationUrlParameters | backend/src/main/java/com/reservoircode/stepupauth/config/stepup/StepupAuthenticationInterceptor.java:28 | Reading the query of the filled template gives the client id, the redirect URI and the level as `client_id`, `redirect_uri` and `acr_values`. This holds when the issuer URI has no `?` and no value has `&`. |
| StepupAuthentication.BuildSteppedUpAuthenticationUrl | backend/src/main/java/com/reservoircode/stepupauth/config/stepup/StepupAuthenticationInterceptor.java:99-109 | The URL is the template filled with the issuer URI, the client id, `Encode(referer ++ x-api-cb)` and `"2"`. It starts with the issuer URI and ends with `acr_values=2`. When the issuer URI has no `?` and the client id no `&`, its query reads back: `client_id` is the client id, `acr_values` is `"2"`, and `redirect_uri` decodes to exactly the redirect target. |
| StepupAuthentication.Decide | backend/src/main/java/com/reservoircode/stepupauth/config/stepup/StepupAuthenticationInterceptor.java:45-84 | An unmarked handler, or one that is not a handler method, gives Allow. On a marked one, Deny happens iff the JWT or its `acr` claim is missing. Allow happens iff the claim is exactly `"2"`. Challenge happens iff the claim is present and differs, and then its URL is the built re-authentication URL. So the three cases never overlap. |
| StepupAuthentication.ChallengeUrlContents | backend/src/main/java/com/reservoircode/stepupauth/config/stepup/StepupAuthenticationInterceptor.java:75-83 | When a marked handler sees a present `acr` claim other than `"2"`, the decision is a Challenge, for any configuration. Its URL is the template filled with the issuer URI, the client id, the encoded redirect target and `"2"`. It starts with the issuer URI and ends with `acr_values=2`. The encoded redirect target decodes to the `referer` header (or `"/"`) followed by the `x-api-cb` header (or `"/"`). When the issuer URI has no `?` and the client id no `&`, reading the query also gives back `client_id`, `acr_values=2` and that `redirect_uri`. |
| StepupAuthentication.DefaultRedirectUri | backend/src/main/java/com/reservoircode/stepupauth/config/stepup/StepupAuthenticationInterceptor.java:104-106 | With neither header, the `redirect_uri` value is `"%2F%2F"`. |
| StepupAuthentication.DecisionExamples | backend/src/main/java/com/reservoircode/stepupauth/config/stepup/StepupAuthenticationInterceptor.java:57-74 | On a marked handler, a JWT with `acr = "2"` is allowed, and a missing security context is denied. |
| StepupAuthentication.StepupAuthenticationInterceptor.constructor | backend/src/main/java/com/reservoircode/stepupauth/config/stepup/StepupAuthenticationInterceptor.java:35-38 | The interceptor holds the issuer URI and client id it is configured with. |
| StepupAuthentication.StepupAuthenticationInterceptor.PreHandle | backend/src/main/java/com/reservoircode/stepupauth/config/stepup/StepupAuthenticationInterceptor.java:45-84 | It returns true exactly when the decision is Allow, and then the response is untouched. On Deny the status is 403 and nothing else changes. On Challenge the status is 412, the content type is `application/json`, and one body holding `PRECONDITION_FAILED` and the challenge URL is appended. |
| FormUrlEncoding.EncodeByte | backend/src/main/java/com/reservoircode/stepupauth/config/stepup/StepupAuthenticationInterceptor.java:106 | An unreserved byte is written as itself, a space as `+`, and any other byte as three characters starting with `%`. Every result is well-formed encoded text and decodes back to the byte. |
| FormUrlEncoding.Encode | backend/src/main/java/com/reservoircode/stepupauth/config/stepup/StepupAuthenticationInterceptor.java:106 | The output only uses `A-Z a-z 0-9 . - * _ +` and `%` followed by two upper-case hex digits. It is at least as long as the input and at most three times as long. |
| FormUrlEncoding.DecodeEncode | backend/src/main/java/com/reservoircode/stepupauth/config/stepup/StepupAuthenticationInterceptor.java:106 | Decoding the encoder's output gives back exactly the input bytes. |
| FormUrlEncoding.EncodeInjective | backend/src/main/java/com/reservoircode/stepupauth/config/stepup/StepupAuthenticationInterceptor.java:106 | Different inputs never have the same encoding. |
| FormUrlEncoding.EncodeConcat | backend/src/main/java/com/reservoircode/stepupauth/config/stepup/StepupAuthenticationInterceptor.java:106 | Encoding works byte by byte: the encoding of a concatenation is the concatenation of the encodings. |
| FormUrlEncoding.EncodeUnreserved | backend/src/main/java/com/reservoircode/stepupauth/config/stepup/StepupAuthenticationInterceptor.java:106 | Input made only of unreserved bytes is written unchanged, one character per byte. |
| FormUrlEncoding.EncodeSpace | backend/src/main/java/com/reservoircode/stepupauth/config/stepup/StepupAuthenticationInterceptor.java:106 | A space anywhere in the input becomes `+` at the matching place in the output. |
| FormUrlEncoding.FormEncodedHasNoDelimiters | backend/src/main/java/com/reservoircode/stepupauth/config/stepup/StepupAuthenticationInterceptor.java:106-108 | Encoded text has no `&`, `=` or `?`. So the encoded redirect target fills exactly one query value of the template. |
| QueryString.LookupJoinQuery | backend/src/main/java/com/reservoircode/stepupauth/config/stepup/StepupAuthenticationInterceptor.java:28 | Reading a query written from delimiter-free fields gives, for each name, the value of its first field. |
| QueryString.JoinSixFields | backend/src/main/java/com/reservoircode/stepupauth/config/stepup/StepupAuthenticationInterceptor.java:28 | A six-field query is written as `n0=v0&n1=v1&…&n5=v5`. |
| QueryString.JoinQueryEndsWithLast | backend/src/main/java/com/reservoircode/stepupauth/config/stepup/StepupAuthenticationInterceptor.java:28 | A written query ends with its last field. |
| Repository.Created | backend/src/main/java/com/reservoircode/stepupauth/repository/UserRepository.java:26-28 | After `put(u.email, u)`, `u.email` maps to `u`, overwriting any earlier entry. The keys gain only `u.email`, and every other key keeps its user. |
| Repository.Updated | backend/src/main/java/com/reservoircode/stepupauth/repository/UserRepository.java:30-33 | After `remove(e)` then `put(u.email, u)`, `u.email` maps to `u`, and `e` is gone unless it equals `u.email`. The keys are the old ones without `e`, plus `u.email`. Every other key keeps its user. |
| Repository.Deleted | backend/src/main/java/com/reservoircode/stepupauth/repository/UserRepository.java:35-37 | After `remove(e)`, `e` is gone and every other key keeps its user. |
| Repository.UpdateOfAbsentIsCreate | backend/src/main/java/com/reservoircode/stepupauth/repository/UserRepository.java:30-33 | Updating under an e-mail that is not in the table has the same effect as creating. |
| Repository.UpdateInPlaceIsCreate | backend/src/main/java/com/reservoircode/stepupauth/repository/UserRepository.java:30-33 | Updating a user under its own e-mail has the same effect as creating it. |
| Repository.DeleteIdempotent | backend/src/main/java/com/reservoircode/stepupauth/repository/UserRepository.java:35-37 | Deleting twice has the same effect as deleting once. |
| Repository.OperationsKeepKeyedByEmail | backend/src/main/java/com/reservoircode/stepupauth/repository/UserRepository.java:12-37 | Create, update and delete each keep every user stored under its own e-mail. |
| Repository.UserRepository.constructor | backend/src/main/java/com/reservoircode/stepupauth/repository/UserRepository.java:14-20 | After construction the keys are exactly `foo@gmail.com` and `bar@gmail.com`, each mapped to a user with that e-mail and no id. The invariant holds. |
| Repository.UserRepository.GetUserByEmail | backend/src/main/java/com/reservoircode/stepupauth/repository/UserRepository.java:22-24 | A user comes back exactly when the e-mail is a key, and it is the stored user, whose e-mail under the invariant is the one asked for. The table does not change, because the method modifies nothing. |
| Repository.UserRepository.CreateUserByEmail | backend/src/main/java/com/reservoircode/stepupauth/repository/UserRepository.java:26-28 | The new table is `Created(old table, u)`, and the invariant is kept. |
| Repository.UserRepository.UpdateUserByEmail | backend/src/main/java/com/reservoircode/stepupauth/repository/UserRepository.java:30-33 | The new table is `Updated(old table, e, u)`, and the invariant is kept. |
| Repository.UserRepository.DeleteUserByEmail | backend/src/main/java/com/reservoircode/stepupauth/repository/UserRepository.java:35-37 | The new table is `Deleted(old table, e)`, and the invariant is kept. |

## Left out

- Spring wiring: the interceptor registration, `@Value` injection, the thread-local `SecurityContextHolder` lookup and the annotation reflection. Each becomes an explicit parameter. StepupAuthenticationInterceptorConfig.java is not part of this model.
- The `log.warn` and `log.info` calls. They are diagnostics only and change no state.
- Jackson serialization of `ResponseDto`, the output-stream write and its `IOException`. The body is kept as the `ResponseDto` value appended to the response. Jackson writes a Java enum by its name, so the JSON most likely holds `"status":"PRECONDITION_FAILED"` rather than the number 412. The model keeps the status as the enum constant `PreconditionFailed` for that reason.
- JWT signature checks and claim values that are not strings. Verification happens upstream, and a claim is modelled as an optional string.
- The conversion of a Java `String` to UTF-8 inside `URLEncoder`, including the charset the servlet container uses for header values and lone surrogates. Header values are taken as their UTF-8 bytes.
- Case-insensitive header-name lookup. Each header is given directly as present or absent.
- UserResource.java and UserView.java, a controller and a field-copying mapper with no logic of their own.
- Concurrency, including the unsynchronized `HashMap` and the aliasing of mutable `User` objects. Users are values, and calls are single-threaded.
- User.java is not part of this model. A user is its e-mail and an optional integer id that the table never reads.
- BuildSteppedUpAuthenticationUrl: its read-back of `client_id`, `acr_values` and `redirect_uri` holds only when the issuer URI has no `?` and the client id no `&`. The source inserts both unencoded, so other values would change where the query starts or where fields end.
- ChallengeUrlContents: reading the challenge URL's query back by parameter name is promised only when the issuer URI has no `?` and the client id no `&`, for the same reason. The URL's exact text and the decoding of its redirect target hold for every configuration.
- FormDecode: it is a stricter partner than `URLDecoder`, because it rejects non-ASCII characters. It is only used to state the round trip.
