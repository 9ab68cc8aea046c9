# Passkey authentication plugin for Halo — a Dafny model

The plugin adds WebAuthn (Web Authentication Level 2) passkeys to the Halo
blog platform. A signed-in user registers a passkey. Anyone can sign in with
one. Each ceremony has two steps:

- **Options.** The server issues a 32-byte random challenge. It records the
  challenge in an in-memory *challenge ledger*. The key is the username
  (registration) or a random session id (authentication).
- **Verify.** The server takes the challenge back out of the ledger, so each
  challenge is single-use. It refuses a challenge older than 120 000 ms. It
  passes the browser's response to webauthn4j to check. Then it stores a new
  credential record, or the authenticator's new signature counter.

Binary values travel between browser and server as unpadded base64url text.
Section 5 of RFC 4648 defines that alphabet.

The model has these modules:

- `Base64`: the base 64 encoding of section 4 of RFC 4648 and the URL-safe
  alphabet of section 5. It has two decoders. One is the browser's forgiving
  decoder behind `atob`. The other is the strict URL decoder of
  `java.util.Base64`.
- `UsePasskey`: the browser helpers `base64UrlEncode` and `base64UrlDecode`.
  Both are loops over arrays. They are proved against the RFC definitions and
  against the server's codec.
- `Uri`: the small part of `java.net.URI` that the plugin needs, namely
  rejecting illegal characters and finding the host of an origin.
- `Credentials`: the `PasskeyCredential` record, `createCredential`, and the
  finders over the store. The class `PasskeyCredentialService` holds the
  store as a sequence of records. Its invariant is that credential ids are
  unique (the plugin declares that index unique) and that names are unique.
- `WebAuthnLib`: webauthn4j's `parse`/`verify` and its
  `AttestedCredentialDataConverter`, as abstract function values.
- `WebAuthn`: the class `WebAuthnService`, with the ledger as a `map` field,
  and the functions that specify each ceremony step.
- `Endpoint`: the HTTP handlers of `PasskeyEndpoint`. This covers the
  caller's username, the ownership gate, the display-name rule and the
  credential list.

The random bytes, the UUID text, the clock and the name the store generates
are all parameters of the methods.

Behaviour of the code that is easy to misread:

- **Expiry.** A challenge exactly 120 000 ms old is still accepted (the test is `>`).
- **Replay errors.** The plugin has no error of its own for a replay or a bad
  signature. Both surface as webauthn4j's exception (`Rejected`).
- **Missing principal.** A security context whose authentication is null
  does not give "用户未登录". `SecurityContext::getAuthentication` returns
  null inside a reactive `map`, so the call fails with a null-value error
  instead (`NullAuthentication`).
- **Trailing slash.** The pattern `"/$"` used by `replaceAll` would also match
  before a final line terminator. `java.net.URI` refuses line terminators,
  though. So once `extractRpId` has succeeded, exactly one final `/` is
  stripped, and `StripAfterExtract` proves it.

## Model

| member | source | states |
|---|---|---|
| Base64.DecodeEncode | ui/src/composables/usePasskey.ts:17-23 | decoding the padded section-4 encoding with the `atob` decoder gives back every byte sequence |
| Base64.DecodeEncodeQuanta | ui/src/composables/usePasskey.ts:17-23 | by induction on 3-byte groups: the unpadded characters decode to the bytes they encode |
| Base64.Encode | ui/src/composables/usePasskey.ts:17 | `btoa`'s output length is a multiple of 4, equal to 4·⌈n/3⌉ |
| Base64.EncodeQuanta | ui/src/composables/usePasskey.ts:17 | the unpadded encoded characters lie in the section-4 alphabet, and their number is never 1 mod 4 |
| Base64.EncodeQuantaLength | ui/src/composables/usePasskey.ts:17 | by induction on 3-byte groups: n bytes give ⌈4n/3⌉ characters, and the final quantum has 2 or 3 characters when n mod 3 is 1 or 2 |
| Base64.JavaUrlEncode | src/main/java/top/ilay/authpasskey/WebAuthnService.java:84 | `getUrlEncoder().withoutPadding()` yields only URL-safe characters, never '=', with length ⌈4n/3⌉ |
| Base64.JavaUrlDecode | src/main/java/top/ilay/authpasskey/WebAuthnService.java:141-143 | `getUrlDecoder()` fails on a character outside the URL alphabet or a 1-character final quantum, and succeeds on every unpadded URL-alphabet text whose length is not 1 mod 4 |
| Base64.JavaUrlRoundTrip | src/main/java/top/ilay/authpasskey/PasskeyCredentialService.java:114-115 | decoding with the server's URL decoder undoes its unpadded encoder for every byte sequence |
| Base64.JavaUrlEncodeInjective | src/main/java/top/ilay/authpasskey/PasskeyCredentialService.java:114 | different byte sequences never get the same stored credential id text |
| Base64.RemoveAllAppend | ui/src/composables/usePasskey.ts:17 | removing '=' distributes over concatenation |
| Base64.Btoa | ui/src/composables/usePasskey.ts:17 | `btoa` succeeds exactly on binary strings (every code unit below 256) |
| Base64.Atob | ui/src/composables/usePasskey.ts:23 | `atob` succeeds exactly when the forgiving decoder does, and yields one code unit per decoded byte |
| UsePasskey.Base64UrlEncode | ui/src/composables/usePasskey.ts:11-18 | the loop builds the binary string; the result is the section-4 encoding with '+' and '/' replaced and every '=' removed |
| UsePasskey.Base64UrlDecode | ui/src/composables/usePasskey.ts:20-29 | fails exactly when `atob` of the re-padded text fails; otherwise returns a fresh array holding one byte per decoded character, in order |
| UsePasskey.Padded | ui/src/composables/usePasskey.ts:21-22 | '-'→'+' and '_'→'/', then (4 − len mod 4) mod 4 '=' are appended, so the padded length is a multiple of 4 |
| UsePasskey.RestoredPadding | ui/src/composables/usePasskey.ts:21-22 | the '=' characters the decoder appends are exactly the padding the encoder removed |
| UsePasskey.EncodeUrlAlphabet | ui/src/composables/usePasskey.ts:17 | the encoder's output never contains '+', '/' or '=' |
| UsePasskey.EncodeUrlLength | ui/src/composables/usePasskey.ts:11-18 | encoding n bytes gives ⌈4n/3⌉ characters |
| UsePasskey.DecodeUrlEncodeUrl | ui/src/composables/usePasskey.ts:11-29 | `base64UrlDecode(base64UrlEncode(b)) == b` for every byte sequence |
| UsePasskey.EncodeUrlIsJavaUrlEncode | ui/src/composables/usePasskey.ts:11-18 | the browser encoder and the server's unpadded URL encoder produce the same text |
| UsePasskey.DecodeUrlJavaUrlEncode | src/main/java/top/ilay/authpasskey/WebAuthnService.java:84-88 | the browser decodes the server's challenge and user handle text back to the server's bytes |
| UsePasskey.JavaUrlDecodeEncodeUrl | src/main/java/top/ilay/authpasskey/WebAuthnService.java:141-143 | the server decodes every field the browser encodes back to the browser's bytes |
| Uri.Parse | src/main/java/top/ilay/authpasskey/WebAuthnService.java:61 | `new URI(origin)` succeeds only when the origin has no illegal character |
| Uri.ServerHost | src/main/java/top/ilay/authpasskey/WebAuthnService.java:62 | a host found in a server authority is non-empty and made of host-name characters |
| Credentials.CreateCredential | src/main/java/top/ilay/authpasskey/PasskeyCredentialService.java:94-132 | credentialId, publicKey and aaguid are exactly the unpadded base64url texts `getUrlEncoder().withoutPadding()` gives for the bytes, and each decodes back to them; aaguid and transports are null exactly when the arguments are; other fields are copied; createdAt is now; lastUsedAt is unset; generateName is "passkey-" |
| Credentials.FindByUsername | src/main/java/top/ilay/authpasskey/PasskeyCredentialService.java:32-37 | the result holds exactly the store's records with that username |
| Credentials.FindByCredentialId | src/main/java/top/ilay/authpasskey/PasskeyCredentialService.java:42-48 | empty exactly when no record has the id; otherwise a stored record with that id |
| Credentials.FoundCredentialIsUnique | src/main/java/top/ilay/authpasskey/AuthPasskeyPlugin.java:37-40 | under the unique credential-id index, the record found is the only one with that id |
| Credentials.FindByName | src/main/java/top/ilay/authpasskey/PasskeyCredentialService.java:53-55 | empty exactly when no record has the name; otherwise the stored record with that name |
| Credentials.UserCredentialIds | src/main/java/top/ilay/authpasskey/WebAuthnService.java:76-79 | an id is in the list exactly when some record of that user has it, and there is one id per record of that user |
| Credentials.WithSignatureCount | src/main/java/top/ilay/authpasskey/PasskeyCredentialService.java:85-87 | signatureCount becomes the new count (no comparison with the old one); lastUsedAt becomes now; every other field is unchanged |
| Credentials.SaveResult | src/main/java/top/ilay/authpasskey/PasskeyCredentialService.java:60-62 | creation succeeds exactly when neither the generated name nor the credential id is taken, and then keeps the store's unique indexes |
| Credentials.RemoveKeepsInvariant | src/main/java/top/ilay/authpasskey/PasskeyCredentialService.java:74-77 | removing a record keeps credential ids and names unique |
| Credentials.ReplaceKeepsInvariant | src/main/java/top/ilay/authpasskey/PasskeyCredentialService.java:67-69 | replacing a record by one with the same name and id keeps the indexes unique |
| Credentials.FoundByOwnName | src/main/java/top/ilay/authpasskey/AuthPasskeyPlugin.java:37-40 | a stored record is found under its own name, and no other record shares its credential id |
| Credentials.PasskeyCredentialService.Save | src/main/java/top/ilay/authpasskey/PasskeyCredentialService.java:60-62 | the result is `SaveResult`; the store grows by the named record exactly on success; the invariant is kept |
| Credentials.PasskeyCredentialService.Update | src/main/java/top/ilay/authpasskey/PasskeyCredentialService.java:67-69 | succeeds exactly for an existing name whose credential id no other record holds, and then replaces that record |
| Credentials.PasskeyCredentialService.Delete | src/main/java/top/ilay/authpasskey/PasskeyCredentialService.java:74-77 | returns `findByName(name)`; the store loses that record, or is unchanged when there is none |
| Credentials.PasskeyCredentialService.UpdateSignatureCount | src/main/java/top/ilay/authpasskey/PasskeyCredentialService.java:82-89 | for an unknown id: empty, nothing changes; otherwise the first record with the id is replaced by `WithSignatureCount` of it and returned |
| WebAuthn.ExtractRpId | src/main/java/top/ilay/authpasskey/WebAuthnService.java:56-70 | a null or empty origin fails with "请求缺少 origin 参数"; an unparsable one with "无效的 origin 格式"; one without a host with "无法从 origin 解析域名"; otherwise the result is the URI's host |
| WebAuthn.StripAfterExtract | src/main/java/top/ilay/authpasskey/WebAuthnService.java:136-137 | after `extractRpId` succeeded, `replaceAll("/$", "")` removes exactly one final '/' and nothing else |
| WebAuthn.StripTrailingSlash | src/main/java/top/ilay/authpasskey/WebAuthnService.java:268 | the expected origin loses at most one character |
| WebAuthn.ExtractRpIdOfServerOrigin | src/main/java/top/ilay/authpasskey/WebAuthnService.java:56-70 | for `scheme://host` and `scheme://host/` the rp id is the host, and the expected origin is `scheme://host` |
| WebAuthn.AuthorityHost | src/main/java/top/ilay/authpasskey/WebAuthnService.java:62 | the authority `//host` or `//host/` yields that host |
| WebAuthn.CheckChallenge | src/main/java/top/ilay/authpasskey/WebAuthnService.java:128-134 | accepts exactly an entry that exists and is at most 120000 ms old (exactly 120000 passes); a missing entry gives the not-found error; an old one gives "挑战已过期" |
| WebAuthn.Cleaned | src/main/java/top/ilay/authpasskey/WebAuthnService.java:325-330 | keeps exactly the entries at most 300000 ms old, with their data unchanged |
| WebAuthn.CleanupKeepsVerdicts | src/main/java/top/ilay/authpasskey/WebAuthnService.java:325-330 | at any later time, cleanup never changes whether verification accepts a key's challenge, nor what it accepts |
| WebAuthn.RegistrationOptionsFor | src/main/java/top/ilay/authpasskey/WebAuthnService.java:82-110 | both server and browser decode the challenge and user id text to the issued bytes; rp is (rpId, "Halo"); user displayName defaults to the username; the exclude list is the given one; selection is (null, "preferred", "preferred"); timeout 60000; algorithms −7 and −257 of type "public-key" |
| WebAuthn.AuthenticationOptionsFor | src/main/java/top/ilay/authpasskey/WebAuthnService.java:223-239 | the challenge text decodes to the issued bytes; the options carry the rp id, allow list and session id; timeout 60000; userVerification "preferred" |
| WebAuthn.AllowCredentials | src/main/java/top/ilay/authpasskey/WebAuthnService.java:211-218 | with a non-null, non-empty username, exactly that user's credential ids; otherwise empty |
| WebAuthn.DecodeParameter | src/main/java/top/ilay/authpasskey/WebAuthnService.java:141-143 | fails exactly when the URL decoder throws |
| WebAuthn.DecodeOptional | src/main/java/top/ilay/authpasskey/WebAuthnService.java:276 | a null user handle is not decoded and gives null |
| WebAuthn.PrepareRegistration | src/main/java/top/ilay/authpasskey/WebAuthnService.java:127-203 | a missing entry gives "未找到用户的挑战信息"; an expired one gives "挑战已过期"; then come origin errors, then an undecodable parameter gives the decoder's error; a record results only after all of these pass, and once they pass the outcome is exactly the library step for the parameters built from the removed challenge and the stripped origin |
| WebAuthn.RegisterResponse | src/main/java/top/ilay/authpasskey/WebAuthnService.java:145-203 | a parse failure and a failed verify give the library's message, and missing attested data gives "未找到凭证数据"; a record results exactly when parse succeeded, verify passed and attested data is present; it stores the encoded credential id, the encoded serialized attested data and aaguid, the sign count and the UV/BE/BS flags; discoverable=true; displayName defaults to "Passkey" |
| WebAuthn.PrepareAuthentication | src/main/java/top/ilay/authpasskey/WebAuthnService.java:258-316 | a missing entry gives "会话挑战信息不存在"; an expired one gives "挑战已过期"; then come origin errors, the decoder's error and a converter failure; once these pass, the presented credential id, user handle, authenticator data, client data and signature are parsed and verified with the removed challenge, the stripped origin, the stored counter, flags and key and the presented id as the only allowed one; a parse or verify failure gives the library's message, and a pass gives the reported sign count |
| WebAuthn.SignCountAdvances | src/main/java/top/ilay/authpasskey/WebAuthnService.java:297 | assuming the library enforces the counter rule, the count that becomes the stored counter exceeds the old one unless both are zero |
| WebAuthn.RegisteredKeyRestored | src/main/java/top/ilay/authpasskey/WebAuthnService.java:173-281 | assuming the converter round-trips, authentication loads exactly the attested data that registration stored |
| WebAuthn.RegisteredPasskeyIsFound | src/main/java/top/ilay/authpasskey/WebAuthnService.java:141-255 | a passkey registered from the browser's base64url text of its raw id is stored under that same text, so looking that text up finds the saved record |
| WebAuthn.WebAuthnService.GenerateRegistrationOptions | src/main/java/top/ilay/authpasskey/WebAuthnService.java:75-112 | fails exactly when `extractRpId` does, leaving the ledger unchanged; otherwise the ledger maps the username to (challenge, userId, now), replacing any earlier entry, and the options are `RegistrationOptionsFor` with the user's credential ids excluded |
| WebAuthn.WebAuthnService.VerifyRegistration | src/main/java/top/ilay/authpasskey/WebAuthnService.java:117-205 | the username's entry is removed whatever happens; the store is unchanged unless `PrepareRegistration` succeeds and the store accepts the record, which is then appended |
| WebAuthn.WebAuthnService.GenerateAuthenticationOptions | src/main/java/top/ilay/authpasskey/WebAuthnService.java:210-241 | fails exactly when `extractRpId` does; otherwise the session id is the unpadded base64url text of the UUID bytes (and decodes back to them) and the ledger maps it to (challenge, null, now) |
| WebAuthn.WebAuthnService.VerifyAuthentication | src/main/java/top/ilay/authpasskey/WebAuthnService.java:246-320 | an unknown credential id fails with "凭证不存在" and leaves the ledger and the store alone; otherwise the session entry is removed, and on success the credential's counter becomes exactly the reported sign count and lastUsedAt becomes now |
| WebAuthn.WebAuthnService.CleanupExpiredChallenges | src/main/java/top/ilay/authpasskey/WebAuthnService.java:325-330 | the ledger becomes `Cleaned` of the old ledger |
| WebAuthn.RegistrationChallengeIsSingleUse | src/main/java/top/ilay/authpasskey/WebAuthnService.java:127-130 | a second registration verification for the same user always fails with "未找到用户的挑战信息" |
| WebAuthn.AuthenticationChallengeIsSingleUse | src/main/java/top/ilay/authpasskey/WebAuthnService.java:255-261 | replaying an authentication for the same session always fails: "会话挑战信息不存在", or "凭证不存在" when the credential was unknown |
| Endpoint.CurrentUsername | src/main/java/top/ilay/authpasskey/PasskeyEndpoint.java:221-227 | yields the name exactly for an authenticated principal; no context or an unauthenticated one gives "用户未登录"; a null authentication fails on the null value |
| Endpoint.OwnedCredential | src/main/java/top/ilay/authpasskey/PasskeyEndpoint.java:184-188 | the record with the name, exactly when it exists and belongs to the caller; otherwise "凭证不存在或无权访问" |
| Endpoint.OwnerGateIff | src/main/java/top/ilay/authpasskey/PasskeyEndpoint.java:199-201 | under unique names, the gate opens exactly when some record with the name belongs to the caller |
| Endpoint.Renamed | src/main/java/top/ilay/authpasskey/PasskeyEndpoint.java:205-207 | a null display name changes nothing; otherwise only displayName changes |
| Endpoint.InfoOf | src/main/java/top/ilay/authpasskey/PasskeyEndpoint.java:163-173 | null transports become the empty list; a null lastUsedAt stays null; the other fields are copied |
| Endpoint.ListCredentials | src/main/java/top/ilay/authpasskey/PasskeyEndpoint.java:160-179 | fails exactly when there is no caller; otherwise one entry per record of the caller, in order |
| Endpoint.ListedAreOwned | src/main/java/top/ilay/authpasskey/PasskeyEndpoint.java:160-174 | every listed entry describes a record the caller owns |
| Endpoint.PasskeyEndpoint.GetRegistrationOptions | src/main/java/top/ilay/authpasskey/PasskeyEndpoint.java:60-78 | without a caller the ledger is unchanged; otherwise it fails exactly on a bad origin, with the origin error and the ledger unchanged, and on success the options are `RegistrationOptionsFor` the caller with the request's displayName or else the username, and the caller's challenge is recorded |
| Endpoint.PasskeyEndpoint.VerifyRegistration | src/main/java/top/ilay/authpasskey/PasskeyEndpoint.java:80-105 | without a caller nothing changes; otherwise the caller's entry is removed, the outcome is `PrepareRegistration` then `SaveResult`, the store is unchanged on any failure, and on success exactly the saved record is appended and its name, credential id and display name are returned |
| Endpoint.PasskeyEndpoint.GetAuthenticationOptions | src/main/java/top/ilay/authpasskey/PasskeyEndpoint.java:107-119 | an absent body counts as (null, null); fails exactly on a bad origin, with the origin error and the ledger unchanged; otherwise the options are `AuthenticationOptionsFor` with the `AllowCredentials` of the requested username, the session id decodes to the UUID bytes and its challenge is recorded |
| Endpoint.PasskeyEndpoint.VerifyAuthentication | src/main/java/top/ilay/authpasskey/PasskeyEndpoint.java:121-158 | an unknown credential fails with "凭证不存在" and changes nothing; otherwise the session entry is removed, the outcome is `PrepareAuthentication`, a failure leaves the store unchanged, and a success stores `WithSignatureCount` of the record and reports its owner, its name and verified=true |
| Endpoint.PasskeyEndpoint.DeleteCredential | src/main/java/top/ilay/authpasskey/PasskeyEndpoint.java:181-194 | a caller who is missing or is not the owner gets an error and the store is unchanged; the owner always succeeds, and exactly the named record is removed |
| Endpoint.PasskeyEndpoint.UpdateCredential | src/main/java/top/ilay/authpasskey/PasskeyEndpoint.java:196-219 | a caller who is missing or is not the owner gets an error and nothing changes; the owner always succeeds, and the named record becomes `Renamed` of itself |

## Left out

- Concurrency. `ConcurrentHashMap` atomicity and the store's optimistic
  locking are not modelled. The ledger is a sequential map, and every
  reactive chain is one sequential step returning a success or an error.
- webauthn4j. Parsing, CBOR/COSE decoding, signature checks and the counter
  check are abstract functions. Counter monotonicity is only an assumption
  (`EnforcesSignCounter`). The converter's round trip is also only an
  assumption (`ConverterRoundTrips`). `new Origin(originStr)` is modelled as
  the plain string, so its own validation is not modelled.
- `java.net.URI` is simplified. The model covers:
  - illegal characters;
  - the scheme;
  - an authority of `[userinfo@]host[:port]` with host characters
    letters/digits/'-'/'.'.

  It does not cover IPv6 literals (the model refuses '[' and ']'), percent
  escapes, host-label rules or the other registry-based authorities.
- The `atob` decoder does not strip ASCII whitespace. `base64UrlDecode` is
  only fed base64url text.
- Integer widths. `signatureCount` is a Java `long` and `now - createdAt` is
  `long` arithmetic. Both are unbounded integers here, so wrap-around is not
  modelled.
- The clock. Each operation takes one `now`. The source reads the clock
  separately in `verifyRegistration` and in `createCredential`, and again in
  `updateSignatureCount`.
- Instants are not formatted as ISO-8601 text in the list response.
- Random data. `SecureRandom` bytes and the `UUID.randomUUID()` text bytes
  are parameters. The store's generated name (from "passkey-") is a
  parameter of `Save` and `VerifyRegistration`.
- The extension store itself. Its `get` may signal a missing name as an
  error, with its own message, instead of as an empty result. The model
  treats it as empty, so a missing name gives "凭证不存在或无权访问". In both
  cases the call fails and the store is unchanged. The store is also
  assumed never to fail for other reasons.
- Null Java arguments. A null verify-request field or a null username
  (Java NPEs) is not modelled, and neither is a request body that is
  missing for a verify call or an update (an empty response). A null origin and null
  optional fields are modelled.
- Endpoint side effects. The `userDetailsService` lookup and the saving of
  the security context after authentication are not modelled, nor are
  HTTP status codes and JSON bodies. Errors are returned as values with
  their messages.
- In-place updates. `updateSignatureCount` and `updateCredential` change
  the fetched record in place before `update`. The model builds the
  updated record value (`WithSignatureCount`, `Renamed`) and replaces it in
  the store.
- The Vue state, axios calls and `navigator.credentials` glue of
  `usePasskey` are not modelled.
- `AuthPasskeyPlugin` lifecycle, `PasskeyAuthenticationWebFilter` and
  `PasskeyConfiguration` are not part of this model. The credential-id
  index declared unique at `AuthPasskeyPlugin.java:37-40` is modelled as
  `StoreInvariant`.
