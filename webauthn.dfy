/** The ceremony controller `WebAuthnService`: it issues registration and
    authentication options, records each issued challenge in a ledger keyed
    by username (registration) or by a random session id (authentication),
    and verifies the browser's response against the challenge it takes back
    out of the ledger. Random bytes, the UUID text and the clock are
    parameters; webauthn4j is the abstract `WebAuthnManager`. */
module WebAuthn {
  import opened Wrappers
  import opened Base64
  import Uri
  import UsePasskey
  import opened Credentials
  import opened WebAuthnLib

  /** A challenge older than this many milliseconds is refused. */
  const ChallengeTtlMillis := 120000
  /** The periodic cleanup drops entries older than this many milliseconds. */
  const ChallengeRetentionMillis := 300000
  const CeremonyTimeoutMillis := 60000
  const RpName := "Halo"

  /** The 32 random bytes of a challenge or a user handle. */
  type Bytes32 = s: seq<Byte> | |s| == 32 witness seq(32, _ => 0)

  datatype Error =
    | MissingOrigin
    | NoHost(origin: string)
    | InvalidOrigin(origin: string)
    | ChallengeNotFound(username: string)
    | SessionChallengeNotFound
    | ChallengeExpired
    | IllegalBase64
    | Rejected(reason: string)
    | MissingCredentialData
    | CredentialNotFound
    | StoreRejected(storeError: StoreError)
  {
    /** The message of the exception the service throws itself; None for the
        errors raised inside the decoder and the store, whose text is theirs. */
    function Message(): Option<string> {
      match this
      case MissingOrigin => Some("请求缺少 origin 参数")
      case NoHost(origin) => Some("无法从 origin 解析域名: " + origin)
      case InvalidOrigin(origin) => Some("无效的 origin 格式: " + origin)
      case ChallengeNotFound(username) => Some("未找到用户的挑战信息: " + username)
      case SessionChallengeNotFound => Some("会话挑战信息不存在")
      case ChallengeExpired => Some("挑战已过期")
      case IllegalBase64 => None
      case Rejected(reason) => Some(reason)
      case MissingCredentialData => Some("未找到凭证数据")
      case CredentialNotFound => Some("凭证不存在")
      case StoreRejected(_) => None
    }
  }

  // ----- Origin handling -----

  /** `extractRpId`: the host of the origin. */
  function ExtractRpId(origin: Option<string>): (r: Result<string, Error>)
    ensures origin.None? || origin.value == "" ==> r == Failure(MissingOrigin)
    ensures origin.Some? && origin.value != "" && Uri.Parse(origin.value).Failure? ==> r == Failure(InvalidOrigin(origin.value))
    ensures origin.Some? && origin.value != "" && Uri.Parse(origin.value).Success?
            && (Uri.Parse(origin.value).value.host.None? || Uri.Parse(origin.value).value.host.value == "")
            ==> r == Failure(NoHost(origin.value))
    ensures r.Success? <==>
      && origin.Some? && Uri.Parse(origin.value).Success?
      && Uri.Parse(origin.value).value.host.Some? && Uri.Parse(origin.value).value.host.value != ""
    ensures r.Success? ==> r.value == Uri.Parse(origin.value).value.host.value
    ensures r.Success? ==> forall i | 0 <= i < |origin.value| :: !Uri.IsIllegalChar(origin.value[i])
  {
    if origin.None? || origin.value == "" then Failure(MissingOrigin)
    else match Uri.Parse(origin.value)
      case Failure(_) => Failure(InvalidOrigin(origin.value))
      case Success(uri) =>
        if uri.host.None? || uri.host.value == "" then Failure(NoHost(origin.value))
        else Success(uri.host.value)
  }

  /** The line terminators of `java.util.regex` outside UNIX_LINES mode. */
  predicate IsLineTerminator(c: char) {
    c == '\n' || c == '\r' || c == '\U{85}' || c == '\U{2028}' || c == '\U{2029}'
  }

  /** `s.replaceAll("/$", "")`: without MULTILINE, `$` matches at the end of
      the input and also before one final line terminator, so the '/' that
      ends the text or stands just before its final terminator is removed. */
  function StripTrailingSlash(s: string): (r: string)
    ensures |s| - 1 <= |r| <= |s|
  {
    var n := |s|;
    if n >= 1 && s[n - 1] == '/' then s[..n - 1]
    else if n >= 3 && s[n - 3..] == "/\r\n" then s[..n - 3] + "\r\n"
    else if n >= 2 && s[n - 2] == '/' && IsLineTerminator(s[n - 1]) then s[..n - 2] + [s[n - 1]]
    else s
  }

  /** Once `extractRpId` accepted the origin it holds no line terminator, so
      the expected origin is the origin with at most one final '/' removed. */
  lemma StripAfterExtract(origin: string)
    requires ExtractRpId(Some(origin)).Success?
    ensures StripTrailingSlash(origin) ==
      if |origin| > 0 && origin[|origin| - 1] == '/' then origin[..|origin| - 1] else origin
  {
    var n := |origin|;
    if n >= 1 && origin[n - 1] != '/' {
      LastCharIsNoTerminator(origin);
      if n >= 3 {
        assert origin[n - 3..][2] == origin[n - 1];
      }
    }
  }

  /** An origin `extractRpId` accepted does not end in a line terminator. */
  lemma LastCharIsNoTerminator(origin: string)
    requires ExtractRpId(Some(origin)).Success? && |origin| >= 1
    ensures !IsLineTerminator(origin[|origin| - 1])
  {
    assert !Uri.IsIllegalChar(origin[|origin| - 1]);
  }

  /** A server origin `scheme://host` or `scheme://host/` yields its host as
      the rp id, and the expected origin is the one without the '/'. */
  lemma ExtractRpIdOfServerOrigin(scheme: string, host: string, slash: bool)
    requires Uri.IsScheme(scheme)
    requires |host| > 0 && forall i | 0 <= i < |host| :: Uri.IsHostChar(host[i])
    ensures var origin := scheme + "://" + host + (if slash then "/" else "");
      && ExtractRpId(Some(origin)) == Success(host)
      && StripTrailingSlash(origin) == scheme + "://" + host
  {
    var tail := if slash then "/" else "";
    var origin := scheme + "://" + host + tail;
    ServerOriginParses(scheme, host, tail);
    assert ExtractRpId(Some(origin)) == Success(host);
    StripAfterExtract(origin);
    if slash {
      assert origin[..|origin| - 1] == scheme + "://" + host;
    } else {
      assert origin[|origin| - 1] == host[|host| - 1];
    }
  }

  lemma ServerOriginParses(scheme: string, host: string, tail: string)
    requires Uri.IsScheme(scheme)
    requires |host| > 0 && forall i | 0 <= i < |host| :: Uri.IsHostChar(host[i])
    requires tail == "" || tail == "/"
    ensures Uri.Parse(scheme + "://" + host + tail) == Success(Uri.ParsedUri(Some(scheme), Some(host)))
  {
    var origin := scheme + "://" + host + tail;
    var rest := "://" + host + tail;
    assert origin == scheme + rest;
    ServerOriginLegal(scheme, host, tail);
    Uri.IndexOfAnyAfter(scheme, rest, ":/?#");
    var p := |scheme|;
    assert origin[..p] == scheme;
    assert origin[p + 1..] == "//" + host + tail;
    AuthorityHost(scheme, host, tail);
  }

  lemma AuthorityHost(scheme: string, host: string, tail: string)
    requires |host| > 0 && forall i | 0 <= i < |host| :: Uri.IsHostChar(host[i])
    requires tail == "" || tail == "/"
    ensures Uri.ParseHierarchical(Some(scheme), "//" + host + tail) == Success(Uri.ParsedUri(Some(scheme), Some(host)))
  {
    var rest := "//" + host + tail;
    assert rest[..2] == "//";
    assert rest[2..] == host + tail;
    assert Uri.IndexOfAny(rest[2..], "/?#") == |host| by {
      if tail == "/" {
        Uri.IndexOfAnyAfter(host, tail, "/?#");
      } else {
        assert host + tail == host;
      }
    }
    assert rest[2..2 + |host|] == host;
    Uri.ServerHostOfHostName(host);
  }

  lemma ServerOriginLegal(scheme: string, host: string, tail: string)
    requires Uri.IsScheme(scheme)
    requires forall i | 0 <= i < |host| :: Uri.IsHostChar(host[i])
    requires tail == "" || tail == "/"
    ensures !exists i | 0 <= i < |scheme + "://" + host + tail| :: Uri.IsIllegalChar((scheme + "://" + host + tail)[i])
  {
    var origin := scheme + "://" + host + tail;
    forall i | 0 <= i < |origin| ensures !Uri.IsIllegalChar(origin[i]) {
      if i < |scheme| {
        assert origin[i] == scheme[i];
      } else if i < |scheme| + 3 + |host| && i >= |scheme| + 3 {
        assert origin[i] == host[i - |scheme| - 3];
      }
    }
  }

  // ----- The challenge ledger -----

  datatype ChallengeData = ChallengeData(challenge: seq<Byte>, userId: Option<seq<Byte>>, createdAt: Instant)

  /** `Map.get`. */
  function Lookup(ledger: map<string, ChallengeData>, key: string): (r: Option<ChallengeData>)
    ensures r.Some? <==> key in ledger
    ensures r.Some? ==> r.value == ledger[key]
  {
    if key in ledger then Some(ledger[key]) else None
  }

  /** The checks on the entry taken out of the ledger: it must exist and be at
      most `ChallengeTtlMillis` old. */
  function CheckChallenge(entry: Option<ChallengeData>, now: Instant, missing: Error): (r: Result<ChallengeData, Error>)
    ensures r.Success? <==> entry.Some? && now - entry.value.createdAt <= ChallengeTtlMillis
    ensures r.Success? ==> r.value == entry.value
    ensures r.Failure? ==> r.error == if entry.None? then missing else ChallengeExpired
  {
    if entry.None? then Failure(missing)
    else if now - entry.value.createdAt > ChallengeTtlMillis then Failure(ChallengeExpired)
    else Success(entry.value)
  }

  /** The ledger after `cleanupExpiredChallenges` at time `now`. */
  function Cleaned(ledger: map<string, ChallengeData>, now: Instant): (r: map<string, ChallengeData>)
    ensures forall k :: k in r <==> k in ledger && now - ledger[k].createdAt <= ChallengeRetentionMillis
    ensures forall k | k in r :: r[k] == ledger[k]
  {
    map k | k in ledger && now - ledger[k].createdAt <= ChallengeRetentionMillis :: ledger[k]
  }

  /** Cleanup never changes whether a later verification accepts a challenge:
      whatever it drops had expired for verification already. */
  lemma CleanupKeepsVerdicts(ledger: map<string, ChallengeData>, now: Instant, later: Instant, key: string, missing: Error)
    requires now <= later
    ensures CheckChallenge(Lookup(Cleaned(ledger, now), key), later, missing).Success?
        == CheckChallenge(Lookup(ledger, key), later, missing).Success?
    ensures CheckChallenge(Lookup(Cleaned(ledger, now), key), later, missing).Success? ==>
        CheckChallenge(Lookup(Cleaned(ledger, now), key), later, missing) == CheckChallenge(Lookup(ledger, key), later, missing)
  {
    if key in ledger && now - ledger[key].createdAt > ChallengeRetentionMillis {
      assert key !in Cleaned(ledger, now);
    }
  }

  // ----- Options -----

  datatype RelyingParty = RelyingParty(id: string, name: string)
  datatype User = User(id: string, name: string, displayName: string)
  datatype AuthenticatorSelection = AuthenticatorSelection(
    authenticatorAttachment: Option<string>, residentKey: string, userVerification: string)
  datatype PublicKeyCredentialParameters = PublicKeyCredentialParameters(credentialType: string, alg: int)

  datatype RegistrationOptions = RegistrationOptions(
    challenge: string, rp: RelyingParty, user: User, excludeCredentials: seq<string>,
    authenticatorSelection: AuthenticatorSelection, timeout: int,
    pubKeyCredParams: seq<PublicKeyCredentialParameters>)

  datatype AuthenticationOptions = AuthenticationOptions(
    challenge: string, rpId: string, timeout: int, allowCredentials: seq<string>,
    userVerification: string, sessionId: string)

  /** The registration options for an issued challenge and user handle. The
      browser and the server both decode them back to the issued bytes. */
  function RegistrationOptionsFor(
    challenge: seq<Byte>, rpId: string, userId: seq<Byte>, username: string,
    displayName: Option<string>, excludeCredentials: seq<string>): (o: RegistrationOptions)
    ensures UsePasskey.DecodeUrl(o.challenge) == Some(challenge) && JavaUrlDecode(o.challenge) == Some(challenge)
    ensures UsePasskey.DecodeUrl(o.user.id) == Some(userId) && JavaUrlDecode(o.user.id) == Some(userId)
    ensures o.rp == RelyingParty(rpId, RpName)
    ensures o.user.name == username
    ensures displayName.Some? ==> o.user.displayName == displayName.value
    ensures displayName.None? ==> o.user.displayName == username
    ensures o.excludeCredentials == excludeCredentials
    ensures o.authenticatorSelection == AuthenticatorSelection(None, "preferred", "preferred")
    ensures o.timeout == CeremonyTimeoutMillis
    ensures o.pubKeyCredParams == [PublicKeyCredentialParameters("public-key", -7), PublicKeyCredentialParameters("public-key", -257)]
  {
    UsePasskey.DecodeUrlJavaUrlEncode(challenge);
    UsePasskey.DecodeUrlJavaUrlEncode(userId);
    JavaUrlRoundTrip(challenge);
    JavaUrlRoundTrip(userId);
    RegistrationOptions(
      JavaUrlEncode(challenge),
      RelyingParty(rpId, RpName),
      User(JavaUrlEncode(userId), username, displayName.GetOr(username)),
      excludeCredentials,
      AuthenticatorSelection(None, "preferred", "preferred"),
      CeremonyTimeoutMillis,
      [PublicKeyCredentialParameters("public-key", -7), PublicKeyCredentialParameters("public-key", -257)])
  }

  /** The authentication options for an issued challenge and session id. */
  function AuthenticationOptionsFor(challenge: seq<Byte>, rpId: string, allowCredentials: seq<string>, sessionId: string): (o: AuthenticationOptions)
    ensures UsePasskey.DecodeUrl(o.challenge) == Some(challenge) && JavaUrlDecode(o.challenge) == Some(challenge)
    ensures o.rpId == rpId && o.sessionId == sessionId && o.allowCredentials == allowCredentials
    ensures o.timeout == CeremonyTimeoutMillis && o.userVerification == "preferred"
  {
    UsePasskey.DecodeUrlJavaUrlEncode(challenge);
    JavaUrlRoundTrip(challenge);
    AuthenticationOptions(JavaUrlEncode(challenge), rpId, CeremonyTimeoutMillis, allowCredentials, "preferred", sessionId)
  }

  /** The allow list: the user's credential ids when a non-empty username is
      given, and empty (any discoverable credential) otherwise. */
  function AllowCredentials(store: seq<PasskeyCredential>, username: Option<string>): (ids: seq<string>)
    ensures forall id :: id in ids <==>
      username.Some? && username.value != "" &&
      exists c | c in store :: c.spec.username == username.value && c.spec.credentialId == id
  {
    if username.Some? && username.value != "" then UserCredentialIds(store, username.value) else []
  }

  // ----- Verification steps -----

  /** `Base64.getUrlDecoder().decode`; its IllegalArgumentException is `IllegalBase64`. */
  function DecodeParameter(s: string): (r: Result<seq<Byte>, Error>)
    ensures r.Success? <==> JavaUrlDecode(s).Some?
    ensures r.Success? ==> r.value == JavaUrlDecode(s).value
    ensures r.Failure? ==> r.error == IllegalBase64
  {
    match JavaUrlDecode(s)
    case None => Failure(IllegalBase64)
    case Some(b) => Success(b)
  }

  /** An optional parameter is decoded only when present. */
  function DecodeOptional(s: Option<string>): (r: Result<Option<seq<Byte>>, Error>)
    ensures s.None? ==> r == Success(None)
    ensures s.Some? ==> (r.Success? <==> JavaUrlDecode(s.value).Some?)
    ensures s.Some? && r.Success? ==> r.value == JavaUrlDecode(s.value)
  {
    if s.None? then Success(None)
    else
      var b :- DecodeParameter(s.value);
      Success(Some(b))
  }

  /** The expected origin, rp id and challenge of a verification. */
  function ExpectedServerProperty(origin: string, rpId: string, data: ChallengeData): ServerProperty {
    ServerProperty(StripTrailingSlash(origin), rpId, data.challenge)
  }

  /** Everything `verifyRegistration` does after taking the entry out of the
      ledger and before saving: the unsaved record, or the first failure.
      The checks run in the order `verifyRegistration` runs them: the
      challenge, the origin, the three decodings, then the library. */
  function PrepareRegistration(
    entry: Option<ChallengeData>, username: string, credentialId: string, attestationObject: string,
    clientDataJSON: string, transports: Option<seq<string>>, displayName: Option<string>,
    origin: Option<string>, now: Instant, manager: WebAuthnManager,
    converter: AttestedCredentialDataConverter): (r: Result<PasskeyCredential, Error>)
    ensures entry.None? ==> r == Failure(ChallengeNotFound(username))
    ensures entry.Some? && now - entry.value.createdAt > ChallengeTtlMillis ==> r == Failure(ChallengeExpired)
    ensures CheckChallenge(entry, now, ChallengeNotFound(username)).Success? && ExtractRpId(origin).Failure? ==>
      r == Failure(ExtractRpId(origin).error)
    ensures CheckChallenge(entry, now, ChallengeNotFound(username)).Success? && ExtractRpId(origin).Success?
            && !(JavaUrlDecode(credentialId).Some? && JavaUrlDecode(attestationObject).Some? && JavaUrlDecode(clientDataJSON).Some?)
            ==> r == Failure(IllegalBase64)
    ensures r.Success? ==>
      && entry.Some? && now - entry.value.createdAt <= ChallengeTtlMillis
      && ExtractRpId(origin).Success?
      && JavaUrlDecode(credentialId).Some? && JavaUrlDecode(attestationObject).Some? && JavaUrlDecode(clientDataJSON).Some?
    ensures
      && entry.Some? && now - entry.value.createdAt <= ChallengeTtlMillis
      && ExtractRpId(origin).Success?
      && JavaUrlDecode(credentialId).Some? && JavaUrlDecode(attestationObject).Some? && JavaUrlDecode(clientDataJSON).Some?
      ==> r == RegisterResponse(
           username, JavaUrlDecode(credentialId).value,
           RegistrationRequest(JavaUrlDecode(attestationObject).value, JavaUrlDecode(clientDataJSON).value),
           RegistrationParameters(ExpectedServerProperty(origin.value, ExtractRpId(origin).value, entry.value), false, true),
           transports, displayName, now, manager, converter)
  {
    var data :- CheckChallenge(entry, now, ChallengeNotFound(username));
    var rpId :- ExtractRpId(origin);
    var credentialIdBytes :- DecodeParameter(credentialId);
    var attestationBytes :- DecodeParameter(attestationObject);
    var clientDataBytes :- DecodeParameter(clientDataJSON);
    RegisterResponse(
      username, credentialIdBytes, RegistrationRequest(attestationBytes, clientDataBytes),
      RegistrationParameters(ExpectedServerProperty(origin.value, rpId, data), false, true),
      transports, displayName, now, manager, converter)
  }

  /** The library steps of `verifyRegistration` and the record they build: a
      record exists only when the response parsed, passed verification against
      `parameters` and carries attested credential data, and it holds that
      data, the sign count and the flags the authenticator reported. */
  function RegisterResponse(
    username: string, credentialId: seq<Byte>, request: RegistrationRequest, parameters: RegistrationParameters,
    transports: Option<seq<string>>, displayName: Option<string>, now: Instant, manager: WebAuthnManager,
    converter: AttestedCredentialDataConverter): (r: Result<PasskeyCredential, Error>)
    ensures manager.parseRegistration(request).Failure? ==> r == Failure(Rejected(manager.parseRegistration(request).error))
    ensures var parsed := manager.parseRegistration(request);
      parsed.Success? && manager.verifyRegistration(parsed.value, parameters).Fail? ==>
        r == Failure(Rejected(manager.verifyRegistration(parsed.value, parameters).error))
    ensures var parsed := manager.parseRegistration(request);
      && parsed.Success? && manager.verifyRegistration(parsed.value, parameters).Pass?
      && parsed.value.authenticatorData.attestedCredentialData.None?
      ==> r == Failure(MissingCredentialData)
    ensures r.Success? <==>
      && manager.parseRegistration(request).Success?
      && manager.verifyRegistration(manager.parseRegistration(request).value, parameters).Pass?
      && manager.parseRegistration(request).value.authenticatorData.attestedCredentialData.Some?
    ensures r.Success? ==>
      && manager.parseRegistration(request).Success?
      && var authData := manager.parseRegistration(request).value.authenticatorData;
         && authData.attestedCredentialData.Some?
         && r.value.spec.publicKey == JavaUrlEncode(converter.serialize(authData.attestedCredentialData.value))
         && JavaUrlDecode(r.value.spec.publicKey) == Some(converter.serialize(authData.attestedCredentialData.value))
         && r.value.spec.aaguid == Some(JavaUrlEncode(authData.attestedCredentialData.value.aaguid))
         && JavaUrlDecode(r.value.spec.aaguid.value) == Some(authData.attestedCredentialData.value.aaguid)
         && r.value.spec.signatureCount == authData.signCount
         && r.value.spec.userVerified == authData.flagUV
         && r.value.spec.backupEligible == authData.flagBE
         && r.value.spec.backedUp == authData.flagBS
    ensures r.Success? ==>
      && r.value.spec.credentialId == JavaUrlEncode(credentialId)
      && JavaUrlDecode(r.value.spec.credentialId) == Some(credentialId)
      && r.value.spec.username == username
      && r.value.spec.discoverable
      && r.value.spec.displayName == Some(displayName.GetOr("Passkey"))
      && r.value.spec.transports == transports
      && r.value.spec.createdAt == now && r.value.spec.lastUsedAt.None?
      && r.value.metadata == Metadata(None, Some("passkey-"))
  {
    var registration :- manager.parseRegistration(request).MapFailure(m => Rejected(m));
    var verdict := manager.verifyRegistration(registration, parameters);
    if verdict.Fail? then Failure(Rejected(verdict.error))
    else
      var authData := registration.authenticatorData;
      if authData.attestedCredentialData.None? then Failure(MissingCredentialData)
      else
        var attested := authData.attestedCredentialData.value;
        Success(CreateCredential(
          username, credentialId, converter.serialize(attested), authData.signCount,
          Some(displayName.GetOr("Passkey")), Some(attested.aaguid), true,
          authData.flagUV, authData.flagBE, authData.flagBS, transports, now))
  }

  /** The credential record handed to the verifier: the stored flags and
      counter, with the attested credential data loaded from the stored key. */
  function RecordOf(credential: PasskeyCredential, attested: AttestedCredentialData): CredentialRecord {
    CredentialRecord(credential.spec.userVerified, credential.spec.backupEligible, credential.spec.backedUp,
                     credential.spec.signatureCount, attested)
  }

  /** Everything `verifyAuthentication` does after taking the entry out of the
      ledger and before updating the counter: the authenticator's new sign
      count, or the first failure. */
  function PrepareAuthentication(
    credential: PasskeyCredential, entry: Option<ChallengeData>, credentialId: string,
    authenticatorData: string, clientDataJSON: string, signature: string, userHandle: Option<string>,
    origin: Option<string>, now: Instant, manager: WebAuthnManager,
    converter: AttestedCredentialDataConverter): (r: Result<int, Error>)
    ensures entry.None? ==> r == Failure(SessionChallengeNotFound)
    ensures entry.Some? && now - entry.value.createdAt > ChallengeTtlMillis ==> r == Failure(ChallengeExpired)
    ensures CheckChallenge(entry, now, SessionChallengeNotFound).Success? && ExtractRpId(origin).Failure? ==>
      r == Failure(ExtractRpId(origin).error)
    ensures CheckChallenge(entry, now, SessionChallengeNotFound).Success? && ExtractRpId(origin).Success?
            && !(&& JavaUrlDecode(credentialId).Some?
                 && JavaUrlDecode(authenticatorData).Some? && JavaUrlDecode(clientDataJSON).Some? && JavaUrlDecode(signature).Some?
                 && DecodeOptional(userHandle).Success?
                 && JavaUrlDecode(credential.spec.publicKey).Some?)
            ==> r == Failure(IllegalBase64)
    ensures CheckChallenge(entry, now, SessionChallengeNotFound).Success? && ExtractRpId(origin).Success?
            && JavaUrlDecode(credentialId).Some?
            && JavaUrlDecode(authenticatorData).Some? && JavaUrlDecode(clientDataJSON).Some? && JavaUrlDecode(signature).Some?
            && DecodeOptional(userHandle).Success?
            && JavaUrlDecode(credential.spec.publicKey).Some?
            && converter.deserialize(JavaUrlDecode(credential.spec.publicKey).value).Failure?
            ==> r == Failure(Rejected(converter.deserialize(JavaUrlDecode(credential.spec.publicKey).value).error))
    ensures r.Success? ==>
      && entry.Some? && now - entry.value.createdAt <= ChallengeTtlMillis
      && ExtractRpId(origin).Success?
      && JavaUrlDecode(credentialId).Some?
      && JavaUrlDecode(authenticatorData).Some? && JavaUrlDecode(clientDataJSON).Some? && JavaUrlDecode(signature).Some?
      && DecodeOptional(userHandle).Success?
      && JavaUrlDecode(credential.spec.publicKey).Some?
      && converter.deserialize(JavaUrlDecode(credential.spec.publicKey).value).Success?
    ensures
      && entry.Some? && now - entry.value.createdAt <= ChallengeTtlMillis
      && ExtractRpId(origin).Success?
      && JavaUrlDecode(credentialId).Some?
      && JavaUrlDecode(authenticatorData).Some? && JavaUrlDecode(clientDataJSON).Some? && JavaUrlDecode(signature).Some?
      && DecodeOptional(userHandle).Success?
      && JavaUrlDecode(credential.spec.publicKey).Some?
      && converter.deserialize(JavaUrlDecode(credential.spec.publicKey).value).Success?
      ==>
      var request := AuthenticationRequest(
        JavaUrlDecode(credentialId).value, DecodeOptional(userHandle).value, JavaUrlDecode(authenticatorData).value,
        JavaUrlDecode(clientDataJSON).value, JavaUrlDecode(signature).value);
      var parameters := AuthenticationParameters(
        ExpectedServerProperty(origin.value, ExtractRpId(origin).value, entry.value),
        RecordOf(credential, converter.deserialize(JavaUrlDecode(credential.spec.publicKey).value).value),
        [JavaUrlDecode(credentialId).value], false, false);
      && (manager.parseAuthentication(request).Failure? ==>
            r == Failure(Rejected(manager.parseAuthentication(request).error)))
      && (manager.parseAuthentication(request).Success? ==>
            var verdict := manager.verifyAuthentication(manager.parseAuthentication(request).value, parameters);
            && (verdict.Fail? ==> r == Failure(Rejected(verdict.error)))
            && (verdict.Pass? ==> r == Success(manager.parseAuthentication(request).value.authenticatorData.signCount)))
  {
    var data :- CheckChallenge(entry, now, SessionChallengeNotFound);
    var rpId :- ExtractRpId(origin);
    var credentialIdBytes :- DecodeParameter(credentialId);
    var authenticatorBytes :- DecodeParameter(authenticatorData);
    var clientDataBytes :- DecodeParameter(clientDataJSON);
    var signatureBytes :- DecodeParameter(signature);
    var userHandleBytes :- DecodeOptional(userHandle);
    var storedKey :- DecodeParameter(credential.spec.publicKey);
    var attested :- converter.deserialize(storedKey).MapFailure(m => Rejected(m));
    var parameters := AuthenticationParameters(
      ExpectedServerProperty(origin.value, rpId, data), RecordOf(credential, attested), [credentialIdBytes], false, false);
    var request := AuthenticationRequest(credentialIdBytes, userHandleBytes, authenticatorBytes, clientDataBytes, signatureBytes);
    var authentication :- manager.parseAuthentication(request).MapFailure(m => Rejected(m));
    var verdict := manager.verifyAuthentication(authentication, parameters);
    if verdict.Fail? then Failure(Rejected(verdict.error))
    else Success(authentication.authenticatorData.signCount)
  }

  /** If the library enforces the counter rule, an accepted assertion's sign
      count, which becomes the stored counter, passed that rule against the
      counter stored before. */
  lemma SignCountAdvances(
    credential: PasskeyCredential, entry: Option<ChallengeData>, credentialId: string,
    authenticatorData: string, clientDataJSON: string, signature: string, userHandle: Option<string>,
    origin: Option<string>, now: Instant, manager: WebAuthnManager, converter: AttestedCredentialDataConverter)
    requires EnforcesSignCounter(manager)
    requires PrepareAuthentication(credential, entry, credentialId, authenticatorData, clientDataJSON, signature,
                                   userHandle, origin, now, manager, converter).Success?
    ensures CounterAccepted(credential.spec.signatureCount,
      PrepareAuthentication(credential, entry, credentialId, authenticatorData, clientDataJSON, signature,
                            userHandle, origin, now, manager, converter).value)
  {
    var request := AuthenticationRequest(
      JavaUrlDecode(credentialId).value, DecodeOptional(userHandle).value, JavaUrlDecode(authenticatorData).value,
      JavaUrlDecode(clientDataJSON).value, JavaUrlDecode(signature).value);
    var parameters := AuthenticationParameters(
      ExpectedServerProperty(origin.value, ExtractRpId(origin).value, entry.value),
      RecordOf(credential, converter.deserialize(JavaUrlDecode(credential.spec.publicKey).value).value),
      [JavaUrlDecode(credentialId).value], false, false);
    assert manager.verifyAuthentication(manager.parseAuthentication(request).value, parameters).Pass?;
  }

  /** If the converter round-trips, authentication loads exactly the attested
      credential data that registration stored for the credential. */
  lemma RegisteredKeyRestored(
    username: string, credentialId: seq<Byte>, request: RegistrationRequest, parameters: RegistrationParameters,
    transports: Option<seq<string>>, displayName: Option<string>, now: Instant, manager: WebAuthnManager,
    converter: AttestedCredentialDataConverter)
    requires ConverterRoundTrips(converter)
    requires RegisterResponse(username, credentialId, request, parameters, transports, displayName, now, manager, converter).Success?
    ensures var c := RegisterResponse(username, credentialId, request, parameters, transports, displayName, now, manager, converter).value;
      && JavaUrlDecode(c.spec.publicKey).Some?
      && converter.deserialize(JavaUrlDecode(c.spec.publicKey).value)
         == Success(manager.parseRegistration(request).value.authenticatorData.attestedCredentialData.value)
  {
  }

  /** A passkey registered from the browser's text of its raw id (the
      `base64UrlEncode(rawId)` of both ceremonies) is stored under that same
      text, so `findByCredentialId` finds it when the browser later presents
      that id. */
  lemma RegisteredPasskeyIsFound(
    store: seq<PasskeyCredential>, entry: Option<ChallengeData>, username: string, rawId: seq<Byte>,
    attestationObject: string, clientDataJSON: string, transports: Option<seq<string>>,
    displayName: Option<string>, origin: Option<string>, now: Instant, manager: WebAuthnManager,
    converter: AttestedCredentialDataConverter, name: string)
    requires StoreInvariant(store)
    requires PrepareRegistration(entry, username, UsePasskey.EncodeUrl(rawId), attestationObject, clientDataJSON,
                                 transports, displayName, origin, now, manager, converter).Success?
    requires SaveResult(store, PrepareRegistration(entry, username, UsePasskey.EncodeUrl(rawId), attestationObject,
                                                   clientDataJSON, transports, displayName, origin, now, manager,
                                                   converter).value, name).Success?
    ensures var saved := SaveResult(store, PrepareRegistration(entry, username, UsePasskey.EncodeUrl(rawId), attestationObject,
                                                               clientDataJSON, transports, displayName, origin, now,
                                                               manager, converter).value, name).value;
      FindByCredentialId(store + [saved], UsePasskey.EncodeUrl(rawId)) == Some(saved)
  {
    var id := UsePasskey.EncodeUrl(rawId);
    var p := PrepareRegistration(entry, username, id, attestationObject, clientDataJSON, transports, displayName,
                                 origin, now, manager, converter);
    var saved := SaveResult(store, p.value, name).value;
    UsePasskey.JavaUrlDecodeEncodeUrl(rawId);
    UsePasskey.EncodeUrlIsJavaUrlEncode(rawId);
    assert p.value.spec.credentialId == id;
    assert saved.spec.credentialId == id;
    FoundCredentialIsUnique(store + [saved], id, |store|);
  }

  // ----- The service -----

  class WebAuthnService {
    const credentialService: PasskeyCredentialService
    const webAuthnManager: WebAuthnManager
    const converter: AttestedCredentialDataConverter
    /** `challengeStore`: challenge data by username or session id. */
    var challengeStore: map<string, ChallengeData>

    ghost predicate Valid()
      reads credentialService
    {
      credentialService.Valid()
    }

    constructor (credentialService: PasskeyCredentialService, webAuthnManager: WebAuthnManager,
                 converter: AttestedCredentialDataConverter)
      ensures this.credentialService == credentialService && this.webAuthnManager == webAuthnManager
      ensures this.converter == converter && challengeStore == map[]
    {
      this.credentialService := credentialService;
      this.webAuthnManager := webAuthnManager;
      this.converter := converter;
      challengeStore := map[];
    }

    /** `generateRegistrationOptions`: issues `challengeBytes` for `username`,
        replacing any earlier entry for that user. */
    method GenerateRegistrationOptions(
      username: string, displayName: Option<string>, origin: Option<string>,
      challengeBytes: Bytes32, userIdBytes: Bytes32, now: Instant) returns (r: Result<RegistrationOptions, Error>)
      modifies this
      ensures r.Failure? <==> ExtractRpId(origin).Failure?
      ensures r.Failure? ==> r.error == ExtractRpId(origin).error && challengeStore == old(challengeStore)
      ensures r.Success? ==>
        && challengeStore == old(challengeStore)[username := ChallengeData(challengeBytes, Some(userIdBytes), now)]
        && r.value == RegistrationOptionsFor(challengeBytes, ExtractRpId(origin).value, userIdBytes, username,
                                             displayName, UserCredentialIds(credentialService.store, username))
    {
      var excludeCredentials := UserCredentialIds(credentialService.store, username);
      var rpId := ExtractRpId(origin);
      if rpId.Failure? {
        return Failure(rpId.error);
      }
      challengeStore := challengeStore[username := ChallengeData(challengeBytes, Some(userIdBytes), now)];
      r := Success(RegistrationOptionsFor(challengeBytes, rpId.value, userIdBytes, username, displayName, excludeCredentials));
    }

    /** `verifyRegistration`: takes the user's entry out of the ledger (whatever
        follows), checks it and the response, and saves the new record. */
    method VerifyRegistration(
      username: string, credentialId: string, attestationObject: string, clientDataJSON: string,
      transports: Option<seq<string>>, displayName: Option<string>, origin: Option<string>,
      now: Instant, name: string) returns (r: Result<PasskeyCredential, Error>)
      requires Valid()
      modifies this, credentialService
      ensures Valid()
      ensures challengeStore == old(challengeStore) - {username}
      ensures var p := PrepareRegistration(Lookup(old(challengeStore), username), username, credentialId,
                                           attestationObject, clientDataJSON, transports, displayName, origin, now,
                                           webAuthnManager, converter);
        && (p.Failure? ==> r == Failure(p.error) && credentialService.store == old(credentialService.store))
        && (p.Success? ==>
              var saved := SaveResult(old(credentialService.store), p.value, name);
              && (saved.Failure? ==> r == Failure(StoreRejected(saved.error)) && credentialService.store == old(credentialService.store))
              && (saved.Success? ==> r == Success(saved.value) && credentialService.store == old(credentialService.store) + [saved.value]))
    {
      var entry := Lookup(challengeStore, username);
      challengeStore := challengeStore - {username};
      var prepared := PrepareRegistration(entry, username, credentialId, attestationObject, clientDataJSON,
                                          transports, displayName, origin, now, webAuthnManager, converter);
      if prepared.Failure? {
        return Failure(prepared.error);
      }
      var saved := credentialService.Save(prepared.value, name);
      if saved.Failure? {
        return Failure(StoreRejected(saved.error));
      }
      return Success(saved.value);
    }

    /** `generateAuthenticationOptions`: issues `challengeBytes` under a new
        session id, the unpadded base64url text of the UUID's bytes. */
    method GenerateAuthenticationOptions(
      username: Option<string>, origin: Option<string>, challengeBytes: Bytes32, uuidBytes: seq<Byte>,
      now: Instant) returns (r: Result<AuthenticationOptions, Error>)
      modifies this
      ensures r.Failure? <==> ExtractRpId(origin).Failure?
      ensures r.Failure? ==> r.error == ExtractRpId(origin).error && challengeStore == old(challengeStore)
      ensures r.Success? ==>
        && r.value.sessionId == JavaUrlEncode(uuidBytes)
        && JavaUrlDecode(r.value.sessionId) == Some(uuidBytes)
        && challengeStore == old(challengeStore)[r.value.sessionId := ChallengeData(challengeBytes, None, now)]
        && r.value == AuthenticationOptionsFor(challengeBytes, ExtractRpId(origin).value,
                                               AllowCredentials(credentialService.store, username), r.value.sessionId)
    {
      var allowCredentials := AllowCredentials(credentialService.store, username);
      var rpId := ExtractRpId(origin);
      if rpId.Failure? {
        return Failure(rpId.error);
      }
      var sessionId := JavaUrlEncode(uuidBytes);
      JavaUrlRoundTrip(uuidBytes);
      challengeStore := challengeStore[sessionId := ChallengeData(challengeBytes, None, now)];
      r := Success(AuthenticationOptionsFor(challengeBytes, rpId.value, allowCredentials, sessionId));
    }

    /** `verifyAuthentication`: looks the credential up first (an unknown one
        leaves the ledger alone), then takes the session's entry out of the
        ledger, checks it and the assertion, and stores the new sign count. */
    method VerifyAuthentication(
      sessionId: string, credentialId: string, authenticatorData: string, clientDataJSON: string,
      signature: string, userHandle: Option<string>, origin: Option<string>, now: Instant)
      returns (r: Result<PasskeyCredential, Error>)
      requires Valid()
      modifies this, credentialService
      ensures Valid()
      ensures var found := FindByCredentialId(old(credentialService.store), credentialId);
        && (found.None? ==>
              && r == Failure(CredentialNotFound)
              && challengeStore == old(challengeStore)
              && credentialService.store == old(credentialService.store))
        && (found.Some? ==>
              && challengeStore == old(challengeStore) - {sessionId}
              && var p := PrepareAuthentication(found.value, Lookup(old(challengeStore), sessionId), credentialId,
                                                authenticatorData, clientDataJSON, signature, userHandle, origin, now,
                                                webAuthnManager, converter);
                 && (p.Failure? ==> r == Failure(p.error) && credentialService.store == old(credentialService.store))
                 && (p.Success? ==>
                       && r == Success(WithSignatureCount(found.value, p.value, now))
                       && credentialService.store ==
                          old(credentialService.store)[IndexOfCredentialId(old(credentialService.store), credentialId) := r.value]))
    {
      var found := FindByCredentialId(credentialService.store, credentialId);
      if found.None? {
        return Failure(CredentialNotFound);
      }
      var entry := Lookup(challengeStore, sessionId);
      challengeStore := challengeStore - {sessionId};
      var prepared := PrepareAuthentication(found.value, entry, credentialId, authenticatorData, clientDataJSON,
                                            signature, userHandle, origin, now, webAuthnManager, converter);
      if prepared.Failure? {
        return Failure(prepared.error);
      }
      var updated := credentialService.UpdateSignatureCount(credentialId, prepared.value, now);
      return Success(updated.value);
    }

    /** `cleanupExpiredChallenges`. */
    method CleanupExpiredChallenges(now: Instant)
      modifies this
      ensures challengeStore == Cleaned(old(challengeStore), now)
    {
      challengeStore := map k | k in challengeStore && now - challengeStore[k].createdAt <= ChallengeRetentionMillis
                                :: challengeStore[k];
    }
  }

  /** A registration challenge is single-use: a second verification for the
      same user, with any response and at any time, finds no challenge. */
  method RegistrationChallengeIsSingleUse(
    service: WebAuthnService, username: string, credentialId: string, attestationObject: string,
    clientDataJSON: string, transports: Option<seq<string>>, displayName: Option<string>,
    origin: Option<string>, now: Instant, name: string, later: Instant, name2: string)
    returns (first: Result<PasskeyCredential, Error>, second: Result<PasskeyCredential, Error>)
    requires service.Valid()
    modifies service, service.credentialService
    ensures second == Failure(ChallengeNotFound(username))
  {
    first := service.VerifyRegistration(username, credentialId, attestationObject, clientDataJSON, transports,
                                        displayName, origin, now, name);
    second := service.VerifyRegistration(username, credentialId, attestationObject, clientDataJSON, transports,
                                         displayName, origin, later, name2);
  }

  /** An authentication challenge is single-use: replaying the same assertion
      for the same session fails, at any later time. */
  method AuthenticationChallengeIsSingleUse(
    service: WebAuthnService, sessionId: string, credentialId: string, authenticatorData: string,
    clientDataJSON: string, signature: string, userHandle: Option<string>, origin: Option<string>,
    now: Instant, later: Instant)
    returns (first: Result<PasskeyCredential, Error>, second: Result<PasskeyCredential, Error>)
    requires service.Valid()
    modifies service, service.credentialService
    ensures FindByCredentialId(old(service.credentialService.store), credentialId).None? ==> second == Failure(CredentialNotFound)
    ensures FindByCredentialId(old(service.credentialService.store), credentialId).Some? ==> second == Failure(SessionChallengeNotFound)
  {
    ghost var before := service.credentialService.store;
    first := service.VerifyAuthentication(sessionId, credentialId, authenticatorData, clientDataJSON, signature,
                                          userHandle, origin, now);
    if FindByCredentialId(before, credentialId).Some? {
      var i := IndexOfCredentialId(before, credentialId);
      assert service.credentialService.store[i].spec.credentialId == credentialId;
      assert sessionId !in service.challengeStore;
    }
    second := service.VerifyAuthentication(sessionId, credentialId, authenticatorData, clientDataJSON, signature,
                                           userHandle, origin, later);
  }
}
