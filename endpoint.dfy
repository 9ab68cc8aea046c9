/** The HTTP handlers of `PasskeyEndpoint`: the caller's username from the
    security context, the ownership gate of delete and update, the
    display-name update rule and the credential list. Request bodies are
    values; an absent options body is `None`. */
module Endpoint {
  import opened Wrappers
  import opened Base64
  import opened Credentials
  import WebAuthn

  datatype Authentication = Authentication(name: string, authenticated: bool)

  /** A security context, whose authentication may be null. */
  datatype SecurityContext = SecurityContext(authentication: Option<Authentication>)

  datatype EndpointError =
    | NotLoggedIn
    | NullAuthentication
    | NoAccess
    | Service(cause: WebAuthn.Error)
  {
    /** The message of the exceptions the endpoint throws itself. */
    function Message(): Option<string> {
      match this
      case NotLoggedIn => Some("用户未登录")
      case NullAuthentication => None
      case NoAccess => Some("凭证不存在或无权访问")
      case Service(cause) => cause.Message()
    }
  }

  /** `getCurrentUsername`: the name of an authenticated principal. No context
      and an unauthenticated principal give "用户未登录"; a context whose
      authentication is null makes the reactive `map` fail on the null value. */
  function CurrentUsername(context: Option<SecurityContext>): (r: Result<string, EndpointError>)
    ensures r.Success? <==>
      context.Some? && context.value.authentication.Some? && context.value.authentication.value.authenticated
    ensures r.Success? ==> r.value == context.value.authentication.value.name
    ensures r.Failure? ==>
      r.error == if context.Some? && context.value.authentication.None? then NullAuthentication else NotLoggedIn
  {
    match context
    case None => Failure(NotLoggedIn)
    case Some(ctx) =>
      match ctx.authentication
      case None => Failure(NullAuthentication)
      case Some(auth) => if auth.authenticated then Success(auth.name) else Failure(NotLoggedIn)
  }

  /** The ownership gate: the record with the name, provided the caller owns it. */
  function OwnedCredential(store: seq<PasskeyCredential>, name: string, username: string): (r: Result<PasskeyCredential, EndpointError>)
    ensures r.Success? <==> FindByName(store, name).Some? && FindByName(store, name).value.spec.username == username
    ensures r.Success? ==> r.value == FindByName(store, name).value
    ensures r.Failure? ==> r.error == NoAccess
  {
    match FindByName(store, name)
    case None => Failure(NoAccess)
    case Some(c) => if c.spec.username == username then Success(c) else Failure(NoAccess)
  }

  /** Under the store's unique names, the gate opens exactly when some
      record has the name and belongs to the caller. */
  lemma OwnerGateIff(store: seq<PasskeyCredential>, name: string, username: string)
    requires StoreInvariant(store)
    ensures OwnedCredential(store, name, username).Success? <==>
      exists c | c in store :: c.metadata.name == Some(name) && c.spec.username == username
  {
    if c :| c in store && c.metadata.name == Some(name) && c.spec.username == username {
      var i :| 0 <= i < |store| && store[i] == c;
      FoundByOwnName(store, i);
    }
  }

  /** The update rule: only `displayName` may change, and only to a non-null value. */
  function Renamed(c: PasskeyCredential, displayName: Option<string>): (r: PasskeyCredential)
    ensures displayName.None? ==> r == c
    ensures displayName.Some? ==> r.spec.displayName == displayName
    ensures r.metadata == c.metadata
    ensures r.spec.(displayName := c.spec.displayName) == c.spec
  {
    if displayName.Some? then c.(spec := c.spec.(displayName := displayName)) else c
  }

  datatype CredentialInfo = CredentialInfo(
    name: Option<string>, credentialId: string, displayName: Option<string>, createdAt: Instant,
    lastUsedAt: Option<Instant>, backedUp: bool, transports: seq<string>)

  /** One list entry: a null `lastUsedAt` stays null, null transports become empty. */
  function InfoOf(c: PasskeyCredential): (info: CredentialInfo)
    ensures info.name == c.metadata.name && info.credentialId == c.spec.credentialId
    ensures info.displayName == c.spec.displayName && info.backedUp == c.spec.backedUp
    ensures info.createdAt == c.spec.createdAt && info.lastUsedAt == c.spec.lastUsedAt
    ensures c.spec.transports.None? ==> info.transports == []
    ensures c.spec.transports.Some? ==> info.transports == c.spec.transports.value
  {
    CredentialInfo(c.metadata.name, c.spec.credentialId, c.spec.displayName, c.spec.createdAt,
                   c.spec.lastUsedAt, c.spec.backedUp, c.spec.transports.GetOr([]))
  }

  /** `listCredentials`: one entry per record of the caller, in store order. */
  function ListCredentials(store: seq<PasskeyCredential>, context: Option<SecurityContext>): (r: Result<seq<CredentialInfo>, EndpointError>)
    ensures r.Failure? <==> CurrentUsername(context).Failure?
    ensures r.Success? ==>
      var mine := FindByUsername(store, CurrentUsername(context).value);
      |r.value| == |mine| && forall i | 0 <= i < |mine| :: r.value[i] == InfoOf(mine[i])
  {
    var username :- CurrentUsername(context);
    var mine := FindByUsername(store, username);
    Success(seq(|mine|, i requires 0 <= i < |mine| => InfoOf(mine[i])))
  }

  /** Every listed entry describes a record the caller owns. */
  lemma ListedAreOwned(store: seq<PasskeyCredential>, context: Option<SecurityContext>, k: nat)
    requires ListCredentials(store, context).Success? && k < |ListCredentials(store, context).value|
    ensures exists c | c in store ::
      && c.spec.username == CurrentUsername(context).value
      && InfoOf(c) == ListCredentials(store, context).value[k]
  {
    var mine := FindByUsername(store, CurrentUsername(context).value);
    assert mine[k] in mine;
  }

  datatype RegistrationOptionsRequest = RegistrationOptionsRequest(displayName: Option<string>, origin: Option<string>)
  datatype RegistrationVerifyRequest = RegistrationVerifyRequest(
    credentialId: string, attestationObject: string, clientDataJSON: string,
    transports: Option<seq<string>>, displayName: Option<string>, origin: Option<string>)
  datatype AuthenticationOptionsRequest = AuthenticationOptionsRequest(username: Option<string>, origin: Option<string>)
  datatype AuthenticationVerifyRequest = AuthenticationVerifyRequest(
    sessionId: string, credentialId: string, authenticatorData: string, clientDataJSON: string,
    signature: string, userHandle: Option<string>, origin: Option<string>)
  datatype RegistrationResponse = RegistrationResponse(name: Option<string>, credentialId: string, displayName: Option<string>)
  datatype AuthenticationResponse = AuthenticationResponse(username: string, credentialName: Option<string>, verified: bool)

  class PasskeyEndpoint {
    const webAuthnService: WebAuthn.WebAuthnService
    const credentialService: PasskeyCredentialService

    /** Both handlers' collaborators share one credential service. */
    ghost predicate Valid()
      reads webAuthnService, credentialService
    {
      webAuthnService.credentialService == credentialService && credentialService.Valid()
    }

    constructor (webAuthnService: WebAuthn.WebAuthnService)
      requires webAuthnService.Valid()
      ensures Valid() && this.webAuthnService == webAuthnService
    {
      this.webAuthnService := webAuthnService;
      this.credentialService := webAuthnService.credentialService;
    }

    /** `getRegistrationOptions`: the caller's options, with the username as
        display name when the request gives none. */
    method GetRegistrationOptions(
      context: Option<SecurityContext>, request: Option<RegistrationOptionsRequest>,
      challengeBytes: WebAuthn.Bytes32, userIdBytes: WebAuthn.Bytes32, now: Instant)
      returns (r: Result<WebAuthn.RegistrationOptions, EndpointError>)
      modifies webAuthnService
      ensures CurrentUsername(context).Failure? ==>
        r == Failure(CurrentUsername(context).error) && webAuthnService.challengeStore == old(webAuthnService.challengeStore)
      ensures CurrentUsername(context).Success? ==>
        var username := CurrentUsername(context).value;
        var req := request.GetOr(RegistrationOptionsRequest(None, None));
        && (r.Failure? <==> WebAuthn.ExtractRpId(req.origin).Failure?)
        && (r.Failure? ==>
              && r.error == Service(WebAuthn.ExtractRpId(req.origin).error)
              && webAuthnService.challengeStore == old(webAuthnService.challengeStore))
        && (r.Success? ==>
              && r.value == WebAuthn.RegistrationOptionsFor(
                   challengeBytes, WebAuthn.ExtractRpId(req.origin).value, userIdBytes, username,
                   Some(req.displayName.GetOr(username)), UserCredentialIds(webAuthnService.credentialService.store, username))
              && r.value.user.name == username
              && r.value.user.displayName == req.displayName.GetOr(username)
              && webAuthnService.challengeStore ==
                 old(webAuthnService.challengeStore)[username := WebAuthn.ChallengeData(challengeBytes, Some(userIdBytes), now)])
    {
      var username := CurrentUsername(context);
      if username.Failure? {
        return Failure(username.error);
      }
      var req := request.GetOr(RegistrationOptionsRequest(None, None));
      var options := webAuthnService.GenerateRegistrationOptions(
        username.value, Some(req.displayName.GetOr(username.value)), req.origin, challengeBytes, userIdBytes, now);
      if options.Failure? {
        return Failure(Service(options.error));
      }
      return Success(options.value);
    }

    /** `verifyRegistration`: registers a passkey for the caller. */
    method VerifyRegistration(context: Option<SecurityContext>, request: RegistrationVerifyRequest, now: Instant, name: string)
      returns (r: Result<RegistrationResponse, EndpointError>)
      requires Valid()
      modifies webAuthnService, credentialService
      ensures Valid()
      ensures CurrentUsername(context).Failure? ==>
        && r == Failure(CurrentUsername(context).error)
        && webAuthnService.challengeStore == old(webAuthnService.challengeStore)
        && credentialService.store == old(credentialService.store)
      ensures CurrentUsername(context).Success? ==>
        var username := CurrentUsername(context).value;
        && webAuthnService.challengeStore == old(webAuthnService.challengeStore) - {username}
        && var p := WebAuthn.PrepareRegistration(
             WebAuthn.Lookup(old(webAuthnService.challengeStore), username), username, request.credentialId,
             request.attestationObject, request.clientDataJSON, request.transports, request.displayName, request.origin,
             now, webAuthnService.webAuthnManager, webAuthnService.converter);
           && (p.Failure? ==> r == Failure(Service(p.error)) && credentialService.store == old(credentialService.store))
           && (p.Success? ==>
                 var saved := SaveResult(old(credentialService.store), p.value, name);
                 && (saved.Failure? ==>
                       && r == Failure(Service(WebAuthn.StoreRejected(saved.error)))
                       && credentialService.store == old(credentialService.store))
                 && (saved.Success? ==>
                       && saved.value.spec.username == username
                       && r == Success(RegistrationResponse(saved.value.metadata.name, saved.value.spec.credentialId,
                                                            saved.value.spec.displayName))
                       && credentialService.store == old(credentialService.store) + [saved.value]))
    {
      var username := CurrentUsername(context);
      if username.Failure? {
        return Failure(username.error);
      }
      var credential := webAuthnService.VerifyRegistration(
        username.value, request.credentialId, request.attestationObject, request.clientDataJSON,
        request.transports, request.displayName, request.origin, now, name);
      if credential.Failure? {
        return Failure(Service(credential.error));
      }
      var c := credential.value;
      return Success(RegistrationResponse(c.metadata.name, c.spec.credentialId, c.spec.displayName));
    }

    /** `getAuthenticationOptions`: needs no login. */
    method GetAuthenticationOptions(
      request: Option<AuthenticationOptionsRequest>, challengeBytes: WebAuthn.Bytes32, uuidBytes: seq<Byte>, now: Instant)
      returns (r: Result<WebAuthn.AuthenticationOptions, EndpointError>)
      modifies webAuthnService
      ensures var req := request.GetOr(AuthenticationOptionsRequest(None, None));
        && (r.Failure? <==> WebAuthn.ExtractRpId(req.origin).Failure?)
        && (r.Failure? ==>
              && r.error == Service(WebAuthn.ExtractRpId(req.origin).error)
              && webAuthnService.challengeStore == old(webAuthnService.challengeStore))
        && (r.Success? ==>
              && JavaUrlDecode(r.value.sessionId) == Some(uuidBytes)
              && r.value == WebAuthn.AuthenticationOptionsFor(
                   challengeBytes, WebAuthn.ExtractRpId(req.origin).value,
                   WebAuthn.AllowCredentials(webAuthnService.credentialService.store, req.username), r.value.sessionId)
              && r.value.allowCredentials == WebAuthn.AllowCredentials(webAuthnService.credentialService.store, req.username)
              && webAuthnService.challengeStore ==
                 old(webAuthnService.challengeStore)[r.value.sessionId := WebAuthn.ChallengeData(challengeBytes, None, now)])
    {
      var req := request.GetOr(AuthenticationOptionsRequest(None, None));
      var options := webAuthnService.GenerateAuthenticationOptions(req.username, req.origin, challengeBytes, uuidBytes, now);
      if options.Failure? {
        return Failure(Service(options.error));
      }
      return Success(options.value);
    }

    /** `verifyAuthentication`: on success reports the credential's owner and
        name, and `verified = true`. */
    method VerifyAuthentication(request: AuthenticationVerifyRequest, now: Instant)
      returns (r: Result<AuthenticationResponse, EndpointError>)
      requires Valid()
      modifies webAuthnService, credentialService
      ensures Valid()
      ensures r.Success? ==>
        var found := FindByCredentialId(old(credentialService.store), request.credentialId);
        && found.Some?
        && r.value == AuthenticationResponse(found.value.spec.username, found.value.metadata.name, true)
      ensures FindByCredentialId(old(credentialService.store), request.credentialId).None? ==>
        && r == Failure(Service(WebAuthn.CredentialNotFound))
        && webAuthnService.challengeStore == old(webAuthnService.challengeStore)
        && credentialService.store == old(credentialService.store)
      ensures var found := FindByCredentialId(old(credentialService.store), request.credentialId);
        found.Some? ==>
        && webAuthnService.challengeStore == old(webAuthnService.challengeStore) - {request.sessionId}
        && var p := WebAuthn.PrepareAuthentication(
             found.value, WebAuthn.Lookup(old(webAuthnService.challengeStore), request.sessionId), request.credentialId,
             request.authenticatorData, request.clientDataJSON, request.signature, request.userHandle, request.origin,
             now, webAuthnService.webAuthnManager, webAuthnService.converter);
           && (p.Failure? ==> r == Failure(Service(p.error)) && credentialService.store == old(credentialService.store))
           && (p.Success? ==>
                 && r == Success(AuthenticationResponse(found.value.spec.username, found.value.metadata.name, true))
                 && credentialService.store ==
                    old(credentialService.store)[IndexOfCredentialId(old(credentialService.store), request.credentialId) :=
                                                 WithSignatureCount(found.value, p.value, now)])
    {
      var credential := webAuthnService.VerifyAuthentication(
        request.sessionId, request.credentialId, request.authenticatorData, request.clientDataJSON,
        request.signature, request.userHandle, request.origin, now);
      if credential.Failure? {
        return Failure(Service(credential.error));
      }
      var c := credential.value;
      return Success(AuthenticationResponse(c.spec.username, c.metadata.name, true));
    }

    /** `deleteCredential`: removes the named record, only for its owner. */
    method DeleteCredential(context: Option<SecurityContext>, name: string) returns (r: Result<bool, EndpointError>)
      requires Valid()
      modifies credentialService
      ensures Valid()
      ensures CurrentUsername(context).Failure? ==> r == Failure(CurrentUsername(context).error)
      ensures CurrentUsername(context).Success? && OwnedCredential(old(credentialService.store), name, CurrentUsername(context).value).Failure? ==>
        r == Failure(NoAccess)
      ensures CurrentUsername(context).Success? && OwnedCredential(old(credentialService.store), name, CurrentUsername(context).value).Success? ==>
        r == Success(true)
      ensures r.Failure? ==> credentialService.store == old(credentialService.store)
      ensures r.Success? ==>
        && r.value
        && OwnedCredential(old(credentialService.store), name, CurrentUsername(context).value).Success?
        && var i := IndexOfName(old(credentialService.store), name);
           credentialService.store == old(credentialService.store)[..i] + old(credentialService.store)[i + 1..]
    {
      var username := CurrentUsername(context);
      if username.Failure? {
        return Failure(username.error);
      }
      var owned := OwnedCredential(credentialService.store, name, username.value);
      if owned.Failure? {
        return Failure(owned.error);
      }
      var deleted := credentialService.Delete(owned.value.metadata.name.value);
      return Success(true);
    }

    /** `updateCredential`: renames the caller's record; nothing but the
        display name changes, and nothing changes for a null display name. */
    method UpdateCredential(context: Option<SecurityContext>, name: string, displayName: Option<string>)
      returns (r: Result<bool, EndpointError>)
      requires Valid()
      modifies credentialService
      ensures Valid()
      ensures CurrentUsername(context).Failure? ==> r == Failure(CurrentUsername(context).error)
      ensures CurrentUsername(context).Success? && OwnedCredential(old(credentialService.store), name, CurrentUsername(context).value).Failure? ==>
        r == Failure(NoAccess)
      ensures CurrentUsername(context).Success? && OwnedCredential(old(credentialService.store), name, CurrentUsername(context).value).Success? ==>
        r == Success(true)
      ensures r.Failure? ==> credentialService.store == old(credentialService.store)
      ensures r.Success? ==>
        && r.value
        && OwnedCredential(old(credentialService.store), name, CurrentUsername(context).value).Success?
        && var i := IndexOfName(old(credentialService.store), name);
           credentialService.store == old(credentialService.store)[i := Renamed(old(credentialService.store)[i], displayName)]
    {
      var username := CurrentUsername(context);
      if username.Failure? {
        return Failure(username.error);
      }
      var owned := OwnedCredential(credentialService.store, name, username.value);
      if owned.Failure? {
        return Failure(owned.error);
      }
      var i := IndexOfName(credentialService.store, name);
      FoundByOwnName(credentialService.store, i);
      var updated := credentialService.Update(Renamed(owned.value, displayName));
      return Success(true);
    }
  }
}
