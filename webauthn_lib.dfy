/** The part of webauthn4j the plugin calls, as abstract values: the manager's
    `parse` and `verify` for both ceremonies and the converter that
    serialises attested credential data. Parsing, CBOR/COSE decoding and
    signature checking stay inside these functions; the model knows only
    what goes in and what comes out. */
module WebAuthnLib {
  import opened Wrappers
  import opened Base64

  datatype AttestedCredentialData = AttestedCredentialData(
    aaguid: seq<Byte>, credentialId: seq<Byte>, credentialPublicKey: seq<Byte>)

  /** The authenticator data fields the plugin reads. */
  datatype AuthenticatorData = AuthenticatorData(
    flagUV: bool, flagBE: bool, flagBS: bool, signCount: int,
    attestedCredentialData: Option<AttestedCredentialData>)

  datatype RegistrationRequest = RegistrationRequest(attestationObject: seq<Byte>, clientDataJSON: seq<Byte>)

  /** A parsed registration; `authenticatorData` is that of its attestation object. */
  datatype RegistrationData = RegistrationData(authenticatorData: AuthenticatorData)

  /** The expected origin, relying party id and challenge of a ceremony. */
  datatype ServerProperty = ServerProperty(origin: string, rpId: string, challenge: seq<Byte>)

  datatype RegistrationParameters = RegistrationParameters(
    serverProperty: ServerProperty, userVerificationRequired: bool, userPresenceRequired: bool)

  datatype AuthenticationRequest = AuthenticationRequest(
    credentialId: seq<Byte>, userHandle: Option<seq<Byte>>, authenticatorData: seq<Byte>,
    clientDataJSON: seq<Byte>, signature: seq<Byte>)

  datatype AuthenticationData = AuthenticationData(authenticatorData: AuthenticatorData)

  /** What the relying party stored about a credential: the flags, the
      signature counter and the attested credential data with its public key. */
  datatype CredentialRecord = CredentialRecord(
    uvInitialized: bool, backupEligible: bool, backupState: bool, counter: int,
    attestedCredentialData: AttestedCredentialData)

  datatype AuthenticationParameters = AuthenticationParameters(
    serverProperty: ServerProperty, credentialRecord: CredentialRecord,
    allowCredentials: seq<seq<Byte>>, userVerificationRequired: bool, userPresenceRequired: bool)

  /** The non-strict `WebAuthnManager`; a Failure or a Fail carries the
      message of the exception it throws. */
  datatype WebAuthnManager = WebAuthnManager(
    parseRegistration: RegistrationRequest -> Result<RegistrationData, string>,
    verifyRegistration: (RegistrationData, RegistrationParameters) -> Outcome<string>,
    parseAuthentication: AuthenticationRequest -> Result<AuthenticationData, string>,
    verifyAuthentication: (AuthenticationData, AuthenticationParameters) -> Outcome<string>)

  datatype AttestedCredentialDataConverter = AttestedCredentialDataConverter(
    serialize: AttestedCredentialData -> seq<Byte>,
    deserialize: seq<Byte> -> Result<AttestedCredentialData, string>)

  /** The counter rule of section 6.1.1 of Web Authentication Level 2: the
      presented counter must exceed the stored one unless both are zero. */
  predicate CounterAccepted(stored: int, presented: int) {
    presented > stored || (presented == 0 && stored == 0)
  }

  /** An assumption about the library, not something the plugin's code shows:
      its authentication verification rejects a counter that did not advance. */
  ghost predicate EnforcesSignCounter(m: WebAuthnManager) {
    forall d: AuthenticationData, p: AuthenticationParameters | m.verifyAuthentication(d, p).Pass? ::
      CounterAccepted(p.credentialRecord.counter, d.authenticatorData.signCount)
  }

  /** An assumption about the library: deserialising what it serialised gives
      the same attested credential data back. */
  ghost predicate ConverterRoundTrips(c: AttestedCredentialDataConverter) {
    forall a: AttestedCredentialData :: c.deserialize(c.serialize(a)) == Success(a)
  }
}
