/** PasskeyCredential records and the PasskeyCredentialService facade over
    the extension store. The store is the sequence of records it lists, in
    listing order. The plugin declares the `spec.credentialId` index unique,
    and the store keeps metadata names unique; `StoreInvariant` states both. */
module Credentials {
  import opened Wrappers
  import opened Base64

  /** Milliseconds since the epoch. */
  type Instant = int

  datatype Metadata = Metadata(name: Option<string>, generateName: Option<string>)

  datatype CredentialSpec = CredentialSpec(
    username: string,
    credentialId: string,
    publicKey: string,
    signatureCount: int,
    displayName: Option<string>,
    aaguid: Option<string>,
    discoverable: bool,
    userVerified: bool,
    backupEligible: bool,
    backedUp: bool,
    transports: Option<seq<string>>,
    createdAt: Instant,
    lastUsedAt: Option<Instant>)

  datatype PasskeyCredential = PasskeyCredential(metadata: Metadata, spec: CredentialSpec)

  /** What the store reports when a create or an update would break its indexes. */
  datatype StoreError = NameTaken | CredentialIdTaken | NotFound

  predicate UniqueCredentialIds(store: seq<PasskeyCredential>) {
    forall i, j | 0 <= i < j < |store| :: store[i].spec.credentialId != store[j].spec.credentialId
  }

  predicate UniqueNames(store: seq<PasskeyCredential>) {
    && (forall i | 0 <= i < |store| :: store[i].metadata.name.Some?)
    && (forall i, j | 0 <= i < j < |store| :: store[i].metadata.name != store[j].metadata.name)
  }

  predicate StoreInvariant(store: seq<PasskeyCredential>) {
    UniqueCredentialIds(store) && UniqueNames(store)
  }

  /** `createCredential`: an unsaved record whose binary fields are stored as
      unpadded base64url text. */
  function CreateCredential(
    username: string, credentialId: seq<Byte>, publicKey: seq<Byte>, signatureCount: int,
    displayName: Option<string>, aaguid: Option<seq<Byte>>, discoverable: bool,
    userVerified: bool, backupEligible: bool, backedUp: bool,
    transports: Option<seq<string>>, now: Instant): (c: PasskeyCredential)
    ensures c.metadata == Metadata(None, Some("passkey-"))
    ensures c.spec.credentialId == JavaUrlEncode(credentialId) && c.spec.publicKey == JavaUrlEncode(publicKey)
    ensures aaguid.Some? ==> c.spec.aaguid == Some(JavaUrlEncode(aaguid.value))
    ensures JavaUrlDecode(c.spec.credentialId) == Some(credentialId)
    ensures JavaUrlDecode(c.spec.publicKey) == Some(publicKey)
    ensures c.spec.aaguid.Some? <==> aaguid.Some?
    ensures aaguid.Some? ==> JavaUrlDecode(c.spec.aaguid.value) == Some(aaguid.value)
    ensures c.spec.transports == transports
    ensures c.spec.username == username && c.spec.signatureCount == signatureCount
    ensures c.spec.displayName == displayName
    ensures c.spec.discoverable == discoverable && c.spec.userVerified == userVerified
    ensures c.spec.backupEligible == backupEligible && c.spec.backedUp == backedUp
    ensures c.spec.createdAt == now && c.spec.lastUsedAt.None?
  {
    JavaUrlRoundTrip(credentialId);
    JavaUrlRoundTrip(publicKey);
    if aaguid.Some? then JavaUrlRoundTrip(aaguid.value); Build(username, credentialId, publicKey, signatureCount, displayName, aaguid, discoverable, userVerified, backupEligible, backedUp, transports, now)
    else Build(username, credentialId, publicKey, signatureCount, displayName, aaguid, discoverable, userVerified, backupEligible, backedUp, transports, now)
  }

  function Build(
    username: string, credentialId: seq<Byte>, publicKey: seq<Byte>, signatureCount: int,
    displayName: Option<string>, aaguid: Option<seq<Byte>>, discoverable: bool,
    userVerified: bool, backupEligible: bool, backedUp: bool,
    transports: Option<seq<string>>, now: Instant): PasskeyCredential
  {
    PasskeyCredential(
      Metadata(None, Some("passkey-")),
      CredentialSpec(
        username, JavaUrlEncode(credentialId), JavaUrlEncode(publicKey), signatureCount, displayName,
        if aaguid.Some? then Some(JavaUrlEncode(aaguid.value)) else None,
        discoverable, userVerified, backupEligible, backedUp, transports, now, None))
  }

  /** `findByUsername`: the records whose `spec.username` is `username`, in store order. */
  function FindByUsername(store: seq<PasskeyCredential>, username: string): (r: seq<PasskeyCredential>)
    ensures forall c | c in r :: c in store && c.spec.username == username
    ensures forall c | c in store && c.spec.username == username :: c in r
    ensures |r| <= |store|
  {
    if store == [] then []
    else (if store[0].spec.username == username then [store[0]] else []) + FindByUsername(store[1..], username)
  }

  /** The position of the first record with the credential id, or |store|. */
  function IndexOfCredentialId(store: seq<PasskeyCredential>, credentialId: string): (i: nat)
    ensures i <= |store|
    ensures i < |store| ==> store[i].spec.credentialId == credentialId
    ensures forall j | 0 <= j < i :: store[j].spec.credentialId != credentialId
  {
    if store == [] then 0
    else if store[0].spec.credentialId == credentialId then 0
    else 1 + IndexOfCredentialId(store[1..], credentialId)
  }

  /** The position of the record with the metadata name, or |store|. */
  function IndexOfName(store: seq<PasskeyCredential>, name: string): (i: nat)
    ensures i <= |store|
    ensures i < |store| ==> store[i].metadata.name == Some(name)
    ensures forall j | 0 <= j < i :: store[j].metadata.name != Some(name)
  {
    if store == [] then 0
    else if store[0].metadata.name == Some(name) then 0
    else 1 + IndexOfName(store[1..], name)
  }

  /** `findByCredentialId`: the first record with the credential id, if any. */
  function FindByCredentialId(store: seq<PasskeyCredential>, credentialId: string): (r: Option<PasskeyCredential>)
    ensures r.None? <==> forall c | c in store :: c.spec.credentialId != credentialId
    ensures r.Some? ==> r.value in store && r.value.spec.credentialId == credentialId
  {
    var i := IndexOfCredentialId(store, credentialId);
    if i < |store| then Some(store[i]) else None
  }

  /** `findByName`: the record with the metadata name, if any. */
  function FindByName(store: seq<PasskeyCredential>, name: string): (r: Option<PasskeyCredential>)
    ensures r.None? <==> forall c | c in store :: c.metadata.name != Some(name)
    ensures r.Some? ==> r.value in store && r.value.metadata.name == Some(name)
  {
    var i := IndexOfName(store, name);
    if i < |store| then Some(store[i]) else None
  }

  /** Under the unique index, the record found by credential id is the only one with it. */
  lemma FoundCredentialIsUnique(store: seq<PasskeyCredential>, credentialId: string, k: nat)
    requires UniqueCredentialIds(store)
    requires k < |store| && store[k].spec.credentialId == credentialId
    ensures IndexOfCredentialId(store, credentialId) == k
    ensures FindByCredentialId(store, credentialId) == Some(store[k])
  {
  }

  /** The credential ids of a user's records, as `findByUsername(..).map(getCredentialId)`
      collects them: exactly the ids of the records that user owns. */
  function UserCredentialIds(store: seq<PasskeyCredential>, username: string): (ids: seq<string>)
    ensures forall id :: id in ids <==> exists c | c in store :: c.spec.username == username && c.spec.credentialId == id
    ensures |ids| == |FindByUsername(store, username)|
  {
    var mine := FindByUsername(store, username);
    var ids := seq(|mine|, i requires 0 <= i < |mine| => mine[i].spec.credentialId);
    assert forall c | c in mine :: c.spec.credentialId in ids by {
      forall c | c in mine ensures c.spec.credentialId in ids {
        var i :| 0 <= i < |mine| && mine[i] == c;
        assert ids[i] == c.spec.credentialId;
      }
    }
    ids
  }

  /** The new state of a record after `updateSignatureCount`. */
  function WithSignatureCount(c: PasskeyCredential, newCount: int, now: Instant): (u: PasskeyCredential)
    ensures u.spec.signatureCount == newCount && u.spec.lastUsedAt == Some(now)
    ensures u.metadata == c.metadata
    ensures u.spec.(signatureCount := c.spec.signatureCount, lastUsedAt := c.spec.lastUsedAt) == c.spec
  {
    c.(spec := c.spec.(signatureCount := newCount, lastUsedAt := Some(now)))
  }

  /** The outcome of creating `credential` under the generated `name`: the
      store refuses a name or a credential id it already holds, and otherwise
      the record it keeps, which extends the store without breaking its indexes. */
  function SaveResult(store: seq<PasskeyCredential>, credential: PasskeyCredential, name: string): (r: Result<PasskeyCredential, StoreError>)
    ensures r.Success? <==> FindByName(store, name).None? && FindByCredentialId(store, credential.spec.credentialId).None?
    ensures FindByName(store, name).Some? ==> r == Failure(NameTaken)
    ensures r.Success? ==> r.value == credential.(metadata := credential.metadata.(name := Some(name)))
    ensures r.Success? && StoreInvariant(store) ==> StoreInvariant(store + [r.value])
  {
    if FindByName(store, name).Some? then Failure(NameTaken)
    else if FindByCredentialId(store, credential.spec.credentialId).Some? then Failure(CredentialIdTaken)
    else Success(credential.(metadata := credential.metadata.(name := Some(name))))
  }

  /** Replacing one record by another with the same name and credential id keeps the invariant. */
  lemma ReplaceKeepsInvariant(store: seq<PasskeyCredential>, i: nat, c: PasskeyCredential)
    requires StoreInvariant(store) && i < |store|
    requires c.metadata.name == store[i].metadata.name && c.spec.credentialId == store[i].spec.credentialId
    ensures StoreInvariant(store[i := c])
  {
  }

  lemma RemoveKeepsInvariant(store: seq<PasskeyCredential>, i: nat)
    requires StoreInvariant(store) && i < |store|
    ensures StoreInvariant(store[..i] + store[i + 1..])
  {
    var rest := store[..i] + store[i + 1..];
    forall a, b | 0 <= a < b < |rest|
      ensures rest[a].spec.credentialId != rest[b].spec.credentialId
      ensures rest[a].metadata.name != rest[b].metadata.name
    {
      var a', b' := if a < i then a else a + 1, if b < i then b else b + 1;
      assert rest[a] == store[a'] && rest[b] == store[b'];
    }
  }

  /** The service, with the store it reads and writes. */
  class PasskeyCredentialService {
    var store: seq<PasskeyCredential>

    ghost predicate Valid()
      reads this
    {
      StoreInvariant(store)
    }

    constructor (initial: seq<PasskeyCredential>)
      requires StoreInvariant(initial)
      ensures Valid() && store == initial
    {
      store := initial;
    }

    /** `save`, the store's create: the store names the record (`name` is the
        name it generates from "passkey-") and refuses a taken name or
        credential id. */
    method Save(credential: PasskeyCredential, name: string) returns (r: Result<PasskeyCredential, StoreError>)
      requires Valid()
      modifies this
      ensures Valid()
      ensures r == SaveResult(old(store), credential, name)
      ensures store == if r.Success? then old(store) + [r.value] else old(store)
    {
      if FindByName(store, name).Some? {
        return Failure(NameTaken);
      }
      if FindByCredentialId(store, credential.spec.credentialId).Some? {
        return Failure(CredentialIdTaken);
      }
      var named := credential.(metadata := credential.metadata.(name := Some(name)));
      store := store + [named];
      return Success(named);
    }

    /** `update`: replaces the record with the same name; refuses an unknown
        name and a credential id held by another record. */
    method Update(credential: PasskeyCredential) returns (r: Result<PasskeyCredential, StoreError>)
      requires Valid()
      modifies this
      ensures Valid()
      ensures r.Success? <==>
        && credential.metadata.name.Some?
        && IndexOfName(old(store), credential.metadata.name.value) < |old(store)|
        && var i := IndexOfName(old(store), credential.metadata.name.value);
           forall j | 0 <= j < |old(store)| && j != i :: old(store)[j].spec.credentialId != credential.spec.credentialId
      ensures r.Success? ==>
        && r.value == credential
        && store == old(store)[IndexOfName(old(store), credential.metadata.name.value) := credential]
      ensures r.Failure? ==> store == old(store)
    {
      if credential.metadata.name.None? {
        return Failure(NotFound);
      }
      var i := IndexOfName(store, credential.metadata.name.value);
      if i == |store| {
        return Failure(NotFound);
      }
      if exists j | 0 <= j < |store| && j != i :: store[j].spec.credentialId == credential.spec.credentialId {
        return Failure(CredentialIdTaken);
      }
      store := store[i := credential];
      return Success(credential);
    }

    /** `delete(name)`: removes the named record and returns it, or changes nothing. */
    method Delete(name: string) returns (r: Option<PasskeyCredential>)
      requires Valid()
      modifies this
      ensures Valid()
      ensures r == FindByName(old(store), name)
      ensures r.None? ==> store == old(store)
      ensures r.Some? ==> var i := IndexOfName(old(store), name); store == old(store)[..i] + old(store)[i + 1..]
    {
      var i := IndexOfName(store, name);
      if i == |store| {
        return None;
      }
      r := Some(store[i]);
      RemoveKeepsInvariant(store, i);
      store := store[..i] + store[i + 1..];
    }

    /** `updateSignatureCount`: overwrites the counter (no comparison with the
        old one) and `lastUsedAt` of the record with the credential id. */
    method UpdateSignatureCount(credentialId: string, newCount: int, now: Instant) returns (r: Option<PasskeyCredential>)
      requires Valid()
      modifies this
      ensures Valid()
      ensures r.None? <==> FindByCredentialId(old(store), credentialId).None?
      ensures r.None? ==> store == old(store)
      ensures r.Some? ==>
        && r.value == WithSignatureCount(FindByCredentialId(old(store), credentialId).value, newCount, now)
        && store == old(store)[IndexOfCredentialId(old(store), credentialId) := r.value]
    {
      var i := IndexOfCredentialId(store, credentialId);
      if i == |store| {
        return None;
      }
      var updated := WithSignatureCount(store[i], newCount, now);
      FoundByOwnName(store, i);
      var saved := Update(updated);
      return Some(saved.value);
    }
  }

  /** A stored record is found under its own name, and no other record shares its credential id. */
  lemma FoundByOwnName(store: seq<PasskeyCredential>, i: nat)
    requires StoreInvariant(store) && i < |store|
    ensures IndexOfName(store, store[i].metadata.name.value) == i
    ensures forall j | 0 <= j < |store| && j != i :: store[j].spec.credentialId != store[i].spec.credentialId
  {
  }
}
