/** The vault-backed BJJ keys: vault_bjj_key_provider.go and moveSecretData of
    vault_providers_helpers.go.  The vault is a map from absolute path to secret. */
module VaultKeys {
  import opened Wrappers
  import opened BigEndian
  import opened Text
  import opened KeyPaths
  import FileStorage

  type Secret = FileStorage.Material

  datatype Error = VaultError | SecretNotFound | IncorrectKeyType | NotUnbound

  /** Which of the three requests of a move succeed. */
  datatype MoveOutcome = MoveOutcome(read: bool, written: bool, deleted: bool)

  type Secrets = map<string, Secret>

  /** The vault after the first k of: read, write to the new path, delete the old path. */
  function Moved(secrets: Secrets, from: string, to: string, k: nat): Secrets
    requires from in secrets
  {
    if k < 2 then secrets
    else if k == 2 then secrets[to := secrets[from]]
    else secrets[to := secrets[from]] - {from}
  }

  function Requests(secrets: Secrets, from: string, o: MoveOutcome): nat {
    if from !in secrets || !o.read then 0
    else if !o.written then 1
    else if !o.deleted then 2
    else 3
  }

  const DEFAULT_LENGTH := 32

  function Created(secrets: Secrets, keyType: KeyType, path: string, priv: string): Secrets {
    secrets[AbsVaultSecretPath(path) := FileStorage.Material(keyType, priv)]
  }

  /** The private key behind an id: its path has one of the two forms, and the secret there is of
      the same type and has 32 bytes. */
  function StoredKey(secrets: Secrets, keyType: KeyType, keyID: KeyID): Option<seq<byte>> {
    var path := AbsVaultSecretPath(keyID.ID);
    if keyID.Type != keyType || (AnonSubmatch(keyType, keyID.ID).None? && IdenSubmatch(keyType, keyID.ID).None?)
       || path !in secrets || secrets[path].keyType != keyType
    then None
    else
      var val := HexDecode(secrets[path].keyData);
      if val.Some? && |val.value| == DEFAULT_LENGTH then val else None
  }

  class Vault {
    var secrets: Secrets

    method SaveKeyMaterial(path: string, secret: Secret, written: bool) returns (err: Option<Error>)
      modifies this
      ensures err.None? <==> written
      ensures secrets == if written then old(secrets)[AbsVaultSecretPath(path) := secret] else old(secrets)
    {
      if !written {
        return Some(VaultError);
      }
      secrets := secrets[AbsVaultSecretPath(path) := secret];
      return None;
    }

    /** The id is returned even when the save fails. */
    method New(keyType: KeyType, identity: Option<Did>, pub: string, priv: string, written: bool)
      returns (r: KeyID, err: Option<Error>)
      modifies this
      ensures r == KeyID(keyType, VaultKeyPath(identity, keyType, pub))
      ensures err.None? <==> written
      ensures secrets == if written then Created(old(secrets), keyType, r.ID, priv) else old(secrets)
    {
      r := KeyID(keyType, VaultKeyPath(identity, keyType, pub));
      err := SaveKeyMaterial(r.ID, FileStorage.Material(keyType, priv), written);
    }

    method PrivateKey(keyType: KeyType, keyID: KeyID, read: bool) returns (r: Option<seq<byte>>)
      ensures r == if read then StoredKey(secrets, keyType, keyID) else None
    {
      if keyID.Type != keyType {
        return None;
      }
      if AnonSubmatch(keyType, keyID.ID).None? && IdenSubmatch(keyType, keyID.ID).None? {
        return None;
      }
      var path := AbsVaultSecretPath(keyID.ID);
      if !read || path !in secrets || secrets[path].keyType != keyType {
        return None;
      }
      var val := HexDecode(secrets[path].keyData);
      if val.None? || |val.value| != DEFAULT_LENGTH {
        return None;
      }
      return val;
    }

    method MoveSecretData(oldPath: string, newPath: string, o: MoveOutcome) returns (err: Option<Error>)
      modifies this
      ensures var from, to := AbsVaultSecretPath(oldPath), AbsVaultSecretPath(newPath);
              && (from !in old(secrets) ==> err.Some? && secrets == old(secrets))
              && (from in old(secrets) ==>
                    && secrets == Moved(old(secrets), from, to, Requests(old(secrets), from, o))
                    && (err.None? <==> Requests(old(secrets), from, o) == 3))
      ensures err.None? <==> AbsVaultSecretPath(oldPath) in old(secrets) && o.read && o.written && o.deleted
    {
      var from, to := AbsVaultSecretPath(oldPath), AbsVaultSecretPath(newPath);
      if !o.read {
        return Some(VaultError);
      }
      if from !in secrets {
        return Some(SecretNotFound);
      }
      var secData := secrets[from];
      if !o.written {
        return Some(VaultError);
      }
      secrets := secrets[to := secData];
      if !o.deleted {
        return Some(VaultError);
      }
      secrets := secrets - {from};
      return None;
    }

    /** The new id is returned even when the move fails half way. */
    method LinkToIdentity(keyType: KeyType, keyID: KeyID, identity: Did, o: MoveOutcome)
      returns (r: KeyID, err: Option<Error>)
      modifies this
      ensures keyID.Type != keyType || AnonSubmatch(keyType, keyID.ID).None? ==>
        err.Some? && r == keyID && secrets == old(secrets)
      ensures keyID.Type == keyType && AnonSubmatch(keyType, keyID.ID).Some? ==>
        && r == LinkedVaultKey(keyType, keyID, identity)
        && r.ID == "keys/" + identity + "/" + keyType + ":" + keyID.ID[|keyType| + 1..]
        && var from, to := AbsVaultSecretPath(keyID.ID), AbsVaultSecretPath(r.ID);
           if from !in old(secrets) then err.Some? && secrets == old(secrets)
           else
             && secrets == Moved(old(secrets), from, to, Requests(old(secrets), from, o))
             && (err.None? <==> Requests(old(secrets), from, o) == 3)
    {
      if keyID.Type != keyType {
        return keyID, Some(IncorrectKeyType);
      }
      var ss := AnonSubmatch(keyType, keyID.ID);
      if ss.None? {
        return keyID, Some(NotUnbound);
      }
      r := KeyID(keyID.Type, VaultKeyPath(Some(identity), keyType, ss.value));
      err := MoveSecretData(keyID.ID, r.ID, o);
    }
  }

  function LinkedVaultKey(keyType: KeyType, keyID: KeyID, identity: Did): KeyID
    requires AnonSubmatch(keyType, keyID.ID).Some?
  {
    KeyID(keyID.Type, VaultKeyPath(Some(identity), keyType, AnonSubmatch(keyType, keyID.ID).value))
  }

  /** What is in the vault when a move stops: nothing has changed before the write; after it the
      secret is at the new path, and after the delete no longer at the old one. */
  lemma MovedIs(secrets: Secrets, from: string, to: string, o: MoveOutcome)
    requires from in secrets
    ensures var m := Moved(secrets, from, to, Requests(secrets, from, o));
            && (!o.read || !o.written ==> m == secrets)
            && (o.read && o.written && from != to ==> to in m && m[to] == secrets[from])
            && (o.read && o.written && from != to ==> (from in m <==> !o.deleted))
            && (forall p | p != from && p != to :: p in m <==> p in secrets)
  {
  }

  /** Between any two requests of a move, and after the last, the secret is at the old path or at
      the new one - unless the move is complete and the two paths are the same. */
  lemma MoveNeverLoses(secrets: Secrets, from: string, to: string, k: nat)
    requires from in secrets
    ensures var m := Moved(secrets, from, to, k);
            ((from in m && m[from] == secrets[from]) || (to in m && m[to] == secrets[from])) <==> from != to || k < 3
    ensures forall p | p in secrets && p != from && p != to ::
              p in Moved(secrets, from, to, k) && Moved(secrets, from, to, k)[p] == secrets[p]
  {
  }

  /** Linking moves a secret between two paths that always differ, and its new id names the same
      public key exactly when the DID has no line break; otherwise it names none. */
  lemma LinkKeepsKey(keyType: KeyType, keyID: KeyID, identity: Did)
    requires keyID.Type == keyType && AnonSubmatch(keyType, keyID.ID).Some?
    ensures var linked := LinkedVaultKey(keyType, keyID, identity);
            && AbsVaultSecretPath(keyID.ID) != AbsVaultSecretPath(linked.ID)
            && PublicKey(keyType, linked) == if '\n' !in identity then PublicKey(keyType, keyID) else None
  {
    var hex := AnonSubmatch(keyType, keyID.ID).value;
    VaultPathShape(Some(identity), keyType, hex);
    BoundPathSubmatch(keyType, "keys/" + identity, hex);
    LongerPathDiffers(keyID.ID, LinkedVaultKey(keyType, keyID, identity).ID);
  }

  /** A leading slash is not part of the place of a secret. */
  lemma AbsolutePathIs(path: string)
    ensures AbsVaultSecretPath(path) == "secret/data/" + path <==> !("/" <= path)
    ensures AbsVaultSecretPath("/" + path) == "secret/data/" + path
  {
    assert ("/" + path)[1..] == path;
    if "/" <= path {
      assert |AbsVaultSecretPath(path)| == |"secret/data/" + path| - 1;
    }
  }

  lemma LongerPathDiffers(path: string, other: string)
    requires |path| < |other| && other[0] != '/'
    ensures AbsVaultSecretPath(path) != AbsVaultSecretPath(other)
  {
    assert |AbsVaultSecretPath(path)| <= |"secret/data/"| + |path| < |AbsVaultSecretPath(other)|;
  }

  lemma StoredKeyAt(secrets: Secrets, keyType: KeyType, keyID: KeyID, priv: seq<byte>)
    requires keyID.Type == keyType && |priv| == DEFAULT_LENGTH
    requires AbsVaultSecretPath(keyID.ID) in secrets
    requires secrets[AbsVaultSecretPath(keyID.ID)] == FileStorage.Material(keyType, HexEncode(priv))
    ensures StoredKey(secrets, keyType, keyID) ==
      if AnonSubmatch(keyType, keyID.ID).None? && IdenSubmatch(keyType, keyID.ID).None? then None else Some(priv)
  {
    HexRoundTrip(priv);
  }

  /** Which ids have a private key: of the right type, of one of the two forms, with a secret of
      the same type whose data are 32 bytes in hexadecimal digits. */
  lemma StoredKeyWhen(secrets: Secrets, keyType: KeyType, keyID: KeyID)
    ensures var path := AbsVaultSecretPath(keyID.ID);
            StoredKey(secrets, keyType, keyID).Some? <==>
              && keyID.Type == keyType && (IsAnon(keyType, keyID.ID) || IsIden(keyType, keyID.ID))
              && path in secrets && secrets[path].keyType == keyType
              && |secrets[path].keyData| == 64 && AllHex(secrets[path].keyData)
  {
    IsAnonWhen(keyType, keyID.ID);
    IsIdenWhen(keyType, keyID.ID);
    if AbsVaultSecretPath(keyID.ID) in secrets {
      IsKeyWhen(secrets[AbsVaultSecretPath(keyID.ID)].keyData);
    }
  }

  lemma IsKeyWhen(hex: string)
    ensures HexDecode(hex).Some? && |HexDecode(hex).value| == DEFAULT_LENGTH <==> |hex| == 64 && AllHex(hex)
  {
    HexDecodesWhen(hex);
  }

  /** A key that New has saved is read back, both parts of it, under the id that New returned,
      exactly when the DID, if any, has no line break. */
  lemma NewKeyIsReadBack(secrets: Secrets, keyType: KeyType, identity: Option<Did>, key: seq<byte>, priv: seq<byte>)
    requires |key| == 32 && |priv| == DEFAULT_LENGTH
    ensures var id := KeyID(keyType, VaultKeyPath(identity, keyType, HexEncode(key)));
            var found := identity.Some? ==> '\n' !in identity.value;
            var after := Created(secrets, keyType, id.ID, HexEncode(priv));
            && PublicKey(keyType, id) == (if found then Some(key) else None)
            && StoredKey(after, keyType, id) == (if found then Some(priv) else None)
  {
    HexRoundTrip(key);
    VaultPathShape(identity, keyType, HexEncode(key));
    match identity {
      case None => AnonPathRecovers(keyType, key);
      case Some(did) =>
        BoundPathRecovers(keyType, "keys/" + did, key);
        BoundPathSubmatch(keyType, "keys/" + did, HexEncode(key));
    }
    var id := KeyID(keyType, VaultKeyPath(identity, keyType, HexEncode(key)));
    StoredKeyAt(Created(secrets, keyType, id.ID, HexEncode(priv)), keyType, id, priv);
  }

  /** The vault after a complete link. */
  function Linked(secrets: Secrets, keyType: KeyType, id: KeyID, did: Did): Secrets
    requires AnonSubmatch(keyType, id.ID).Some? && AbsVaultSecretPath(id.ID) in secrets
  {
    Moved(secrets, AbsVaultSecretPath(id.ID), AbsVaultSecretPath(LinkedVaultKey(keyType, id, did).ID), 3)
  }

  /** A linked private key is read under its new id, exactly when the DID has no line break, and
      not under the old one. */
  lemma LinkedKeyIsReadBack(secrets: Secrets, keyType: KeyType, id: KeyID, priv: seq<byte>, did: Did)
    requires id.Type == keyType && AnonSubmatch(keyType, id.ID).Some? && |priv| == DEFAULT_LENGTH
    requires AbsVaultSecretPath(id.ID) in secrets
    requires secrets[AbsVaultSecretPath(id.ID)] == FileStorage.Material(keyType, HexEncode(priv))
    ensures var after := Linked(secrets, keyType, id, did);
            && StoredKey(after, keyType, LinkedVaultKey(keyType, id, did))
               == (if '\n' !in did then Some(priv) else None)
            && StoredKey(after, keyType, id) == None
  {
    LinkKeepsKey(keyType, id, did);
    LinkedFormIs(keyType, id, did);
    StoredKeyAt(Linked(secrets, keyType, id, did), keyType, LinkedVaultKey(keyType, id, did), priv);
  }

  lemma LinkedFormIs(keyType: KeyType, id: KeyID, did: Did)
    requires AnonSubmatch(keyType, id.ID).Some?
    ensures var path := LinkedVaultKey(keyType, id, did).ID;
            AnonSubmatch(keyType, path).None? && (IdenSubmatch(keyType, path).Some? <==> '\n' !in did)
  {
    var hex := AnonSubmatch(keyType, id.ID).value;
    VaultPathShape(Some(did), keyType, hex);
    BoundPathSubmatch(keyType, "keys/" + did, hex);
  }

  /** Linking takes a new key from the path that New wrote: both parts are read under the new id,
      exactly when the DID has no line break. */
  lemma NewKeyIsLinked(secrets: Secrets, keyType: KeyType, id: KeyID, key: seq<byte>, priv: seq<byte>, did: Did)
    requires |key| == 32 && |priv| == DEFAULT_LENGTH
    requires id == KeyID(keyType, VaultKeyPath(None, keyType, HexEncode(key)))
    ensures var created := Created(secrets, keyType, id.ID, HexEncode(priv));
            && AnonSubmatch(keyType, id.ID).Some? && AbsVaultSecretPath(id.ID) in created
            && var linked := LinkedVaultKey(keyType, id, did);
               && PublicKey(keyType, linked) == (if '\n' !in did then Some(key) else None)
               && StoredKey(Linked(created, keyType, id, did), keyType, linked)
                  == (if '\n' !in did then Some(priv) else None)
  {
    NewIdIsUnbound(keyType, key);
    LinkKeepsKey(keyType, id, did);
    LinkedKeyIsReadBack(Created(secrets, keyType, id.ID, HexEncode(priv)), keyType, id, priv, did);
  }

  lemma NewIdIsUnbound(keyType: KeyType, key: seq<byte>)
    requires |key| == 32
    ensures var path := VaultKeyPath(None, keyType, HexEncode(key));
            AnonSubmatch(keyType, path).Some? && PublicKey(keyType, KeyID(keyType, path)) == Some(key)
  {
    VaultPathShape(None, keyType, HexEncode(key));
    AnonPathRecovers(keyType, key);
  }
}
