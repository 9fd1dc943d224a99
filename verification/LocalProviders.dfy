/** The local key providers of internal/kms: local_eth_key_provider.go,
    local_bjj_key_provider.go and local_ed25519_key_provider.go.  Key generation is abstracted
    to a public part, printed as the provider prints it, and a private part in hexadecimal. */
module LocalProviders {
  import opened Wrappers
  import opened BigEndian
  import opened Text
  import opened KeyPaths
  import opened FileStorage
  import opened KeyRing

  const DEFAULT_LENGTH := 32

  /** The bytes behind a looked-up private key, which have to be 32. */
  function Decoded(hex: Option<string>): Option<seq<byte>> {
    if hex.None? then None
    else
      var val := HexDecode(hex.value);
      if val.Some? && |val.value| == DEFAULT_LENGTH then val else None
  }

  /** Just the hexadecimal strings of 32 bytes are decoded, to those bytes. */
  lemma DecodedIs(hex: string, priv: seq<byte>)
    ensures Decoded(Some(hex)).Some? <==> |hex| == 64 && AllHex(hex)
    ensures Decoded(Some(HexEncode(priv))) == if |priv| == 32 then Some(priv) else None
    ensures Decoded(None) == None
  {
    HexDecodesWhen(hex);
    HexRoundTrip(priv);
  }

  lemma HexIsEmptyWhen(priv: seq<byte>)
    ensures HexEncode(priv) == "" <==> priv == []
  {
    HexRoundTrip(priv);
  }

  /** The bytes of a key that the ETH provider made are read back under the id of New, and after
      linking under the id of LinkToIdentity, if they are 32; other lengths are refused. */
  lemma GeneratedEthKeyIsRead(l: Ledger, identity: Option<Did>, pub: string, priv: seq<byte>, hex: string, did: Did)
    requires priv != [] && hex == HexEncode(priv)
    requires Inv(ETH, l) && FreshKey(ETH, l, identity, pub, hex)
    ensures var id := NewID(ETH, identity, pub);
            var made := AfterNew(ETH, l.ring, identity, pub, hex, true);
            var linked := AfterLink(ETH, made, id, did, true);
            && Decoded(Lookup(ETH, made, KeyID(ETH, id))) == (if |priv| == 32 then Some(priv) else None)
            && Decoded(Lookup(ETH, linked, KeyID(ETH, LinkedID(ETH, did, id))))
               == (if |priv| == 32 then Some(priv) else None)
  {
    DecodedIs(hex, priv);
    HexIsEmptyWhen(priv);
    MadeKeyIsFound(ETH, l.ring, identity, pub, hex);
    MadeAndLinkedKeyIsFound(ETH, l, identity, pub, hex, did);
  }

  /** To a lookup, a file that cannot be read is like an empty one. */
  function Readable(ring: Ring, io: bool): Ring {
    if io then ring else ring.(file := [])
  }

  /** Keys of either kind stay temporary until they are linked. */
  class LocalEthKeyProvider {
    const keyType: KeyType := ETH
    const storageManager: FileStorageManager
    var temporaryKeys: map<string, Material>

    constructor (manager: FileStorageManager)
      ensures storageManager == manager && temporaryKeys == map[]
    {
      storageManager := manager;
      temporaryKeys := map[];
    }

    ghost function View(): Ring
      reads this, storageManager
    {
      Ring(temporaryKeys, storageManager.content)
    }

    method New(identity: Option<Did>, pub: string, priv: string) returns (keyID: KeyID)
      modifies this
      ensures keyID == KeyID(keyType, NewID(keyType, identity, pub))
      ensures keyID.ID in temporaryKeys && temporaryKeys[keyID.ID] == Material(keyType, priv)
      ensures storageManager.content == old(storageManager.content)
      ensures View() == AfterNew(keyType, old(View()), identity, pub, priv, true)
    {
      keyID := KeyID(keyType, GetKeyID(identity, keyType, pub));
      temporaryKeys := temporaryKeys[keyID.ID := Material(keyType, priv)];
    }

    method LinkToIdentity(keyID: KeyID, identity: Did, io: bool) returns (r: Result<KeyID, Error>)
      modifies this, storageManager
      ensures keyID.Type != keyType ==> r == Err(IncorrectKeyType) && View() == old(View())
      ensures r == Err(KeyNotFound) ==> View() == old(View())
      ensures keyID.Type == keyType ==>
        && View() == AfterLink(keyType, old(View()), keyID.ID, identity, io)
        && r == (if keyID.ID !in old(temporaryKeys) then Err(KeyNotFound)
                 else if !io then Err(IoError)
                 else Ok(KeyID(keyType, LinkedID(keyType, identity, keyID.ID))))
    {
      if keyID.Type != keyType {
        return Err(IncorrectKeyType);
      }
      var known := keyID.ID in temporaryKeys;
      var keyMaterial := if known then temporaryKeys[keyID.ID] else Material("", "");
      temporaryKeys := temporaryKeys - {keyID.ID};
      if !known {
        return Err(KeyNotFound);
      }
      var newKey := GetKeyID(Some(identity), keyType, keyID.ID);
      var err := storageManager.SaveKeyMaterial(keyMaterial, newKey, io);
      if err.Some? {
        return Err(err.value);
      }
      return Ok(KeyID(keyType, identity + "/" + keyID.ID));
    }

    method ListByIdentity(identity: Did, io: bool) returns (r: Result<seq<KeyID>, Error>)
      ensures r == if io then Ok(Listing(storageManager.content, identity, keyType)) else Err(IoError)
    {
      r := storageManager.SearchByIdentity(identity, keyType, io);
    }

    method Delete(keyID: KeyID, io: bool) returns (err: Option<Error>)
      modifies storageManager
      ensures err.None? <==> io
      ensures View() == if io then old(View()).(file := FileStorage.Without(old(View()).file, keyID.ID))
                        else old(View())
    {
      err := storageManager.DeleteKeyMaterial(keyID, io);
    }

    method PrivateKey(keyID: KeyID, io: bool) returns (r: Option<seq<byte>>)
      ensures r == Decoded(Lookup(keyType, Readable(View(), io), keyID))
      ensures keyID.Type != keyType || keyID.ID == "" ==> r == None
    {
      if keyID.Type != keyType || keyID.ID == "" {
        return None;
      }
      var hex := "";
      if keyID.ID in temporaryKeys {
        hex := temporaryKeys[keyID.ID].keyData;
      }
      if hex == "" {
        var found := storageManager.SearchPrivateKey(keyID, io);
        if found.Err? {
          return None;
        }
        hex := found.value;
      }
      return Decoded(Some(hex));
    }
  }

  /** What becomes of a seed: ed25519.NewKeyFromSeed panics if it does not have 32 bytes. */
  datatype Expansion = PrivateKeyOf(key: seq<byte>) | Failed | Panics

  function Expanded(hex: Option<string>, fromSeed: seq<byte> -> seq<byte>): Expansion {
    if hex.None? || HexDecode(hex.value).None? then Failed
    else if |HexDecode(hex.value).value| != DEFAULT_LENGTH then Panics
    else PrivateKeyOf(fromSeed(HexDecode(hex.value).value))
  }

  /** As for ETH, but the length of a seed is not checked before it is expanded. */
  class LocalEd25519KeyProvider {
    const keyType: KeyType := ED25519
    const storageManager: FileStorageManager
    var temporaryKeys: map<string, Material>

    constructor (manager: FileStorageManager)
      ensures storageManager == manager && temporaryKeys == map[]
    {
      storageManager := manager;
      temporaryKeys := map[];
    }

    ghost function View(): Ring
      reads this, storageManager
    {
      Ring(temporaryKeys, storageManager.content)
    }

    method New(identity: Option<Did>, pub: string, priv: string) returns (keyID: KeyID)
      modifies this
      ensures keyID == KeyID(keyType, NewID(keyType, identity, pub))
      ensures keyID.ID in temporaryKeys && temporaryKeys[keyID.ID] == Material(keyType, priv)
      ensures storageManager.content == old(storageManager.content)
      ensures View() == AfterNew(keyType, old(View()), identity, pub, priv, true)
    {
      keyID := KeyID(keyType, GetKeyID(identity, keyType, pub));
      temporaryKeys := temporaryKeys[keyID.ID := Material(keyType, priv)];
    }

    method LinkToIdentity(keyID: KeyID, identity: Did, io: bool) returns (r: Result<KeyID, Error>)
      modifies this, storageManager
      ensures keyID.Type != keyType ==> r == Err(IncorrectKeyType) && View() == old(View())
      ensures r == Err(KeyNotFound) ==> View() == old(View())
      ensures keyID.Type == keyType ==>
        && View() == AfterLink(keyType, old(View()), keyID.ID, identity, io)
        && r == (if keyID.ID !in old(temporaryKeys) then Err(KeyNotFound)
                 else if !io then Err(IoError)
                 else Ok(KeyID(keyType, LinkedID(keyType, identity, keyID.ID))))
    {
      if keyID.Type != keyType {
        return Err(IncorrectKeyType);
      }
      var known := keyID.ID in temporaryKeys;
      var keyMaterial := if known then temporaryKeys[keyID.ID] else Material("", "");
      temporaryKeys := temporaryKeys - {keyID.ID};
      if !known {
        return Err(KeyNotFound);
      }
      var newKey := GetKeyID(Some(identity), keyType, keyID.ID);
      var err := storageManager.SaveKeyMaterial(keyMaterial, newKey, io);
      if err.Some? {
        return Err(err.value);
      }
      return Ok(KeyID(keyType, identity + "/" + keyID.ID));
    }

    method ListByIdentity(identity: Did, io: bool) returns (r: Result<seq<KeyID>, Error>)
      ensures r == if io then Ok(Listing(storageManager.content, identity, keyType)) else Err(IoError)
    {
      r := storageManager.SearchByIdentity(identity, keyType, io);
    }

    method Delete(keyID: KeyID, io: bool) returns (err: Option<Error>)
      modifies storageManager
      ensures err.None? <==> io
      ensures View() == if io then old(View()).(file := FileStorage.Without(old(View()).file, keyID.ID))
                        else old(View())
    {
      err := storageManager.DeleteKeyMaterial(keyID, io);
    }

    method PrivateKey(keyID: KeyID, io: bool, fromSeed: seq<byte> -> seq<byte>) returns (r: Expansion)
      ensures r == Expanded(Lookup(keyType, Readable(View(), io), keyID), fromSeed)
      ensures keyID.Type != keyType || keyID.ID == "" ==> r == Failed
    {
      if keyID.Type != keyType || keyID.ID == "" {
        return Failed;
      }
      var hex := "";
      if keyID.ID in temporaryKeys {
        hex := temporaryKeys[keyID.ID].keyData;
      }
      if hex == "" {
        var found := storageManager.SearchPrivateKey(keyID, io);
        if found.Err? {
          return Failed;
        }
        hex := found.value;
      }
      var decodedSeed := HexDecode(hex);
      if decodedSeed.None? {
        return Failed;
      }
      if |decodedSeed.value| != DEFAULT_LENGTH {
        return Panics;
      }
      return PrivateKeyOf(fromSeed(decodedSeed.value));
    }
  }

  lemma SeedExpands(seed: seq<byte>, fromSeed: seq<byte> -> seq<byte>)
    requires |seed| == DEFAULT_LENGTH
    ensures HexEncode(seed) != "" && Expanded(Some(HexEncode(seed)), fromSeed) == PrivateKeyOf(fromSeed(seed))
  {
    HexRoundTrip(seed);
  }

  /** A key that the Ed25519 provider generated from a 32-byte seed never panics, before it is
      linked or after, and expands to the key of that seed. */
  lemma GeneratedSeedsDoNotPanic(l: Ledger, identity: Option<Did>, pub: string, seed: seq<byte>, hex: string, did: Did,
                                 fromSeed: seq<byte> -> seq<byte>)
    requires |seed| == DEFAULT_LENGTH && hex == HexEncode(seed)
    requires Inv(ED25519, l) && FreshKey(ED25519, l, identity, pub, hex)
    ensures var id := NewID(ED25519, identity, pub);
            var made := AfterNew(ED25519, l.ring, identity, pub, hex, true);
            var linked := AfterLink(ED25519, made, id, did, true);
            && Expanded(Lookup(ED25519, made, KeyID(ED25519, id)), fromSeed) == PrivateKeyOf(fromSeed(seed))
            && Expanded(Lookup(ED25519, linked, KeyID(ED25519, LinkedID(ED25519, did, id))), fromSeed)
               == PrivateKeyOf(fromSeed(seed))
  {
    SeedExpands(seed, fromSeed);
    MadeKeyIsFound(ED25519, l.ring, identity, pub, hex);
    MadeAndLinkedKeyIsFound(ED25519, l, identity, pub, hex, did);
  }

  /** A key made for an identity is saved at once; linking returns the bare DID. */
  class LocalBJJKeyProvider {
    const keyType: KeyType := BJJ
    const storageManager: FileStorageManager
    var temporaryKeys: map<string, Material>

    constructor (manager: FileStorageManager)
      ensures storageManager == manager && temporaryKeys == map[]
    {
      storageManager := manager;
      temporaryKeys := map[];
    }

    ghost function View(): Ring
      reads this, storageManager
    {
      Ring(temporaryKeys, storageManager.content)
    }

    method New(identity: Option<Did>, pub: string, priv: string, io: bool) returns (r: Result<KeyID, Error>)
      modifies this, storageManager
      ensures r == if identity.Some? && !io then Err(IoError) else Ok(KeyID(keyType, NewID(keyType, identity, pub)))
      ensures r.Err? ==> View() == old(View())
      ensures View() == AfterNew(keyType, old(View()), identity, pub, priv, io)
    {
      var keyID := KeyID(keyType, KeyPathForLocalProvider(identity, keyType, pub));
      var keyMaterial := Material(keyType, priv);
      if identity.None? {
        temporaryKeys := temporaryKeys[keyID.ID := keyMaterial];
      } else {
        var err := storageManager.SaveKeyMaterial(keyMaterial, keyID.ID, io);
        if err.Some? {
          return Err(err.value);
        }
        temporaryKeys := temporaryKeys - {keyID.ID};
      }
      return Ok(keyID);
    }

    method LinkToIdentity(keyID: KeyID, identity: Did, io: bool) returns (r: Result<KeyID, Error>)
      modifies this, storageManager
      ensures keyID.Type != keyType ==> r == Err(IncorrectKeyType) && View() == old(View())
      ensures r == Err(KeyNotFound) ==> View() == old(View())
      ensures keyID.Type == keyType ==>
        && View() == AfterLink(keyType, old(View()), keyID.ID, identity, io)
        && r == (if keyID.ID !in old(temporaryKeys) then Err(KeyNotFound)
                 else if !io then Err(IoError)
                 else Ok(KeyID(keyType, LinkedID(keyType, identity, keyID.ID))))
    {
      if keyID.Type != keyType {
        return Err(IncorrectKeyType);
      }
      if keyID.ID !in temporaryKeys {
        return Err(KeyNotFound);
      }
      var keyMaterial := temporaryKeys[keyID.ID];
      temporaryKeys := temporaryKeys - {keyID.ID};
      var newKey := GetKeyID(Some(identity), keyType, keyID.ID);
      var err := storageManager.SaveKeyMaterial(keyMaterial, newKey, io);
      if err.Some? {
        return Err(err.value);
      }
      return Ok(KeyID(keyType, identity));
    }

    method ListByIdentity(identity: Did, io: bool) returns (r: Result<seq<KeyID>, Error>)
      ensures r == if io then Ok(Listing(storageManager.content, identity, keyType)) else Err(IoError)
    {
      r := storageManager.SearchByIdentity(identity, keyType, io);
    }

    method Delete(keyID: KeyID, io: bool) returns (err: Option<Error>)
      modifies storageManager
      ensures err.None? <==> io
      ensures View() == if io then old(View()).(file := FileStorage.Without(old(View()).file, keyID.ID))
                        else old(View())
    {
      err := storageManager.DeleteKeyMaterial(keyID, io);
    }

    method PrivateKey(keyID: KeyID, io: bool) returns (r: Option<seq<byte>>)
      ensures r == Decoded(Lookup(keyType, Readable(View(), io), keyID))
      ensures keyID.Type != keyType ==> r == None
    {
      if keyID.Type != keyType {
        return None;
      }
      if AnonSubmatch(keyType, keyID.ID).None? && IdenSubmatch(keyType, keyID.ID).None? {
        return None;
      }
      var found := storageManager.SearchPrivateKey(keyID, io);
      if found.Err? {
        return None;
      }
      return Decoded(Some(found.value));
    }
  }

  /** A key pair made by the BJJ provider without an identity and linked afterwards: PublicKey
      reads its public part from the path it was saved under, and its private part is found
      there, both exactly when the DID is on one line. */
  lemma LinkedBJJPairAgrees(l: Ledger, key: seq<byte>, priv: string, did: Did)
    requires Inv(BJJ, l) && |key| == 32
    requires FreshKey(BJJ, l, None, HexEncode(key), priv)
    ensures var id := NewID(BJJ, None, HexEncode(key));
            var ring := AfterLink(BJJ, AfterNew(BJJ, l.ring, None, HexEncode(key), priv, true), id, did, true);
            && PublicKey(BJJ, KeyID(BJJ, did + "/" + id)) == (if '\n' !in did then Some(key) else None)
            && Lookup(BJJ, ring, KeyID(BJJ, did + "/" + id)) == (if '\n' !in did then Some(priv) else None)
  {
    var pub := HexEncode(key);
    var id := NewID(BJJ, None, pub);
    LocalPathShape(None, BJJ, pub);
    AnonPathRecovers(BJJ, key);
    BoundPathRecovers(BJJ, did, key);
    NewKeepsInv(BJJ, l, None, pub, priv);
    LinkedBJJKeyIsFound(Apply(BJJ, l, New(None, pub, priv)), id, did);
  }

  /** And in bytes: 32 are read back, exactly when the DID is on one line; other lengths are refused. */
  lemma LinkedBJJKeyIsRead(l: Ledger, key: seq<byte>, priv: seq<byte>, hex: string, did: Did)
    requires Inv(BJJ, l) && |key| == 32 && hex == HexEncode(priv)
    requires FreshKey(BJJ, l, None, HexEncode(key), hex)
    ensures var id := NewID(BJJ, None, HexEncode(key));
            var ring := AfterLink(BJJ, AfterNew(BJJ, l.ring, None, HexEncode(key), hex, true), id, did, true);
            Decoded(Lookup(BJJ, ring, KeyID(BJJ, did + "/" + id)))
            == if '\n' !in did && |priv| == 32 then Some(priv) else None
  {
    LinkedBJJPairAgrees(l, key, hex, did);
    DecodedIs(hex, priv);
  }

  /** A key made for an identity is read back at once, under the same conditions, and its id names
      its public part. */
  lemma BJJKeyOfIdentityIsRead(l: Ledger, key: seq<byte>, priv: seq<byte>, hex: string, did: Did)
    requires |key| == 32 && hex == HexEncode(priv)
    requires FreshKey(BJJ, l, Some(did), HexEncode(key), hex)
    ensures var id := NewID(BJJ, Some(did), HexEncode(key));
            var ring := AfterNew(BJJ, l.ring, Some(did), HexEncode(key), hex, true);
            && PublicKey(BJJ, KeyID(BJJ, id)) == (if '\n' !in did then Some(key) else None)
            && Decoded(Lookup(BJJ, ring, KeyID(BJJ, id))) == (if '\n' !in did && |priv| == 32 then Some(priv) else None)
  {
    HexRoundTrip(key);
    BoundPathRecovers(BJJ, did, key);
    BoundPathSubmatch(BJJ, did, HexEncode(key));
    LocalPathShape(Some(did), BJJ, HexEncode(key));
    SavedUnderFreshPath(l, Some(did), HexEncode(key), hex);
    DecodedIs(hex, priv);
  }

  lemma SavedUnderFreshPath(l: Ledger, identity: Option<Did>, pub: string, hex: string)
    requires FreshKey(BJJ, l, identity, pub, hex) && identity.Some?
    ensures Stored(AfterNew(BJJ, l.ring, identity, pub, hex, true).file, NewID(BJJ, identity, pub)) == Some(hex)
  {
    var id := NewID(BJJ, identity, pub);
    FindIsMembership(l.ring.file, id);
    FindAppended(l.ring.file, EntryOf(Material(BJJ, hex), id), id);
  }
}
