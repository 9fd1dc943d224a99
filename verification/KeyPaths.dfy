/** Key identifiers and their paths: internal/kms/utils.go, the path functions of
    vault_providers_helpers.go and the path expressions of the BJJ providers. */
module KeyPaths {
  import opened Wrappers
  import opened BigEndian
  import opened Text

  type KeyType = string
  type Did = string

  const BJJ: KeyType := "BJJ"
  const ETH: KeyType := "ETH"
  const ED25519: KeyType := "Ed25519"

  datatype KeyID = KeyID(Type: KeyType, ID: string)

  function ConvertToKeyType(name: string): KeyType {
    if name == "babyjubjub" then BJJ
    else if name == "ethereum" then ETH
    else if name == "ed25519" then ED25519
    else ""
  }

  function ConvertFromKeyType(keyType: KeyType): string {
    if keyType == BJJ then "babyjubjub"
    else if keyType == ETH then "ethereum"
    else if keyType == ED25519 then "ed25519"
    else ""
  }

  function GetKeyID(identity: Option<Did>, keyType: KeyType, keyID: string): string {
    match identity
    case None => keyType + ":" + keyID
    case Some(did) =>
      if !Contains(keyID, keyType) then did + "/" + keyType + ":" + keyID else did + "/" + keyID
  }

  function KeyPathForLocalProvider(identity: Option<Did>, keyType: KeyType, keyID: string): string {
    var basePath := if identity.Some? then identity.value + "/" else "";
    basePath + keyType + ":" + keyID
  }

  /** keyPath of the vault providers. */
  function VaultKeyPath(identity: Option<Did>, keyType: KeyType, keyID: string): string {
    var basePath := if identity.Some? then "keys/" + identity.value + "/" else "";
    basePath + keyType + ":" + keyID
  }

  function AbsVaultSecretPath(path: string): string {
    "secret/data/" + if "/" <= path then path[1..] else path
  }

  // ---------------------------------------------------------------- the path expressions

  function Lower(c: char): char {
    if 'A' <= c <= 'Z' then (c as int + 32) as char else c
  }

  predicate EqualFold(s: string, t: string) {
    |s| == |t| && forall i | 0 <= i < |s| :: Lower(s[i]) == Lower(t[i])
  }

  const KEY_LENGTH := 64

  /** A key type in any case, a colon and 64 hexadecimal digits. */
  ghost predicate AnonForm(keyType: KeyType, s: string, hex: string) {
    && |hex| == KEY_LENGTH && AllHex(hex)
    && exists kt :: EqualFold(kt, keyType) && s == kt + ":" + hex
  }

  /** Anything without a line break, a slash, and the anonymous form. */
  ghost predicate IdenForm(keyType: KeyType, s: string, hex: string) {
    exists pre, rest :: '\n' !in pre && s == pre + "/" + rest && AnonForm(keyType, rest, hex)
  }

  /** The submatch of reAnonKeyPathHex. */
  function AnonSubmatch(keyType: KeyType, s: string): Option<string> {
    var n := |keyType|;
    if |s| == n + 1 + KEY_LENGTH && EqualFold(s[..n], keyType) && s[n] == ':' && AllHex(s[n + 1..])
    then Some(s[n + 1..]) else None
  }

  /** The submatch of reIdenKeyPathHex. */
  function IdenSubmatch(keyType: KeyType, s: string): Option<string> {
    var from := |s| - (|keyType| + 1 + KEY_LENGTH);
    if from >= 1 && s[from - 1] == '/' && '\n' !in s[..from - 1]
    then AnonSubmatch(keyType, s[from..]) else None
  }

  lemma AnonSubmatchIs(keyType: KeyType, s: string, hex: string)
    ensures AnonSubmatch(keyType, s) == Some(hex) <==> AnonForm(keyType, s, hex)
  {
    var n := |keyType|;
    if AnonSubmatch(keyType, s) == Some(hex) {
      assert s == s[..n] + ":" + hex;
    }
    if AnonForm(keyType, s, hex) {
      var kt :| EqualFold(kt, keyType) && s == kt + ":" + hex;
      assert s[..n] == kt && s[n + 1..] == hex;
    }
  }

  lemma IdenSubmatchIs(keyType: KeyType, s: string, hex: string)
    ensures IdenSubmatch(keyType, s) == Some(hex) <==> IdenForm(keyType, s, hex)
  {
    var from := |s| - (|keyType| + 1 + KEY_LENGTH);
    if IdenSubmatch(keyType, s) == Some(hex) {
      AnonSubmatchIs(keyType, s[from..], hex);
      assert s == s[..from - 1] + "/" + s[from..];
    }
    if IdenForm(keyType, s, hex) {
      var pre, rest :| '\n' !in pre && s == pre + "/" + rest && AnonForm(keyType, rest, hex);
      AnonSubmatchIs(keyType, rest, hex);
      assert s[..from - 1] == pre && s[from..] == rest;
    }
  }

  /** PublicKey of the BJJ providers: the anonymous form first, then the bound one. */
  function PublicKey(keyType: KeyType, keyID: KeyID): Option<seq<byte>> {
    if keyID.Type != keyType then None
    else
      var anon := AnonSubmatch(keyType, keyID.ID);
      var ss := if anon.Some? then anon else IdenSubmatch(keyType, keyID.ID);
      if ss.None? then None else HexDecode(ss.value)
  }

  lemma EqualFoldIsReflexive(s: string)
    ensures EqualFold(s, s)
  {
  }

  /** The anonymous path of a 32-byte key gives back the key. */
  lemma AnonPathRecovers(keyType: KeyType, key: seq<byte>)
    requires |key| == 32
    ensures AnonSubmatch(keyType, keyType + ":" + HexEncode(key)) == Some(HexEncode(key))
    ensures PublicKey(keyType, KeyID(keyType, keyType + ":" + HexEncode(key))) == Some(key)
  {
    HexRoundTrip(key);
    EqualFoldIsReflexive(keyType);
    AnonSubmatchIs(keyType, keyType + ":" + HexEncode(key), HexEncode(key));
  }

  /** Binding a path under a prefix makes it match the bound form, if the prefix is on one line,
      and the anonymous form never. */
  lemma BoundPathSubmatch(keyType: KeyType, pre: string, hex: string)
    requires |hex| == KEY_LENGTH && AllHex(hex)
    ensures AnonSubmatch(keyType, pre + "/" + (keyType + ":" + hex)) == None
    ensures IdenSubmatch(keyType, pre + "/" + (keyType + ":" + hex)) == if '\n' !in pre then Some(hex) else None
  {
    var rest := keyType + ":" + hex;
    var path := pre + "/" + rest;
    EqualFoldIsReflexive(keyType);
    AnonSubmatchIs(keyType, rest, hex);
    var from := |path| - (|keyType| + 1 + KEY_LENGTH);
    assert path[..from - 1] == pre && path[from..] == rest;
  }

  /** A path bound under any prefix gives back the key exactly when the prefix is on one line. */
  lemma BoundPathRecovers(keyType: KeyType, pre: string, key: seq<byte>)
    requires |key| == 32
    ensures var path := pre + "/" + (keyType + ":" + HexEncode(key));
            if '\n' !in pre then PublicKey(keyType, KeyID(keyType, path)) == Some(key)
            else PublicKey(keyType, KeyID(keyType, path)) == None
  {
    HexRoundTrip(key);
    BoundPathSubmatch(keyType, pre, HexEncode(key));
  }

  lemma LocalPathShape(identity: Option<Did>, keyType: KeyType, hex: string)
    ensures KeyPathForLocalProvider(identity, keyType, hex)
         == if identity.None? then keyType + ":" + hex else identity.value + "/" + (keyType + ":" + hex)
  {
  }

  lemma VaultPathShape(identity: Option<Did>, keyType: KeyType, hex: string)
    ensures VaultKeyPath(identity, keyType, hex)
         == if identity.None? then keyType + ":" + hex else ("keys/" + identity.value) + "/" + (keyType + ":" + hex)
  {
  }

  /** What the local providers print, PublicKey reads, with an identity on one line or without. */
  lemma LocalPathRecovers(identity: Option<Did>, keyType: KeyType, key: seq<byte>)
    requires |key| == 32
    ensures PublicKey(keyType, KeyID(keyType, KeyPathForLocalProvider(identity, keyType, HexEncode(key)))) == Some(key)
            <==> (identity.Some? ==> '\n' !in identity.value)
  {
    LocalPathShape(identity, keyType, HexEncode(key));
    match identity
    case None => AnonPathRecovers(keyType, key);
    case Some(did) => BoundPathRecovers(keyType, did, key);
  }

  lemma VaultPathRecovers(identity: Option<Did>, keyType: KeyType, key: seq<byte>)
    requires |key| == 32
    ensures PublicKey(keyType, KeyID(keyType, VaultKeyPath(identity, keyType, HexEncode(key)))) == Some(key)
            <==> (identity.Some? ==> '\n' !in identity.value)
  {
    VaultPathShape(identity, keyType, HexEncode(key));
    match identity
    case None => AnonPathRecovers(keyType, key);
    case Some(did) =>
      assert '\n' in "keys/" + did <==> '\n' in did;
      BoundPathRecovers(keyType, "keys/" + did, key);
  }

  /** The stored name of a key type reads back as the type exactly for the three known types. */
  lemma ConversionsInvert(keyType: KeyType)
    ensures ConvertToKeyType(ConvertFromKeyType(keyType)) == keyType <==> keyType in {BJJ, ETH, ED25519, ""}
    ensures ConvertFromKeyType(keyType) ==
      match keyType { case "BJJ" => "babyjubjub" case "ETH" => "ethereum" case "Ed25519" => "ed25519" case _ => "" }
  {
  }

  ghost predicate IsAnon(keyType: KeyType, s: string) {
    exists hex :: AnonForm(keyType, s, hex)
  }

  ghost predicate IsIden(keyType: KeyType, s: string) {
    exists hex :: IdenForm(keyType, s, hex)
  }

  lemma IsAnonWhen(keyType: KeyType, s: string)
    ensures AnonSubmatch(keyType, s).Some? <==> IsAnon(keyType, s)
  {
    if AnonSubmatch(keyType, s).Some? {
      AnonSubmatchIs(keyType, s, AnonSubmatch(keyType, s).value);
    }
    if hex :| AnonForm(keyType, s, hex) {
      AnonSubmatchIs(keyType, s, hex);
    }
  }

  lemma IsIdenWhen(keyType: KeyType, s: string)
    ensures IdenSubmatch(keyType, s).Some? <==> IsIden(keyType, s)
  {
    if IdenSubmatch(keyType, s).Some? {
      IdenSubmatchIs(keyType, s, IdenSubmatch(keyType, s).value);
    }
    if hex :| IdenForm(keyType, s, hex) {
      IdenSubmatchIs(keyType, s, hex);
    }
  }

  lemma SubmatchDecodes(keyType: KeyType, s: string)
    ensures AnonSubmatch(keyType, s).Some? ==> HexDecode(AnonSubmatch(keyType, s).value).Some?
    ensures IdenSubmatch(keyType, s).Some? ==> HexDecode(IdenSubmatch(keyType, s).value).Some?
  {
    if AnonSubmatch(keyType, s).Some? {
      HexDecodesWhen(AnonSubmatch(keyType, s).value);
    }
    if IdenSubmatch(keyType, s).Some? {
      HexDecodesWhen(IdenSubmatch(keyType, s).value);
    }
  }

  /** Which ids name a public key: those of the right type and of one of the two forms. */
  lemma PublicKeyWhen(keyType: KeyType, keyID: KeyID)
    ensures PublicKey(keyType, keyID).Some? <==>
      keyID.Type == keyType && (IsAnon(keyType, keyID.ID) || IsIden(keyType, keyID.ID))
  {
    IsAnonWhen(keyType, keyID.ID);
    IsIdenWhen(keyType, keyID.ID);
    SubmatchDecodes(keyType, keyID.ID);
  }

  /** The key type in a path may be in any case. */
  lemma CaseIsIgnored(hex: string)
    requires |hex| == KEY_LENGTH && AllHex(hex)
    ensures AnonSubmatch(BJJ, "bjj:" + hex) == Some(hex) && AnonSubmatch(BJJ, "BjJ:" + hex) == Some(hex)
    ensures AnonSubmatch(BJJ, "eth:" + hex) == None
  {
    AnonSubmatchIs(BJJ, "bjj:" + hex, hex);
    AnonSubmatchIs(BJJ, "BjJ:" + hex, hex);
    assert EqualFold("bjj", BJJ) && EqualFold("BjJ", BJJ);
    assert ("eth:" + hex)[0] == 'e' && Lower(BJJ[0]) == 'b';
  }
}
