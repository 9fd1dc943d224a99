/** internal/kms/file_storage_manager.go: key material in a list that is read, changed and
    written back as a whole. */
module FileStorage {
  import opened Wrappers
  import opened KeyPaths
  import opened Text

  datatype Entry = Entry(KeyType: string, KeyPath: string, PrivateKey: string)

  datatype Material = Material(keyType: KeyType, keyData: string)

  datatype Error = IoError | KeyNotFound | IncorrectKeyType | IncorrectKeyID

  function EntryOf(material: Material, path: string): Entry {
    Entry(ConvertFromKeyType(material.keyType), path, material.keyData)
  }

  /** The entry is filed under this identity: its path has two or three parts and one of the
      first two is the identity. */
  predicate FiledUnder(entry: Entry, identity: Did) {
    var parts := Split(entry.KeyPath, '/');
    (|parts| == 2 || |parts| == 3) && (parts[0] == identity || parts[1] == identity)
  }

  predicate Listed(entry: Entry, identity: Did, keyType: KeyType) {
    FiledUnder(entry, identity) && entry.KeyType == ConvertFromKeyType(keyType)
  }

  function Listing(content: seq<Entry>, identity: Did, keyType: KeyType): seq<KeyID> {
    if content == [] then []
    else
      var last := content[|content| - 1];
      Listing(content[..|content| - 1], identity, keyType) +
      if Listed(last, identity, keyType)
      then [KeyID(ConvertToKeyType(ConvertFromKeyType(keyType)), last.KeyPath)] else []
  }

  /** The first entry with this path. */
  function Find(content: seq<Entry>, path: string): Option<Entry> {
    if content == [] then None
    else if content[0].KeyPath == path then Some(content[0])
    else Find(content[1..], path)
  }

  /** The list without the first entry with this path. */
  function Without(content: seq<Entry>, path: string): seq<Entry> {
    if content == [] then []
    else if content[0].KeyPath == path then content[1..]
    else [content[0]] + Without(content[1..], path)
  }

  class FileStorageManager {
    var content: seq<Entry>

    /** io tells whether the file can be read and, where it has to be, written. */
    method SaveKeyMaterial(material: Material, id: string, io: bool) returns (err: Option<Error>)
      modifies this
      ensures err == if io then None else Some(IoError)
      ensures content == if io then old(content) + [EntryOf(material, id)] else old(content)
    {
      if !io {
        return Some(IoError);
      }
      content := content + [EntryOf(material, id)];
      return None;
    }

    method SearchByIdentity(identity: Did, keyType: KeyType, io: bool) returns (r: Result<seq<KeyID>, Error>)
      ensures r == if io then Ok(Listing(content, identity, keyType)) else Err(IoError)
    {
      if !io {
        return Err(IoError);
      }
      var keyTypeToRead := ConvertFromKeyType(keyType);
      var keyIDs: seq<KeyID> := [];
      for i := 0 to |content|
        invariant keyIDs == Listing(content[..i], identity, keyType)
      {
        assert content[..i + 1][..i] == content[..i];
        var keyParts := Split(content[i].KeyPath, '/');
        if |keyParts| != 2 && |keyParts| != 3 {
          continue;
        }
        if keyParts[0] == identity || keyParts[1] == identity {
          if content[i].KeyType == keyTypeToRead {
            keyIDs := keyIDs + [KeyID(ConvertToKeyType(keyTypeToRead), content[i].KeyPath)];
          }
        }
      }
      assert content[..|content|] == content;
      return Ok(keyIDs);
    }

    method SearchPrivateKey(keyID: KeyID, io: bool) returns (r: Result<string, Error>)
      ensures !io ==> r == Err(IoError)
      ensures io ==> r == match Find(content, keyID.ID)
                          { case Some(e) => Ok(e.PrivateKey) case None => Err(KeyNotFound) }
    {
      if !io {
        return Err(IoError);
      }
      for i := 0 to |content|
        invariant forall j | 0 <= j < i :: content[j].KeyPath != keyID.ID
      {
        if content[i].KeyPath == keyID.ID {
          FindAt(content, keyID.ID, i);
          return Ok(content[i].PrivateKey);
        }
      }
      FindNone(content, keyID.ID);
      return Err(KeyNotFound);
    }

    method GetKeyMaterial(keyID: KeyID, io: bool) returns (r: Result<Material, Error>)
      ensures !io ==> r == Err(IoError)
      ensures io ==> r == match Find(content, keyID.ID)
                          { case Some(e) => Ok(Material(e.KeyType, e.PrivateKey)) case None => Err(KeyNotFound) }
    {
      if !io {
        return Err(IoError);
      }
      for i := 0 to |content|
        invariant forall j | 0 <= j < i :: content[j].KeyPath != keyID.ID
      {
        if content[i].KeyPath == keyID.ID {
          FindAt(content, keyID.ID, i);
          return Ok(Material(content[i].KeyType, content[i].PrivateKey));
        }
      }
      FindNone(content, keyID.ID);
      return Err(KeyNotFound);
    }

    method DeleteKeyMaterial(keyID: KeyID, io: bool) returns (err: Option<Error>)
      modifies this
      ensures err == if io then None else Some(IoError)
      ensures content == if io then Without(old(content), keyID.ID) else old(content)
    {
      if !io {
        return Some(IoError);
      }
      for i := 0 to |content|
        invariant content == old(content)
        invariant forall j | 0 <= j < i :: content[j].KeyPath != keyID.ID
      {
        if content[i].KeyPath == keyID.ID {
          WithoutAt(content, keyID.ID, i);
          content := content[..i] + content[i + 1..];
          return None;
        }
      }
      WithoutNone(content, keyID.ID);
      return None;
    }
  }

  lemma {:induction false} FindAt(content: seq<Entry>, path: string, i: nat)
    requires i < |content| && content[i].KeyPath == path
    requires forall j | 0 <= j < i :: content[j].KeyPath != path
    ensures Find(content, path) == Some(content[i])
  {
    if i > 0 {
      FindAt(content[1..], path, i - 1);
    }
  }

  lemma {:induction false} FindNone(content: seq<Entry>, path: string)
    requires forall j | 0 <= j < |content| :: content[j].KeyPath != path
    ensures Find(content, path) == None
  {
    if content != [] {
      FindNone(content[1..], path);
    }
  }

  lemma {:induction false} WithoutAt(content: seq<Entry>, path: string, i: nat)
    requires i < |content| && content[i].KeyPath == path
    requires forall j | 0 <= j < i :: content[j].KeyPath != path
    ensures Without(content, path) == content[..i] + content[i + 1..]
  {
    if i > 0 {
      var rest := content[1..];
      WithoutAt(rest, path, i - 1);
      assert [content[0]] + (rest[..i - 1] + rest[i..]) == content[..i] + content[i + 1..];
    }
  }

  lemma {:induction false} WithoutNone(content: seq<Entry>, path: string)
    requires forall j | 0 <= j < |content| :: content[j].KeyPath != path
    ensures Without(content, path) == content
  {
    if content != [] {
      WithoutNone(content[1..], path);
    }
  }

  // ---------------------------------------------------------------- properties of the list

  lemma {:induction false} FindAppended(content: seq<Entry>, entry: Entry, path: string)
    ensures Find(content + [entry], path) ==
      if Find(content, path).Some? then Find(content, path)
      else if entry.KeyPath == path then Some(entry) else None
  {
    if content == [] {
      assert [entry][1..] == [];
    } else {
      assert (content + [entry])[1..] == content[1..] + [entry];
      FindAppended(content[1..], entry, path);
    }
  }

  lemma {:induction false} FindIsMembership(content: seq<Entry>, path: string)
    ensures Find(content, path).None? <==> forall e | e in content :: e.KeyPath != path
    ensures Find(content, path).Some? ==>
      Find(content, path).value in content && Find(content, path).value.KeyPath == path
  {
    if content != [] {
      FindIsMembership(content[1..], path);
      assert content == [content[0]] + content[1..];
    }
  }

  /** The listing has exactly the paths filed under the identity with the right type. */
  lemma {:induction false} ListingIs(content: seq<Entry>, identity: Did, keyType: KeyType, path: string)
    ensures KeyID(ConvertToKeyType(ConvertFromKeyType(keyType)), path) in Listing(content, identity, keyType)
            <==> exists e :: e in content && e.KeyPath == path && Listed(e, identity, keyType)
  {
    if content != [] {
      var n := |content| - 1;
      ListingIs(content[..n], identity, keyType, path);
      assert content == content[..n] + [content[n]];
    }
  }

  /** The paths filed under an identity, written out: its own prefix, or one part in front of it. */
  ghost predicate PathOf(path: string, identity: Did) {
    || (exists x :: '/' !in x && (path == identity + "/" + x || path == x + "/" + identity))
    || (exists x, y :: '/' !in x && '/' !in y
                       && (path == identity + "/" + x + "/" + y || path == x + "/" + identity + "/" + y))
  }

  lemma PartsOfTwo(a: string, b: string)
    requires '/' !in a && '/' !in b
    ensures Split(a + "/" + b, '/') == [a, b]
  {
    SplitWithout(a, '/');
    SplitWithout(b, '/');
    SplitAt(a, '/', b);
    assert a + "/" + b == a + ['/'] + b;
  }

  lemma PartsOfThree(a: string, b: string, c: string)
    requires '/' !in a && '/' !in b && '/' !in c
    ensures Split(a + "/" + b + "/" + c, '/') == [a, b, c]
  {
    PartsOfTwo(b, c);
    SplitWithout(a, '/');
    SplitAt(a, '/', b + "/" + c);
    assert a + "/" + b + "/" + c == a + ['/'] + (b + "/" + c);
  }

  /** An entry is filed under an identity exactly if the identity has no slash and the path one of
      these forms: nothing else of another identity's is. */
  lemma FiledUnderIs(entry: Entry, identity: Did)
    ensures FiledUnder(entry, identity) <==> '/' !in identity && PathOf(entry.KeyPath, identity)
  {
    var path := entry.KeyPath;
    var parts := Split(path, '/');
    PartsHaveNoSeparator(path, '/');
    JoinOfSplit(path, '/');
    if FiledUnder(entry, identity) {
      FiledHasForm(path, identity);
    }
    if '/' !in identity && PathOf(path, identity) {
      FormIsFiled(entry, identity);
    }
  }

  lemma FiledHasForm(path: string, identity: Did)
    requires |Split(path, '/')| == 2 || |Split(path, '/')| == 3
    requires Split(path, '/')[0] == identity || Split(path, '/')[1] == identity
    ensures '/' !in identity && PathOf(path, identity)
  {
    var parts := Split(path, '/');
    PartsHaveNoSeparator(path, '/');
    JoinOfSplit(path, '/');
    assert parts[0] in parts && parts[1] in parts;
    if |parts| == 2 {
      assert path == parts[0] + "/" + parts[1];
    } else {
      assert parts[2] in parts;
      var rest := parts[1..];
      assert rest[0] == parts[1] && rest[1..] == [parts[2]];
      assert Join(rest, '/') == parts[1] + ['/'] + parts[2];
      assert path == parts[0] + ['/'] + (parts[1] + ['/'] + parts[2]);
      assert path == parts[0] + "/" + parts[1] + "/" + parts[2];
    }
  }

  lemma FormIsFiled(entry: Entry, identity: Did)
    requires '/' !in identity && PathOf(entry.KeyPath, identity)
    ensures FiledUnder(entry, identity)
  {
    var path := entry.KeyPath;
    if x :| '/' !in x && (path == identity + "/" + x || path == x + "/" + identity) {
      PartsOfTwo(identity, x);
      PartsOfTwo(x, identity);
    } else {
      var x, y :| '/' !in x && '/' !in y
                  && (path == identity + "/" + x + "/" + y || path == x + "/" + identity + "/" + y);
      PartsOfThree(identity, x, y);
      PartsOfThree(x, identity, y);
    }
  }

  /** The listing of an identity has a path exactly if some entry of the right type has it and it
      is one of that identity's. */
  lemma ListedPaths(content: seq<Entry>, identity: Did, keyType: KeyType, path: string)
    requires keyType in {BJJ, ETH, ED25519}
    ensures KeyID(keyType, path) in Listing(content, identity, keyType) <==>
      && '/' !in identity && PathOf(path, identity)
      && exists e :: e in content && e.KeyPath == path && e.KeyType == ConvertFromKeyType(keyType)
  {
    ConversionsInvert(keyType);
    ListingIs(content, identity, keyType, path);
    forall e | e in content ensures FiledUnder(e, identity) <==> '/' !in identity && PathOf(e.KeyPath, identity) {
      FiledUnderIs(e, identity);
    }
  }

  /** A key linked to one DID is not listed for another, unless its id has a part that is the other
      DID; and no key is listed under a type other than the one it was saved with. */
  lemma OthersAreNotListed(content: seq<Entry>, did: Did, other: Did, id: string, keyType: KeyType, otherType: KeyType)
    requires keyType in {BJJ, ETH, ED25519} && otherType in {BJJ, ETH, ED25519}
    requires did != other && '/' !in did
    ensures Split(id, '/')[0] != other ==> KeyID(keyType, did + "/" + id) !in Listing(content, other, keyType)
    ensures forall e: Entry | e.KeyType == ConvertFromKeyType(otherType) && keyType != otherType ::
              !Listed(e, other, keyType)
    ensures (forall e | e in content :: e.KeyType == ConvertFromKeyType(otherType)) && keyType != otherType ==>
      Listing(content, other, keyType) == []
  {
    var path := did + "/" + id;
    ConversionsInvert(keyType);
    ListingIs(content, other, keyType, path);
    SplitAt(did, '/', id);
    SplitWithout(did, '/');
    assert path == did + ['/'] + id;
    if (forall e | e in content :: e.KeyType == ConvertFromKeyType(otherType)) && keyType != otherType {
      NothingListed(content, other, keyType);
    }
  }

  lemma {:induction false} NothingListed(content: seq<Entry>, identity: Did, keyType: KeyType)
    requires forall e | e in content :: !Listed(e, identity, keyType)
    ensures Listing(content, identity, keyType) == []
  {
    if content != [] {
      var n := |content| - 1;
      assert content[n] in content;
      NothingListed(content[..n], identity, keyType);
    }
  }

  /** The places in the list of the entries that are listed. */
  function Places(content: seq<Entry>, identity: Did, keyType: KeyType): seq<nat> {
    if content == [] then []
    else
      var n := |content| - 1;
      Places(content[..n], identity, keyType) + if Listed(content[n], identity, keyType) then [n] else []
  }

  lemma {:induction false} PlacesAre(content: seq<Entry>, identity: Did, keyType: KeyType, k: nat)
    ensures k in Places(content, identity, keyType) <==> k < |content| && Listed(content[k], identity, keyType)
  {
    if content != [] {
      PlacesAre(content[..|content| - 1], identity, keyType, k);
    }
  }

  lemma {:induction false} PlacesIncrease(content: seq<Entry>, identity: Did, keyType: KeyType)
    ensures var at := Places(content, identity, keyType); forall i, j | 0 <= i < j < |at| :: at[i] < at[j]
  {
    if content != [] {
      var n := |content| - 1;
      var before, at := Places(content[..n], identity, keyType), Places(content, identity, keyType);
      PlacesIncrease(content[..n], identity, keyType);
      forall i, j | 0 <= i < j < |at| ensures at[i] < at[j] {
        assert before[i] in before;
        PlacesAre(content[..n], identity, keyType, before[i]);
        assert j < |before| ==> before[i] < before[j];
      }
    }
  }

  /** The listing has one id for each of these entries, in the order of the list. */
  lemma {:induction false} ListingInOrder(content: seq<Entry>, identity: Did, keyType: KeyType, i: nat)
    ensures |Listing(content, identity, keyType)| == |Places(content, identity, keyType)|
    ensures i < |Places(content, identity, keyType)| ==>
      var k := Places(content, identity, keyType)[i];
      k < |content| && Listing(content, identity, keyType)[i].ID == content[k].KeyPath
  {
    if content != [] {
      ListingInOrder(content[..|content| - 1], identity, keyType, i);
    }
  }

  lemma {:induction false} OtherPathsAreKept(content: seq<Entry>, path: string, other: string)
    requires other != path
    ensures Find(Without(content, path), other) == Find(content, other)
  {
    if content != [] && content[0].KeyPath != path {
      OtherPathsAreKept(content[1..], path, other);
      assert Without(content, path)[1..] == Without(content[1..], path);
    }
  }

  /** Deleting one path removes one entry, keeps the others in order, and hides no other path. */
  lemma WithoutKeepsOthers(content: seq<Entry>, path: string) returns (i: nat)
    ensures i <= |content|
    ensures i < |content| ==> content[i].KeyPath == path && Without(content, path) == content[..i] + content[i + 1..]
    ensures i == |content| ==> Without(content, path) == content
    ensures forall j | 0 <= j < i :: content[j].KeyPath != path
    ensures forall other | other != path :: Find(Without(content, path), other) == Find(content, other)
  {
    i := 0;
    while i < |content| && content[i].KeyPath != path
      invariant i <= |content|
      invariant forall j | 0 <= j < i :: content[j].KeyPath != path
    {
      i := i + 1;
    }
    if i < |content| {
      WithoutAt(content, path, i);
    } else {
      WithoutNone(content, path);
    }
    forall other | other != path ensures Find(Without(content, path), other) == Find(content, other) {
      OtherPathsAreKept(content, path, other);
    }
  }
}
