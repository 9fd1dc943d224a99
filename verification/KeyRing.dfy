/** What the three local key providers do to their temporary keys and to the shared list, and
    what becomes of every private key over whole runs. */
module KeyRing {
  import opened Wrappers
  import opened Text
  import opened KeyPaths
  import opened FileStorage

  /** The temporary keys of one provider and the list it shares with the others. */
  datatype Ring = Ring(temp: map<string, Material>, file: seq<Entry>)

  predicate LocalType(keyType: KeyType) {
    keyType in {BJJ, ETH, ED25519}
  }

  /** New names the key; the BJJ provider has a path rule of its own. */
  function NewID(keyType: KeyType, identity: Option<Did>, pub: string): string {
    if keyType == BJJ then KeyPathForLocalProvider(identity, keyType, pub) else GetKeyID(identity, keyType, pub)
  }

  /** New keeps the key as temporary, except that BJJ saves a key made for an identity at once. */
  function AfterNew(keyType: KeyType, ring: Ring, identity: Option<Did>, pub: string, priv: string, io: bool): Ring {
    var id := NewID(keyType, identity, pub);
    var material := Material(keyType, priv);
    if keyType == BJJ && identity.Some? then
      if io then Ring(ring.temp - {id}, ring.file + [EntryOf(material, id)]) else ring
    else
      ring.(temp := ring.temp[id := material])
  }

  /** LinkToIdentity takes the temporary key away before it saves it under the identity. */
  function AfterLink(keyType: KeyType, ring: Ring, id: string, did: Did, io: bool): Ring {
    if id !in ring.temp then ring
    else
      Ring(ring.temp - {id},
           if io then ring.file + [EntryOf(ring.temp[id], GetKeyID(Some(did), keyType, id))] else ring.file)
  }

  /** The id LinkToIdentity returns: for BJJ it is the bare DID. */
  function LinkedID(keyType: KeyType, did: Did, id: string): string {
    if keyType == BJJ then did else did + "/" + id
  }

  /** privateKey, up to decoding the hexadecimal digits.  BJJ insists on its path forms and looks
      in the list only; the others look at the temporary keys first. */
  function Lookup(keyType: KeyType, ring: Ring, keyID: KeyID): Option<string> {
    if keyID.Type != keyType then None
    else if keyType == BJJ then
      if AnonSubmatch(keyType, keyID.ID).None? && IdenSubmatch(keyType, keyID.ID).None? then None
      else Stored(ring.file, keyID.ID)
    else if keyID.ID == "" then None
    else if keyID.ID in ring.temp && ring.temp[keyID.ID].keyData != "" then Some(ring.temp[keyID.ID].keyData)
    else Stored(ring.file, keyID.ID)
  }

  function Stored(file: seq<Entry>, path: string): Option<string> {
    match Find(file, path) { case Some(e) => Some(e.PrivateKey) case None => None }
  }

  // ---------------------------------------------------------------- leaves of paths

  /** The last part of a path, which names the key itself. */
  function Leaf(path: string): string {
    var parts := Split(path, '/');
    parts[|parts| - 1]
  }

  lemma LeafOfBound(did: Did, id: string)
    ensures Leaf(did + "/" + id) == Leaf(id)
  {
    SplitAt(did, '/', id);
    assert did + "/" + id == did + ['/'] + id;
  }

  /** Every id that New hands out mentions its key type, so linking only prefixes it. */
  lemma NewIDMentionsType(keyType: KeyType, identity: Option<Did>, pub: string)
    ensures Contains(NewID(keyType, identity, pub), keyType)
  {
    if identity.None? {
      OccurrenceIsFound("", keyType, ":" + pub);
      assert NewID(keyType, identity, pub) == "" + keyType + (":" + pub);
    } else if keyType != BJJ && Contains(pub, keyType) {
      var a, b := FoundIsOccurrence(pub, keyType);
      OccurrenceIsFound(identity.value + "/" + a, keyType, b);
      assert NewID(keyType, identity, pub) == (identity.value + "/" + a) + keyType + b;
    } else {
      OccurrenceIsFound(identity.value + "/", keyType, ":" + pub);
      assert NewID(keyType, identity, pub) == (identity.value + "/") + keyType + (":" + pub);
    }
  }

  /** What New hands out, written out.  Only ETH and Ed25519 leave the type away, if the public
      part of a key made for an identity mentions it. */
  lemma NewIDIs(keyType: KeyType, identity: Option<Did>, pub: string)
    ensures NewID(keyType, identity, pub) ==
      if identity.None? then keyType + ":" + pub
      else if keyType != BJJ && Contains(pub, keyType) then identity.value + "/" + pub
      else identity.value + "/" + keyType + ":" + pub
  {
  }

  /** The part of an id that names the key: what follows the DID. */
  function Named(keyType: KeyType, pub: string): string {
    if keyType != BJJ && Contains(pub, keyType) then pub else keyType + ":" + pub
  }

  lemma SpelledOutMentionsType(keyType: KeyType, pub: string)
    ensures Contains(keyType + ":" + pub, keyType)
  {
    OccurrenceIsFound("", keyType, ":" + pub);
    assert "" + keyType + (":" + pub) == keyType + ":" + pub;
  }

  lemma NamedIsInjective(keyType: KeyType, pub: string, other: string)
    ensures Named(keyType, pub) == Named(keyType, other) <==>
      || pub == other
      || (keyType != BJJ && !Contains(pub, keyType) && other == keyType + ":" + pub)
      || (keyType != BJJ && !Contains(other, keyType) && pub == keyType + ":" + other)
  {
    SamePrefix(keyType + ":", pub, other);
    SpelledOutMentionsType(keyType, pub);
    SpelledOutMentionsType(keyType, other);
  }

  lemma NewIDIsNamed(keyType: KeyType, identity: Option<Did>, pub: string)
    ensures NewID(keyType, identity, pub) ==
      if identity.None? then keyType + ":" + pub else identity.value + "/" + Named(keyType, pub)
  {
    if identity.Some? {
      assert identity.value + "/" + (keyType + ":" + pub) == identity.value + "/" + keyType + ":" + pub;
    }
  }

  /** Different public parts get different ids, except for one that spells out the id of the other. */
  lemma NewIDIsInjective(keyType: KeyType, identity: Option<Did>, pub: string, other: string)
    ensures NewID(keyType, identity, pub) == NewID(keyType, identity, other) <==>
      if identity.None? then pub == other else Named(keyType, pub) == Named(keyType, other)
  {
    NewIDIsNamed(keyType, identity, pub);
    NewIDIsNamed(keyType, identity, other);
    match identity
    case None => SamePrefix(keyType + ":", pub, other);
    case Some(did) => SamePrefix(did + "/", Named(keyType, pub), Named(keyType, other));
  }

  lemma SamePrefix(pre: string, a: string, b: string)
    ensures pre + a == pre + b <==> a == b
  {
    if pre + a == pre + b {
      assert (pre + a)[|pre|..] == a && (pre + b)[|pre|..] == b;
    }
  }

  // ---------------------------------------------------------------- runs

  datatype Op =
    | New(identity: Option<Did>, pub: string, priv: string)
    | Link(id: string, did: Did)
    | Delete(path: string)
    | Foreign(entry: Entry)        // another provider saves to the shared list

  /** A ring together with the private keys its provider has generated and not deleted. */
  datatype Ledger = Ledger(ring: Ring, born: set<string>)

  datatype Site = Temp(id: string) | File(i: nat)

  /** All the places a private key is kept in. */
  function Sites(ring: Ring, priv: string): set<Site> {
    (set id | id in ring.temp && ring.temp[id].keyData == priv :: Temp(id))
    + (set i: nat | i < |ring.file| && ring.file[i].PrivateKey == priv :: File(i))
  }

  ghost predicate LeafInUse(ring: Ring, leaf: string) {
    (exists id :: id in ring.temp && Leaf(id) == leaf) || (exists e :: e in ring.file && Leaf(e.KeyPath) == leaf)
  }

  /** A generated key is new, both its private part and the name made of its public part. */
  ghost predicate FreshKey(keyType: KeyType, l: Ledger, identity: Option<Did>, pub: string, priv: string) {
    && priv !in l.born && Sites(l.ring, priv) == {}
    && !LeafInUse(l.ring, Leaf(NewID(keyType, identity, pub)))
  }

  ghost predicate Possible(keyType: KeyType, l: Ledger, op: Op) {
    match op
    case New(identity, pub, priv) => FreshKey(keyType, l, identity, pub, priv)
    case Link(_, _) => true
    case Delete(_) => true
    case Foreign(entry) =>
      entry.PrivateKey !in l.born && forall id | id in l.ring.temp :: Leaf(id) != Leaf(entry.KeyPath)
  }

  /** The effect of an operation whose save succeeds. */
  function Apply(keyType: KeyType, l: Ledger, op: Op): Ledger {
    match op
    case New(identity, pub, priv) =>
      Ledger(AfterNew(keyType, l.ring, identity, pub, priv, true), l.born + {priv})
    case Link(id, did) => l.(ring := AfterLink(keyType, l.ring, id, did, true))
    case Delete(path) =>
      var gone := Stored(l.ring.file, path);
      Ledger(l.ring.(file := Without(l.ring.file, path)), if gone.Some? then l.born - {gone.value} else l.born)
    case Foreign(entry) => l.(ring := l.ring.(file := l.ring.file + [entry]))
  }

  ghost predicate Runs(keyType: KeyType, l: Ledger, ops: seq<Op>)
    decreases |ops|
  {
    ops == [] || (Possible(keyType, l, ops[0]) && Runs(keyType, Apply(keyType, l, ops[0]), ops[1..]))
  }

  function Run(keyType: KeyType, l: Ledger, ops: seq<Op>): Ledger
    decreases |ops|
  {
    if ops == [] then l else Run(keyType, Apply(keyType, l, ops[0]), ops[1..])
  }

  ghost predicate OneSite(ring: Ring, priv: string) {
    |Sites(ring, priv)| == 1
  }

  ghost predicate Conserved(l: Ledger) {
    forall priv | priv in l.born :: OneSite(l.ring, priv)
  }

  /** Temporary ids are told apart by their leaves, among each other and from the saved paths. */
  ghost predicate NamesOk(keyType: KeyType, l: Ledger) {
    && (forall a, b | a in l.ring.temp && b in l.ring.temp && a != b :: Leaf(a) != Leaf(b))
    && (forall a, e | a in l.ring.temp && e in l.ring.file :: Leaf(a) != Leaf(e.KeyPath))
    && (forall a | a in l.ring.temp ::
          Contains(a, keyType) && l.ring.temp[a].keyType == keyType && l.ring.temp[a].keyData in l.born)
  }

  ghost predicate Inv(keyType: KeyType, l: Ledger) {
    Conserved(l) && NamesOk(keyType, l)
  }

  lemma SizeOne<T>(s: set<T>, x: T)
    requires |s| == 1 && x in s
    ensures s == {x}
  {
    assert |s - {x}| == 0;
    assert s == {x} + (s - {x});
  }

  /** Adding an entry with another private key leaves the sites of this one alone. */
  lemma AppendSites(ring: Ring, entry: Entry, priv: string)
    ensures Sites(ring.(file := ring.file + [entry]), priv)
         == Sites(ring, priv) + if entry.PrivateKey == priv then {File(|ring.file|)} else {}
  {
    var file := ring.file + [entry];
    assert forall i: nat | i < |ring.file| :: file[i] == ring.file[i];
  }

  lemma NewTempSites(ring: Ring, id: string, material: Material, priv: string)
    requires id !in ring.temp
    ensures Sites(ring.(temp := ring.temp[id := material]), priv)
         == Sites(ring, priv) + if material.keyData == priv then {Temp(id)} else {}
  {
  }

  lemma DropTempSites(ring: Ring, id: string, priv: string)
    ensures Sites(ring.(temp := ring.temp - {id}), priv) == Sites(ring, priv) - {Temp(id)}
  {
  }

  lemma NewTempOneSite(ring: Ring, id: string, material: Material, priv: string)
    requires id !in ring.temp
    requires if priv == material.keyData then Sites(ring, priv) == {} else OneSite(ring, priv)
    ensures OneSite(ring.(temp := ring.temp[id := material]), priv)
  {
    NewTempSites(ring, id, material, priv);
    var sites := Sites(ring.(temp := ring.temp[id := material]), priv);
    assert sites == if priv == material.keyData then {Temp(id)} else Sites(ring, priv);
  }

  lemma AppendOneSite(ring: Ring, entry: Entry, priv: string)
    requires if priv == entry.PrivateKey then Sites(ring, priv) == {} else OneSite(ring, priv)
    ensures OneSite(ring.(file := ring.file + [entry]), priv)
  {
    AppendSites(ring, entry, priv);
    var sites := Sites(ring.(file := ring.file + [entry]), priv);
    assert sites == if priv == entry.PrivateKey then {File(|ring.file|)} else Sites(ring, priv);
  }

  lemma AddTempConserves(l: Ledger, id: string, material: Material)
    requires Conserved(l) && material.keyData !in l.born && Sites(l.ring, material.keyData) == {} && id !in l.ring.temp
    ensures Conserved(Ledger(l.ring.(temp := l.ring.temp[id := material]), l.born + {material.keyData}))
  {
    forall p | p in l.born + {material.keyData} ensures OneSite(l.ring.(temp := l.ring.temp[id := material]), p) {
      NewTempOneSite(l.ring, id, material, p);
    }
  }

  lemma AppendConserves(l: Ledger, entry: Entry)
    requires Conserved(l) && entry.PrivateKey !in l.born && Sites(l.ring, entry.PrivateKey) == {}
    ensures Conserved(Ledger(l.ring.(file := l.ring.file + [entry]), l.born + {entry.PrivateKey}))
  {
    forall p | p in l.born + {entry.PrivateKey} ensures OneSite(l.ring.(file := l.ring.file + [entry]), p) {
      AppendOneSite(l.ring, entry, p);
    }
  }

  /** One private key moves from the temporary key to the new entry. */
  lemma MoveOneSite(ring: Ring, id: string, entry: Entry, priv: string)
    requires id in ring.temp && entry.PrivateKey == ring.temp[id].keyData && OneSite(ring, priv)
    ensures OneSite(Ring(ring.temp - {id}, ring.file + [entry]), priv)
  {
    var dropped := ring.(temp := ring.temp - {id});
    DropTempSites(ring, id, priv);
    if entry.PrivateKey == priv {
      SizeOne(Sites(ring, priv), Temp(id));
    } else {
      assert Temp(id) !in Sites(ring, priv);
      assert Sites(dropped, priv) == Sites(ring, priv);
    }
    AppendOneSite(dropped, entry, priv);
  }

  lemma MoveConserves(l: Ledger, id: string, entry: Entry)
    requires Conserved(l) && id in l.ring.temp && entry.PrivateKey == l.ring.temp[id].keyData
    ensures Conserved(l.(ring := Ring(l.ring.temp - {id}, l.ring.file + [entry])))
  {
    forall p | p in l.born ensures OneSite(Ring(l.ring.temp - {id}, l.ring.file + [entry]), p) {
      assert OneSite(l.ring, p);
      MoveOneSite(l.ring, id, entry, p);
    }
  }

  lemma AddTempNames(keyType: KeyType, l: Ledger, id: string, priv: string)
    requires NamesOk(keyType, l) && Contains(id, keyType) && !LeafInUse(l.ring, Leaf(id))
    ensures NamesOk(keyType, Ledger(l.ring.(temp := l.ring.temp[id := Material(keyType, priv)]), l.born + {priv}))
  {
  }

  lemma AppendNames(keyType: KeyType, l: Ledger, entry: Entry)
    requires NamesOk(keyType, l) && !LeafInUse(l.ring, Leaf(entry.KeyPath))
    ensures NamesOk(keyType, Ledger(l.ring.(file := l.ring.file + [entry]), l.born + {entry.PrivateKey}))
  {
  }

  lemma NewKeepsInv(keyType: KeyType, l: Ledger, identity: Option<Did>, pub: string, priv: string)
    requires Inv(keyType, l) && FreshKey(keyType, l, identity, pub, priv)
    ensures Inv(keyType, Apply(keyType, l, New(identity, pub, priv)))
  {
    NewIDMentionsType(keyType, identity, pub);
    NewNamedKeepsInv(keyType, l, identity, pub, priv, NewID(keyType, identity, pub));
  }

  lemma NewNamedKeepsInv(keyType: KeyType, l: Ledger, identity: Option<Did>, pub: string, priv: string, id: string)
    requires Inv(keyType, l) && id == NewID(keyType, identity, pub) && Contains(id, keyType)
    requires priv !in l.born && Sites(l.ring, priv) == {} && !LeafInUse(l.ring, Leaf(id))
    ensures Inv(keyType, Apply(keyType, l, New(identity, pub, priv)))
  {
    var l' := Apply(keyType, l, New(identity, pub, priv));
    var entry := EntryOf(Material(keyType, priv), id);
    assert id !in l.ring.temp;
    if keyType == BJJ && identity.Some? {
      assert l.ring.temp - {id} == l.ring.temp;
      assert l' == Ledger(l.ring.(file := l.ring.file + [entry]), l.born + {priv});
      AppendConserves(l, entry);
      AppendNames(keyType, l, entry);
    } else {
      assert l' == Ledger(l.ring.(temp := l.ring.temp[id := Material(keyType, priv)]), l.born + {priv});
      AddTempConserves(l, id, Material(keyType, priv));
      AddTempNames(keyType, l, id, priv);
    }
  }

  lemma MoveNames(keyType: KeyType, l: Ledger, id: string, entry: Entry)
    requires NamesOk(keyType, l) && id in l.ring.temp && Leaf(entry.KeyPath) == Leaf(id)
    ensures NamesOk(keyType, l.(ring := Ring(l.ring.temp - {id}, l.ring.file + [entry])))
  {
  }

  lemma LinkKeepsInv(keyType: KeyType, l: Ledger, id: string, did: Did)
    requires Inv(keyType, l)
    ensures Inv(keyType, Apply(keyType, l, Link(id, did)))
  {
    if id in l.ring.temp {
      LeafOfBound(did, id);
      var entry := EntryOf(l.ring.temp[id], GetKeyID(Some(did), keyType, id));
      MoveConserves(l, id, entry);
      MoveNames(keyType, l, id, entry);
    }
  }

  lemma ForeignKeepsInv(keyType: KeyType, l: Ledger, entry: Entry)
    requires Inv(keyType, l) && Possible(keyType, l, Foreign(entry))
    ensures Inv(keyType, Apply(keyType, l, Foreign(entry)))
  {
    var l' := Apply(keyType, l, Foreign(entry));
    forall p | p in l'.born ensures OneSite(l'.ring, p) {
      assert OneSite(l.ring, p);
      AppendOneSite(l.ring, entry, p);
    }
  }

  /** Taking one entry out of the list moves the later ones up, and leaves every private key but
      that of the entry where it is. */
  lemma DeleteOneSite(ring: Ring, path: string, priv: string)
    requires OneSite(ring, priv)
    requires Stored(ring.file, path) != Some(priv)
    ensures OneSite(ring.(file := Without(ring.file, path)), priv)
  {
    var i := WithoutKeepsOthers(ring.file, path);
    if i < |ring.file| {
      FindAt(ring.file, path, i);
      var rest := ring.(file := Without(ring.file, path));
      var x :| x in Sites(ring, priv);
      SizeOne(Sites(ring, priv), x);
      var y := match x { case Temp(id) => x case File(j) => if j < i then x else File(j - 1) };
      SitesAfterDelete(ring, rest, i, priv, x, y);
    }
  }

  lemma SitesAfterDelete(ring: Ring, rest: Ring, i: nat, priv: string, x: Site, y: Site)
    requires i < |ring.file| && ring.file[i].PrivateKey != priv
    requires rest == ring.(file := ring.file[..i] + ring.file[i + 1..])
    requires Sites(ring, priv) == {x} && (x.File? ==> x.i != i)
    requires y == (match x { case Temp(id) => x case File(j) => if j < i then x else File(j - 1) })
    ensures Sites(rest, priv) == {y}
  {
    forall z ensures z in Sites(rest, priv) <==> z == y {
      match z
      case Temp(id) => assert z in Sites(rest, priv) <==> z in Sites(ring, priv);
      case File(m) =>
        var was := if m < i then m else m + 1;
        assert m < |rest.file| ==> rest.file[m] == ring.file[was];
        assert z in Sites(rest, priv) <==> File(was) in Sites(ring, priv);
    }
  }

  lemma DeleteKeepsInv(keyType: KeyType, l: Ledger, path: string)
    requires Inv(keyType, l)
    ensures Inv(keyType, Apply(keyType, l, Delete(path)))
  {
    var l' := Apply(keyType, l, Delete(path));
    forall p | p in l'.born ensures OneSite(l'.ring, p) {
      assert OneSite(l.ring, p);
      DeleteOneSite(l.ring, path, p);
    }
    DeleteKeepsNames(keyType, l, path);
  }

  lemma TemporaryIsNotFiled(l: Ledger, id: string, i: nat)
    requires Conserved(l) && id in l.ring.temp && l.ring.temp[id].keyData in l.born && i < |l.ring.file|
    ensures l.ring.file[i].PrivateKey != l.ring.temp[id].keyData
  {
    var priv := l.ring.temp[id].keyData;
    assert OneSite(l.ring, priv);
    SizeOne(Sites(l.ring, priv), Temp(id));
    assert File(i) !in Sites(l.ring, priv);
  }

  lemma FewerNames(keyType: KeyType, l: Ledger, file: seq<Entry>, born: set<string>)
    requires NamesOk(keyType, l) && forall e | e in file :: e in l.ring.file
    requires forall id | id in l.ring.temp :: l.ring.temp[id].keyData in born
    ensures NamesOk(keyType, Ledger(l.ring.(file := file), born))
  {
  }

  lemma DeleteKeepsNames(keyType: KeyType, l: Ledger, path: string)
    requires Inv(keyType, l)
    ensures NamesOk(keyType, Apply(keyType, l, Delete(path)))
  {
    var next := Apply(keyType, l, Delete(path));
    forall id | id in l.ring.temp ensures l.ring.temp[id].keyData in next.born {
      TemporaryIsNotDeleted(l, id, path);
    }
    FewerEntries(l.ring.file, path);
    FewerNames(keyType, l, next.ring.file, next.born);
  }

  lemma TemporaryIsNotDeleted(l: Ledger, id: string, path: string)
    requires Conserved(l) && id in l.ring.temp && l.ring.temp[id].keyData in l.born
    ensures Stored(l.ring.file, path) != Some(l.ring.temp[id].keyData)
  {
    var i := WithoutKeepsOthers(l.ring.file, path);
    if i < |l.ring.file| {
      FindAt(l.ring.file, path, i);
      TemporaryIsNotFiled(l, id, i);
    } else {
      FindIsMembership(l.ring.file, path);
    }
  }

  lemma FewerEntries(file: seq<Entry>, path: string)
    ensures forall e | e in Without(file, path) :: e in file
  {
    var i := WithoutKeepsOthers(file, path);
  }

  /** Over every run of successful operations each private key that was generated and not deleted
      is kept in exactly one place, as a temporary key or as one entry of the list. */
  lemma {:induction false} KeysAreConserved(keyType: KeyType, l: Ledger, ops: seq<Op>)
    requires Inv(keyType, l) && Runs(keyType, l, ops)
    ensures Inv(keyType, Run(keyType, l, ops))
    ensures forall priv | priv in Run(keyType, l, ops).born :: OneSite(Run(keyType, l, ops).ring, priv)
    decreases |ops|
  {
    if ops != [] {
      match ops[0] {
        case New(identity, pub, priv) => NewKeepsInv(keyType, l, identity, pub, priv);
        case Link(id, did) => LinkKeepsInv(keyType, l, id, did);
        case Delete(path) => DeleteKeepsInv(keyType, l, path);
        case Foreign(entry) => ForeignKeepsInv(keyType, l, entry);
      }
      KeysAreConserved(keyType, Apply(keyType, l, ops[0]), ops[1..]);
    }
  }

  /** The same from a provider that has just been opened on any list. */
  lemma ConservedFromTheStart(keyType: KeyType, file: seq<Entry>, ops: seq<Op>)
    requires Runs(keyType, Ledger(Ring(map[], file), {}), ops)
    ensures var e := Run(keyType, Ledger(Ring(map[], file), {}), ops);
            Inv(keyType, e) && forall priv | priv in e.born :: OneSite(e.ring, priv)
  {
    KeysAreConserved(keyType, Ledger(Ring(map[], file), {}), ops);
  }

  /** A stored key stays under its path until that path is deleted. */
  lemma {:induction false} StoredKeyStays(keyType: KeyType, l: Ledger, ops: seq<Op>, path: string)
    requires Stored(l.ring.file, path).Some? && Delete(path) !in ops
    ensures Stored(Run(keyType, l, ops).ring.file, path) == Stored(l.ring.file, path)
    decreases |ops|
  {
    if ops != [] {
      var next := Apply(keyType, l, ops[0]);
      StoredKeyStaysOnce(keyType, l, ops[0], path);
      StoredKeyStays(keyType, next, ops[1..], path);
    }
  }

  lemma StoredKeyStaysOnce(keyType: KeyType, l: Ledger, op: Op, path: string)
    requires Stored(l.ring.file, path).Some? && op != Delete(path)
    ensures Stored(Apply(keyType, l, op).ring.file, path) == Stored(l.ring.file, path)
  {
    match op
    case New(identity, pub, priv) =>
      FindAppended(l.ring.file, EntryOf(Material(keyType, priv), NewID(keyType, identity, pub)), path);
    case Link(id, did) =>
      if id in l.ring.temp {
        FindAppended(l.ring.file, EntryOf(l.ring.temp[id], GetKeyID(Some(did), keyType, id)), path);
      }
    case Delete(other) => OtherPathsAreKept(l.ring.file, other, path);
    case Foreign(entry) => FindAppended(l.ring.file, entry, path);
  }

  // ---------------------------------------------------------------- after linking

  lemma LinkedKeyIsStored(keyType: KeyType, l: Ledger, id: string, did: Did)
    requires Inv(keyType, l) && id in l.ring.temp
    ensures var ring := AfterLink(keyType, l.ring, id, did, true);
            && GetKeyID(Some(did), keyType, id) == did + "/" + id
            && did + "/" + id !in ring.temp
            && Stored(ring.file, did + "/" + id) == Some(l.ring.temp[id].keyData)
  {
    var path := did + "/" + id;
    LeafOfBound(did, id);
    FindIsMembership(l.ring.file, path);
    FindAppended(l.ring.file, EntryOf(l.ring.temp[id], path), path);
  }

  /** Whatever happens after a link, the key stays under its path until that path is deleted. */
  lemma LinkedKeyStays(keyType: KeyType, l: Ledger, id: string, did: Did, ops: seq<Op>)
    requires Inv(keyType, l) && id in l.ring.temp && Delete(did + "/" + id) !in ops
    ensures Stored(Run(keyType, Apply(keyType, l, Link(id, did)), ops).ring.file, did + "/" + id)
         == Some(l.ring.temp[id].keyData)
  {
    LinkedKeyIsStored(keyType, l, id, did);
    StoredKeyStays(keyType, Apply(keyType, l, Link(id, did)), ops, did + "/" + id);
  }

  /** An entry stays in the list until its path is deleted. */
  lemma {:induction false} EntryStays(keyType: KeyType, l: Ledger, ops: seq<Op>, e: Entry)
    requires e in l.ring.file && Delete(e.KeyPath) !in ops
    ensures e in Run(keyType, l, ops).ring.file
    decreases |ops|
  {
    if ops != [] {
      var next := Apply(keyType, l, ops[0]);
      if ops[0].Delete? {
        var i := WithoutKeepsOthers(l.ring.file, ops[0].path);
        assert ops[0] in ops;
      }
      assert e in next.ring.file;
      EntryStays(keyType, next, ops[1..], e);
    }
  }

  /** Whatever happens after a link, the listing shows the key until its path is deleted, exactly
      when the DID has no slash and the id at most one. */
  lemma LinkedKeyStaysListed(keyType: KeyType, l: Ledger, id: string, did: Did, ops: seq<Op>)
    requires LocalType(keyType) && Inv(keyType, l) && id in l.ring.temp && Delete(did + "/" + id) !in ops
    ensures var e := Run(keyType, Apply(keyType, l, Link(id, did)), ops);
            KeyID(keyType, did + "/" + id) in Listing(e.ring.file, did, keyType)
            <==> '/' !in did && |Split(id, '/')| <= 2
  {
    var path := did + "/" + id;
    var next := Apply(keyType, l, Link(id, did));
    var entry := EntryOf(l.ring.temp[id], path);
    LinkedKeyIsStored(keyType, l, id, did);
    assert entry in next.ring.file;
    EntryStays(keyType, next, ops, entry);
    ListedWhen(keyType, Run(keyType, next, ops).ring.file, entry, did, id);
  }

  /** Whatever happens after a link, ETH and Ed25519 find the key under the id that linking
      returned until that path is deleted. */
  lemma LinkedKeyStaysFound(keyType: KeyType, l: Ledger, id: string, did: Did, ops: seq<Op>)
    requires keyType in {ETH, ED25519} && Inv(keyType, l) && id in l.ring.temp && Delete(did + "/" + id) !in ops
    requires Runs(keyType, Apply(keyType, l, Link(id, did)), ops)
    ensures var e := Run(keyType, Apply(keyType, l, Link(id, did)), ops);
            Lookup(keyType, e.ring, KeyID(keyType, LinkedID(keyType, did, id))) == Some(l.ring.temp[id].keyData)
  {
    var next := Apply(keyType, l, Link(id, did));
    LinkedKeyStays(keyType, l, id, did, ops);
    LinkKeepsInv(keyType, l, id, did);
    KeysAreConserved(keyType, next, ops);
    StoredIsNotTemporary(keyType, Run(keyType, next, ops), did + "/" + id);
  }

  lemma StoredIsNotTemporary(keyType: KeyType, l: Ledger, path: string)
    requires NamesOk(keyType, l) && Stored(l.ring.file, path).Some?
    ensures path !in l.ring.temp
  {
    FindIsMembership(l.ring.file, path);
  }

  /** For ETH and Ed25519 the returned id is the saved path, and the key is found under it. */
  lemma LinkedKeyIsFound(keyType: KeyType, l: Ledger, id: string, did: Did)
    requires keyType in {ETH, ED25519} && Inv(keyType, l) && id in l.ring.temp
    ensures var ring := AfterLink(keyType, l.ring, id, did, true);
            Lookup(keyType, ring, KeyID(keyType, LinkedID(keyType, did, id))) == Some(l.ring.temp[id].keyData)
  {
    LinkedKeyIsStored(keyType, l, id, did);
  }

  /** ETH and Ed25519 find a key they have made under the id that New returned. */
  lemma MadeKeyIsFound(keyType: KeyType, ring: Ring, identity: Option<Did>, pub: string, priv: string)
    requires keyType in {ETH, ED25519} && priv != ""
    ensures var id := NewID(keyType, identity, pub);
            var made := AfterNew(keyType, ring, identity, pub, priv, true);
            && id in made.temp && made.temp[id].keyData == priv
            && Lookup(keyType, made, KeyID(keyType, id)) == Some(priv)
  {
    assert |NewID(keyType, identity, pub)| > 0;
  }

  /** And, once it is linked, under the id that LinkToIdentity returned. */
  lemma MadeAndLinkedKeyIsFound(keyType: KeyType, l: Ledger, identity: Option<Did>, pub: string, priv: string, did: Did)
    requires keyType in {ETH, ED25519} && priv != "" && Inv(keyType, l) && FreshKey(keyType, l, identity, pub, priv)
    ensures var id := NewID(keyType, identity, pub);
            var made := AfterNew(keyType, l.ring, identity, pub, priv, true);
            var linked := AfterLink(keyType, made, id, did, true);
            Lookup(keyType, linked, KeyID(keyType, LinkedID(keyType, did, id))) == Some(priv)
  {
    var next := Apply(keyType, l, New(identity, pub, priv));
    NewKeepsInv(keyType, l, identity, pub, priv);
    MadeKeyIsFound(keyType, l.ring, identity, pub, priv);
    LinkedKeyIsFound(keyType, next, NewID(keyType, identity, pub), did);
  }

  /** Which BJJ ids are looked up at all. */
  lemma BJJLookupWhen(ring: Ring, keyID: KeyID)
    ensures Lookup(BJJ, ring, keyID) ==
      if keyID.Type == BJJ && (IsAnon(BJJ, keyID.ID) || IsIden(BJJ, keyID.ID)) then Stored(ring.file, keyID.ID)
      else None
  {
    IsAnonWhen(BJJ, keyID.ID);
    IsIdenWhen(BJJ, keyID.ID);
  }

  /** BJJ returns the bare DID.  Whatever is kept, no key is found under it, unless the DID itself
      ends like a bound path. */
  lemma ReturnedDidFindsNothing(did: Did, id: string)
    requires "did:" <= did
    ensures (forall ring: Ring :: Lookup(BJJ, ring, KeyID(BJJ, LinkedID(BJJ, did, id))) == None)
            <==> IdenSubmatch(BJJ, did).None?
    ensures '/' !in did ==> IdenSubmatch(BJJ, did).None?
  {
    assert did[0] == 'd' && Lower(did[0]) == 'd' && Lower(BJJ[0]) == 'b';
    assert AnonSubmatch(BJJ, did).None?;
    if IdenSubmatch(BJJ, did).Some? {
      var ring := Ring(map[], [Entry("babyjubjub", did, "key")]);
      assert Lookup(BJJ, ring, KeyID(BJJ, LinkedID(BJJ, did, id))) == Some("key");
    }
  }

  lemma TemporaryIsNotStored(keyType: KeyType, l: Ledger, id: string)
    requires NamesOk(keyType, l) && id in l.ring.temp
    ensures Find(l.ring.file, id) == None
  {
    FindIsMembership(l.ring.file, id);
  }

  /** An unbound BJJ key is not found; once linked it is found under its path, exactly when the
      DID is on one line. */
  lemma LinkedBJJKeyIsFound(l: Ledger, id: string, did: Did)
    requires Inv(BJJ, l) && id in l.ring.temp && AnonSubmatch(BJJ, id).Some?
    ensures Lookup(BJJ, l.ring, KeyID(BJJ, id)) == None
    ensures Lookup(BJJ, AfterLink(BJJ, l.ring, id, did, true), KeyID(BJJ, did + "/" + id)) ==
            if '\n' !in did then Some(l.ring.temp[id].keyData) else None
  {
    LinkedKeyIsStored(BJJ, l, id, did);
    TemporaryIsNotStored(BJJ, l, id);
    BoundIdMatches(id, did);
  }

  /** It is found there over every later run that does not delete that path. */
  lemma LinkedBJJKeyStaysFound(l: Ledger, id: string, did: Did, ops: seq<Op>)
    requires Inv(BJJ, l) && id in l.ring.temp && AnonSubmatch(BJJ, id).Some? && Delete(did + "/" + id) !in ops
    ensures Lookup(BJJ, Run(BJJ, Apply(BJJ, l, Link(id, did)), ops).ring, KeyID(BJJ, did + "/" + id)) ==
            if '\n' !in did then Some(l.ring.temp[id].keyData) else None
  {
    LinkedKeyStays(BJJ, l, id, did, ops);
    BoundIdMatches(id, did);
  }

  lemma BoundIdMatches(id: string, did: Did)
    requires AnonSubmatch(BJJ, id).Some?
    ensures AnonSubmatch(BJJ, did + "/" + id) == None
    ensures IdenSubmatch(BJJ, did + "/" + id) == if '\n' !in did then AnonSubmatch(BJJ, id) else None
  {
    var path := did + "/" + id;
    var from := |path| - (|BJJ| + 1 + KEY_LENGTH);
    assert path[..from - 1] == did && path[from..] == id;
  }

  /** Whether an entry is filed under an identity depends on its path only; with the identity in
      front, the identity must have no slash of its own and the rest at most one. */
  lemma FiledWhen(entry: Entry, did: Did, id: string)
    requires entry.KeyPath == did + "/" + id
    ensures FiledUnder(entry, did) <==> '/' !in did && |Split(id, '/')| <= 2
  {
    PartsHaveNoSeparator(entry.KeyPath, '/');
    SplitAt(did, '/', id);
    assert did + "/" + id == did + ['/'] + id;
    if '/' !in did {
      SplitWithout(did, '/');
    }
  }

  lemma ListedWhen(keyType: KeyType, file: seq<Entry>, entry: Entry, did: Did, id: string)
    requires LocalType(keyType) && entry in file
    requires entry.KeyPath == did + "/" + id && entry.KeyType == ConvertFromKeyType(keyType)
    ensures KeyID(keyType, did + "/" + id) in Listing(file, did, keyType) <==> '/' !in did && |Split(id, '/')| <= 2
  {
    var path := did + "/" + id;
    FiledWhen(entry, did, id);
    ListingIs(file, did, keyType, path);
    ConversionsInvert(keyType);
    forall e | e in file && e.KeyPath == path ensures FiledUnder(e, did) <==> FiledUnder(entry, did) {
      FiledWhen(e, did, id);
    }
  }

  /** The listing of an identity shows the linked key exactly when the DID has no slash and the
      id at most one. */
  lemma LinkedKeyIsListed(keyType: KeyType, l: Ledger, id: string, did: Did)
    requires LocalType(keyType) && Inv(keyType, l) && id in l.ring.temp
    ensures var ring := AfterLink(keyType, l.ring, id, did, true);
            KeyID(keyType, did + "/" + id) in Listing(ring.file, did, keyType) <==> '/' !in did && |Split(id, '/')| <= 2
  {
    LinkedKeyIsStored(keyType, l, id, did);
    var entry := EntryOf(l.ring.temp[id], did + "/" + id);
    var ring := AfterLink(keyType, l.ring, id, did, true);
    assert entry in ring.file;
    ListedWhen(keyType, ring.file, entry, did, id);
  }

  /** A DID with a slash is never one part of a path, so nothing is ever listed for it. */
  lemma NothingListedUnderSlash(file: seq<Entry>, did: Did, keyType: KeyType, path: string)
    requires '/' in did
    ensures KeyID(ConvertToKeyType(ConvertFromKeyType(keyType)), path) !in Listing(file, did, keyType)
  {
    ListingIs(file, did, keyType, path);
    forall e | e in file ensures !FiledUnder(e, did) {
      PartsHaveNoSeparator(e.KeyPath, '/');
    }
  }

  /** The temporary key is gone before the save: if the save fails the private key is nowhere. */
  lemma FailedLinkLosesKey(keyType: KeyType, l: Ledger, id: string, did: Did, io: bool)
    requires Inv(keyType, l) && id in l.ring.temp
    ensures Sites(AfterLink(keyType, l.ring, id, did, io), l.ring.temp[id].keyData) == {} <==> !io
  {
    var priv := l.ring.temp[id].keyData;
    assert priv in l.born;
    SizeOne(Sites(l.ring, priv), Temp(id));
    DropTempSites(l.ring, id, priv);
    var dropped := l.ring.(temp := l.ring.temp - {id});
    AppendSites(dropped, EntryOf(l.ring.temp[id], GetKeyID(Some(did), keyType, id)), priv);
    if io {
      assert File(|l.ring.file|) in Sites(AfterLink(keyType, l.ring, id, did, io), priv);
    } else {
      assert AfterLink(keyType, l.ring, id, did, io) == dropped;
    }
  }
}
