/** internal/network/resolver.go: the tables keyed by resolver prefix, and the prefix of a DID
    (internal/common/common.go). */
module Resolver {
  import opened Wrappers
  import opened Text

  const All := "All"
  const OnChain := "OnChain"
  const OffChain := "OffChain"

  datatype RhsSettings = RhsSettings(
    Iden3CommAgentStatus: string, Mode: string, ContractAddress: Option<string>, RhsUrl: Option<string>)

  datatype NetworkSettings = NetworkSettings(
    NetworkURL: string, ContractAddress: string, NetworkFlag: int, ConfirmationBlockCount: int, Rhs: RhsSettings)

  type Settings = map<string, map<string, NetworkSettings>>

  datatype Client = Client(url: string, contractAddress: string, confirmationBlockCount: int)

  datatype Tables = Tables(
    ethereumClients: map<string, Client>,
    ethereumClientsByChainID: map<int, Client>,
    rhsSettings: map<string, RhsSettings>,
    supportedContracts: map<string, string>,
    stateResolvers: map<string, (string, string)>)

  const EMPTY := Tables(map[], map[], map[], map[], map[])

  /** What lies outside: DID method registration, dialling, the chain id registry, the contract binding. */
  datatype World = World(
    registers: (string, string) -> bool,
    dials: string -> bool,
    chainID: (string, string) -> Option<int>,
    binds: string -> bool)

  datatype Error =
    | RegistrationFailed | DialFailed | UnknownChainID | RhsUrlMissing | ContractAddressMissing | BindingFailed

  function Key(chain: string, network: string): string {
    chain + ":" + network
  }

  function TrimSlash(url: string): string {
    if url != "" && url[|url| - 1] == '/' then url[..|url| - 1] else url
  }

  /** One slash at the end is taken off, nothing else. */
  lemma TrimSlashIs(url: string)
    ensures TrimSlash(url + "/") == url
    ensures url == "" || url[|url| - 1] != '/' ==> TrimSlash(url) == url
  {
    assert (url + "/")[..|url|] == url;
  }

  /** The mode comes with the address it needs. */
  predicate ModeComplete(rhs: RhsSettings) {
    && (rhs.Mode == OffChain || rhs.Mode == All ==> rhs.RhsUrl.Some?)
    && (rhs.Mode == OnChain || rhs.Mode == All ==> rhs.ContractAddress.Some?)
  }

  predicate Acceptable(w: World, chain: string, network: string, s: NetworkSettings) {
    && (s.NetworkFlag != 0 ==> w.registers(chain, network))
    && w.dials(s.NetworkURL)
    && w.chainID(chain, network).Some?
    && ModeComplete(s.Rhs)
    && w.binds(s.ContractAddress)
  }

  ghost predicate AllAcceptable(w: World, rs: Settings) {
    forall c, n | c in rs && n in rs[c] :: Acceptable(w, c, n, rs[c][n])
  }

  function ClientOf(s: NetworkSettings): Client {
    Client(s.NetworkURL, s.ContractAddress, s.ConfirmationBlockCount)
  }

  function StoredRhs(s: NetworkSettings, serverUrl: string): RhsSettings {
    s.Rhs.(Iden3CommAgentStatus := TrimSlash(serverUrl))
  }

  /** The entries of all prefix-keyed tables under this key are those of this network. */
  predicate Holds(t: Tables, key: string, s: NetworkSettings, serverUrl: string) {
    && key in t.ethereumClients && t.ethereumClients[key] == ClientOf(s)
    && key in t.rhsSettings && t.rhsSettings[key] == StoredRhs(s, serverUrl)
    && key in t.supportedContracts && t.supportedContracts[key] == s.ContractAddress
    && key in t.stateResolvers && t.stateResolvers[key] == (s.NetworkURL, s.ContractAddress)
  }

  /** The prefix-keyed tables know the same keys. */
  predicate SameDomain(t: Tables) {
    t.ethereumClients.Keys == t.rhsSettings.Keys == t.supportedContracts.Keys == t.stateResolvers.Keys
  }

  /** Networks that have been entered so far. */
  type Entered = set<(string, string)>

  predicate Network(rs: Settings, cn: (string, string)) {
    cn.0 in rs && cn.1 in rs[cn.0]
  }

  ghost predicate FromSome(rs: Settings, t: Tables, done: Entered, key: string, serverUrl: string) {
    exists cn :: cn in done && Network(rs, cn) && Key(cn.0, cn.1) == key && Holds(t, key, rs[cn.0][cn.1], serverUrl)
  }

  predicate Present(t: Tables, cn: (string, string)) {
    Key(cn.0, cn.1) in t.ethereumClients
  }

  /** The table by chain id knows the entered networks and nothing else. */
  ghost predicate ByChainID(rs: Settings, w: World, t: Tables, done: Entered) {
    && (forall cn | cn in done && Network(rs, cn) ::
          var id := w.chainID(cn.0, cn.1); id.Some? && id.value in t.ethereumClientsByChainID)
    && (forall id | id in t.ethereumClientsByChainID :: OfChainID(rs, w, t, done, id))
  }

  ghost predicate OfChainID(rs: Settings, w: World, t: Tables, done: Entered, id: int)
    requires id in t.ethereumClientsByChainID
  {
    exists cn :: cn in done && Network(rs, cn) && w.chainID(cn.0, cn.1) == Some(id)
                 && t.ethereumClientsByChainID[id] == ClientOf(rs[cn.0][cn.1])
  }

  /** Every entered network has a key, every key holds the settings of one entered network. */
  ghost predicate Built(rs: Settings, t: Tables, done: Entered, serverUrl: string) {
    && SameDomain(t)
    && (forall cn {:trigger Present(t, cn)} | cn in done :: Present(t, cn))
    && (forall key {:trigger FromSome(rs, t, done, key, serverUrl)} | key in t.ethereumClients ::
          FromSome(rs, t, done, key, serverUrl))
  }

  function Enter(t: Tables, w: World, chain: string, network: string, s: NetworkSettings, serverUrl: string): Tables
    requires w.chainID(chain, network).Some?
  {
    var key := Key(chain, network);
    Tables(t.ethereumClients[key := ClientOf(s)],
           t.ethereumClientsByChainID[w.chainID(chain, network).value := ClientOf(s)],
           t.rhsSettings[key := StoredRhs(s, serverUrl)],
           t.supportedContracts[key := s.ContractAddress],
           t.stateResolvers[key := (s.NetworkURL, s.ContractAddress)])
  }

  lemma EnterKeepsOthers(t: Tables, w: World, chain: string, network: string, s: NetworkSettings, serverUrl: string,
                         key: string, other: NetworkSettings)
    requires w.chainID(chain, network).Some?
    ensures Holds(Enter(t, w, chain, network, s, serverUrl), Key(chain, network), s, serverUrl)
    ensures key != Key(chain, network) && Holds(t, key, other, serverUrl) ==>
      Holds(Enter(t, w, chain, network, s, serverUrl), key, other, serverUrl)
  {
  }

  lemma EnterKeepsBuilt(rs: Settings, t: Tables, done: Entered, serverUrl: string, w: World,
                        chain: string, network: string)
    requires Built(rs, t, done, serverUrl) && Network(rs, (chain, network)) && w.chainID(chain, network).Some?
    ensures Built(rs, Enter(t, w, chain, network, rs[chain][network], serverUrl), done + {(chain, network)}, serverUrl)
  {
    var s := rs[chain][network];
    var t', done' := Enter(t, w, chain, network, s, serverUrl), done + {(chain, network)};
    forall cn | cn in done' ensures Present(t', cn) {
      assert cn != (chain, network) ==> Present(t, cn);
    }
    forall key | key in t'.ethereumClients ensures FromSome(rs, t', done', key, serverUrl) {
      if key == Key(chain, network) {
        EnterKeepsOthers(t, w, chain, network, s, serverUrl, key, s);
        assert (chain, network) in done' && Network(rs, (chain, network));
      } else {
        assert FromSome(rs, t, done, key, serverUrl);
        var cn :| cn in done && Network(rs, cn) && Key(cn.0, cn.1) == key && Holds(t, key, rs[cn.0][cn.1], serverUrl);
        EnterKeepsOthers(t, w, chain, network, s, serverUrl, key, rs[cn.0][cn.1]);
        assert cn in done';
      }
    }
  }

  lemma EnterKeepsByChainID(rs: Settings, t: Tables, done: Entered, serverUrl: string, w: World,
                            chain: string, network: string)
    requires ByChainID(rs, w, t, done) && Network(rs, (chain, network)) && w.chainID(chain, network).Some?
    ensures ByChainID(rs, w, Enter(t, w, chain, network, rs[chain][network], serverUrl), done + {(chain, network)})
  {
    var cn' := (chain, network);
    var t', done' := Enter(t, w, chain, network, rs[chain][network], serverUrl), done + {cn'};
    forall id | id in t'.ethereumClientsByChainID ensures OfChainID(rs, w, t', done', id) {
      if w.chainID(chain, network) == Some(id) {
        assert cn' in done' && Network(rs, cn') && w.chainID(cn'.0, cn'.1) == Some(id);
      } else {
        assert OfChainID(rs, w, t, done, id);
        var cn :| cn in done && Network(rs, cn) && w.chainID(cn.0, cn.1) == Some(id)
                  && t.ethereumClientsByChainID[id] == ClientOf(rs[cn.0][cn.1]);
        assert cn in done';
      }
    }
  }

  /** One network: register, dial, look up the chain id, check the mode, bind the contract. */
  method EnterNetwork(t: Tables, w: World, chain: string, network: string, s: NetworkSettings, serverUrl: string)
    returns (r: Result<Tables, Error>)
    ensures r.Ok? <==> Acceptable(w, chain, network, s)
    ensures r.Ok? <==>
      && (s.NetworkFlag != 0 ==> w.registers(chain, network))
      && w.dials(s.NetworkURL) && w.chainID(chain, network).Some? && w.binds(s.ContractAddress)
      && (s.Rhs.Mode in {"OffChain", "All"} ==> s.Rhs.RhsUrl.Some?)
      && (s.Rhs.Mode in {"OnChain", "All"} ==> s.Rhs.ContractAddress.Some?)
    ensures r == Err(RegistrationFailed) <==> s.NetworkFlag != 0 && !w.registers(chain, network)
    ensures r == Err(DialFailed) ==> !w.dials(s.NetworkURL)
    ensures r == Err(UnknownChainID) ==> w.dials(s.NetworkURL) && w.chainID(chain, network).None?
    ensures r == Err(RhsUrlMissing) ==> w.chainID(chain, network).Some? && s.Rhs.Mode != "OnChain" && s.Rhs.RhsUrl.None?
    ensures r == Err(ContractAddressMissing) ==>
      w.chainID(chain, network).Some? && s.Rhs.Mode != "OffChain" && s.Rhs.ContractAddress.None?
    ensures r == Err(BindingFailed) ==> ModeComplete(s.Rhs) && !w.binds(s.ContractAddress)
    ensures r.Ok? ==> r.value == Enter(t, w, chain, network, s, serverUrl)
  {
    if s.NetworkFlag != 0 && !w.registers(chain, network) {
      return Err(RegistrationFailed);
    }
    var resolverPrefixKey := Key(chain, network);
    if !w.dials(s.NetworkURL) {
      return Err(DialFailed);
    }
    var client := Client(s.NetworkURL, s.ContractAddress, s.ConfirmationBlockCount);
    var t' := t.(ethereumClients := t.ethereumClients[resolverPrefixKey := client]);
    var chainID := w.chainID(chain, network);
    if chainID.None? {
      return Err(UnknownChainID);
    }
    t' := t'.(ethereumClientsByChainID := t'.ethereumClientsByChainID[chainID.value := client]);
    var settings := s.Rhs.(Iden3CommAgentStatus := TrimSlash(serverUrl));
    if settings.Mode == OffChain || settings.Mode == All {
      if settings.RhsUrl.None? {
        return Err(RhsUrlMissing);
      }
    }
    if settings.Mode == OnChain || settings.Mode == All {
      if settings.ContractAddress.None? {
        return Err(ContractAddressMissing);
      }
    }
    t' := t'.(rhsSettings := t'.rhsSettings[resolverPrefixKey := settings]);
    if !w.binds(s.ContractAddress) {
      return Err(BindingFailed);
    }
    t' := t'.(supportedContracts := t'.supportedContracts[resolverPrefixKey := s.ContractAddress],
              stateResolvers := t'.stateResolvers[resolverPrefixKey := (s.NetworkURL, s.ContractAddress)]);
    return Ok(t');
  }

  /** The networks of the chains that are no longer left. */
  ghost function Visited(rs: Settings, left: set<string>): Entered {
    set c, n | c in rs && c !in left && n in rs[c] :: (c, n)
  }

  ghost function OfChain(rs: Settings, chain: string, left: set<string>): Entered
    requires chain in rs
  {
    set n | n in rs[chain] && n !in left :: (chain, n)
  }

  lemma OfChainNext(rs: Settings, chain: string, left: set<string>, network: string)
    requires chain in rs && network in left && left <= rs[chain].Keys
    ensures OfChain(rs, chain, left - {network}) == OfChain(rs, chain, left) + {(chain, network)}
  {
  }

  lemma VisitedNext(rs: Settings, left: set<string>, chain: string)
    requires chain in left && left <= rs.Keys
    ensures Visited(rs, left - {chain}) == Visited(rs, left) + OfChain(rs, chain, {})
  {
  }

  ghost predicate ChainAcceptable(w: World, rs: Settings, chain: string, left: set<string>)
    requires chain in rs
  {
    forall n | n in rs[chain] && n !in left :: Acceptable(w, chain, n, rs[chain][n])
  }

  /** All networks of one chain, in any order. */
  method EnterChain(rs: Settings, t0: Tables, ghost done: Entered, w: World, chainName: string, serverUrl: string)
    returns (r: Result<Tables, Error>)
    requires chainName in rs && Built(rs, t0, done, serverUrl) && ByChainID(rs, w, t0, done)
    ensures r.Ok? <==> ChainAcceptable(w, rs, chainName, {})
    ensures r.Ok? ==> Built(rs, r.value, done + OfChain(rs, chainName, {}), serverUrl)
    ensures r.Ok? ==> ByChainID(rs, w, r.value, done + OfChain(rs, chainName, {}))
  {
    var t := t0;
    var networks := rs[chainName].Keys;
    assert OfChain(rs, chainName, networks) == {};
    assert done + {} == done;
    while networks != {}
      invariant networks <= rs[chainName].Keys
      invariant Built(rs, t, done + OfChain(rs, chainName, networks), serverUrl)
      invariant ByChainID(rs, w, t, done + OfChain(rs, chainName, networks))
      invariant ChainAcceptable(w, rs, chainName, networks)
      decreases networks
    {
      var networkName :| networkName in networks;
      var next := EnterNetwork(t, w, chainName, networkName, rs[chainName][networkName], serverUrl);
      if next.Err? {
        return Err(next.error);
      }
      EnterKeepsBuilt(rs, t, done + OfChain(rs, chainName, networks), serverUrl, w, chainName, networkName);
      EnterKeepsByChainID(rs, t, done + OfChain(rs, chainName, networks), serverUrl, w, chainName, networkName);
      OfChainNext(rs, chainName, networks, networkName);
      assert done + OfChain(rs, chainName, networks) + {(chainName, networkName)}
          == done + OfChain(rs, chainName, networks - {networkName});
      t := next.value;
      networks := networks - {networkName};
    }
    return Ok(t);
  }

  /** Chains come in any order, too. */
  method NewResolver(rs: Settings, w: World, serverUrl: string) returns (r: Result<Tables, Error>)
    ensures r.Ok? <==> AllAcceptable(w, rs)
    ensures r.Ok? ==> Built(rs, r.value, Visited(rs, {}), serverUrl) && ByChainID(rs, w, r.value, Visited(rs, {}))
  {
    var t := EMPTY;
    var chains := rs.Keys;
    assert Visited(rs, chains) == {};
    while chains != {}
      invariant chains <= rs.Keys
      invariant Built(rs, t, Visited(rs, chains), serverUrl) && ByChainID(rs, w, t, Visited(rs, chains))
      invariant forall c | c in rs && c !in chains :: ChainAcceptable(w, rs, c, {})
      decreases chains
    {
      var chainName :| chainName in chains;
      var next := EnterChain(rs, t, Visited(rs, chains), w, chainName, serverUrl);
      if next.Err? {
        return Err(next.error);
      }
      VisitedNext(rs, chains, chainName);
      t := next.value;
      chains := chains - {chainName};
    }
    return Ok(t);
  }

  // ---------------------------------------------------------------- lookups

  /** ResolverPrefix of common.go and GetResolverPrefix of the identity: parts three and four. */
  function ResolverPrefix(did: string): Option<string> {
    var items := Split(did, ':');
    if |items| < 4 then None else Some(Key(items[2], items[3]))
  }

  function GetEthClient(t: Tables, key: string): Option<Client> {
    if key in t.ethereumClients then Some(t.ethereumClients[key]) else None
  }

  function GetRhsSettings(t: Tables, key: string): Option<RhsSettings> {
    if key in t.rhsSettings then Some(t.rhsSettings[key]) else None
  }

  /** A prefix exists exactly from three colons on. */
  lemma PrefixExistsWhen(did: string)
    ensures ResolverPrefix(did).Some? <==> multiset(did)[':'] >= 3
  {
    PartsCount(did, ':');
  }

  /** It consists of the third part and the fourth, whether or not there are more. */
  lemma PrefixIs(scheme: string, methodName: string, chain: string, network: string, rest: string)
    requires ':' !in scheme && ':' !in methodName && ':' !in chain && ':' !in network
    ensures var did := scheme + ":" + methodName + ":" + chain + ":" + network;
            && ResolverPrefix(did) == Some(chain + ":" + network)
            && ResolverPrefix(did + ":" + rest) == Some(chain + ":" + network)
  {
    SplitOfJoin([scheme, methodName, chain, network], ':');
    var did := scheme + ":" + methodName + ":" + chain + ":" + network;
    assert Join([network], ':') == network;
    assert Join([chain, network], ':') == chain + [':'] + network;
    assert Join([methodName, chain, network], ':') == methodName + [':'] + (chain + [':'] + network);
    assert did == Join([scheme, methodName, chain, network], ':');
    SplitAt(did, ':', rest);
    assert did + ":" + rest == did + [':'] + rest;
  }

  lemma KeyIsInjective(c: string, n: string, d: string, m: string)
    requires ':' !in c && ':' !in n && ':' !in d && ':' !in m && Key(c, n) == Key(d, m)
    ensures c == d && n == m
  {
    SplitAt(c, ':', n);
    SplitAt(d, ':', m);
    SplitWithout(c, ':');
    SplitWithout(n, ':');
    SplitWithout(d, ':');
    SplitWithout(m, ':');
    assert Key(c, n) == c + [':'] + n && Key(d, m) == d + [':'] + m;
    assert Split(Key(c, n), ':') == [c, n] && Split(Key(d, m), ':') == [d, m];
  }

  /** After a successful NewResolver the lookups of a DID all succeed, with the settings of its
      own network, or all fail: they succeed exactly when that network is set up. */
  lemma LookupsAgree(rs: Settings, t: Tables, serverUrl: string, did: string)
    requires Built(rs, t, Visited(rs, {}), serverUrl)
    requires ResolverPrefix(did).Some?
    ensures var key := ResolverPrefix(did).value;
            var items := Split(did, ':');
            var known := Network(rs, (items[2], items[3]));
            && (GetEthClient(t, key).Some? <==> known) && (GetRhsSettings(t, key).Some? <==> known)
            && (key in t.supportedContracts <==> known) && (key in t.stateResolvers <==> known)
            && (known ==> Holds(t, key, rs[items[2]][items[3]], serverUrl))
  {
    var key := ResolverPrefix(did).value;
    var items := Split(did, ':');
    PartsHaveNoSeparator(did, ':');
    assert items[2] in items && items[3] in items;
    if Network(rs, (items[2], items[3])) {
      assert (items[2], items[3]) in Visited(rs, {});
      assert Present(t, (items[2], items[3]));
    }
    if key in t.ethereumClients {
      assert FromSome(rs, t, Visited(rs, {}), key, serverUrl);
      var cn :| cn in Visited(rs, {}) && Network(rs, cn) && Key(cn.0, cn.1) == key
               && Holds(t, key, rs[cn.0][cn.1], serverUrl);
      OneColonInPrefix(did);
      TwoPartsMeansNoColon(cn.0, cn.1);
      KeyIsInjective(cn.0, cn.1, items[2], items[3]);
    }
  }

  /** What is looked up is what was configured, field by field. */
  lemma LookupsHoldSettings(t: Tables, key: string, s: NetworkSettings, serverUrl: string)
    requires Holds(t, key, s, serverUrl)
    ensures GetEthClient(t, key).Some? && GetRhsSettings(t, key).Some?
    ensures var client, rhs := GetEthClient(t, key).value, GetRhsSettings(t, key).value;
            && client.url == s.NetworkURL && client.contractAddress == s.ContractAddress
            && client.confirmationBlockCount == s.ConfirmationBlockCount
            && rhs.Mode == s.Rhs.Mode && rhs.RhsUrl == s.Rhs.RhsUrl && rhs.ContractAddress == s.Rhs.ContractAddress
            && rhs.Iden3CommAgentStatus
               + (if serverUrl != "" && serverUrl[|serverUrl| - 1] == '/' then "/" else "") == serverUrl
            && t.supportedContracts[key] == s.ContractAddress
            && t.stateResolvers[key] == (s.NetworkURL, s.ContractAddress)
  {
  }

  /** Networks with chain ids of their own are looked up by them, and others are not known. */
  lemma LookupsByChainID(rs: Settings, w: World, t: Tables, id: int)
    requires ByChainID(rs, w, t, Visited(rs, {}))
    requires forall cn, dn | Network(rs, cn) && Network(rs, dn) && cn != dn ::
               w.chainID(cn.0, cn.1) != w.chainID(dn.0, dn.1)
    ensures id in t.ethereumClientsByChainID <==> exists cn :: Network(rs, cn) && w.chainID(cn.0, cn.1) == Some(id)
    ensures forall cn | Network(rs, cn) && w.chainID(cn.0, cn.1) == Some(id) ::
              id in t.ethereumClientsByChainID && t.ethereumClientsByChainID[id] == ClientOf(rs[cn.0][cn.1])
  {
    forall cn | Network(rs, cn) ensures cn in Visited(rs, {}) {
      assert cn == (cn.0, cn.1);
    }
    if id in t.ethereumClientsByChainID {
      assert OfChainID(rs, w, t, Visited(rs, {}), id);
    }
  }

  /** A network can be reached from some DID exactly when its two names have no colon: the prefix
      of a DID has one colon, so keys with more are never looked up. */
  lemma ReachableWhen(c: string, n: string)
    ensures (exists did :: ResolverPrefix(did) == Some(Key(c, n))) <==> ':' !in c && ':' !in n
  {
    if ':' !in c && ':' !in n {
      var parts := ["did", "iden3", c, n, "id"];
      SplitOfJoin(parts, ':');
      assert ResolverPrefix(Join(parts, ':')) == Some(Key(c, n));
    }
    if exists did :: ResolverPrefix(did) == Some(Key(c, n)) {
      var did :| ResolverPrefix(did) == Some(Key(c, n));
      OneColonInPrefix(did);
      TwoPartsMeansNoColon(c, n);
    }
  }

  lemma OneColonInPrefix(did: string)
    requires ResolverPrefix(did).Some?
    ensures |Split(ResolverPrefix(did).value, ':')| == 2
  {
    var items := Split(did, ':');
    PartsHaveNoSeparator(did, ':');
    assert items[2] in items && items[3] in items;
    SplitWithout(items[2], ':');
    SplitWithout(items[3], ':');
    SplitAt(items[2], ':', items[3]);
    assert Key(items[2], items[3]) == items[2] + [':'] + items[3];
  }

  lemma TwoPartsMeansNoColon(c: string, n: string)
    requires |Split(Key(c, n), ':')| == 2
    ensures ':' !in c && ':' !in n
  {
    SplitAt(c, ':', n);
    assert Key(c, n) == c + [':'] + n;
    MorePartsWith(c, ':');
    MorePartsWith(n, ':');
  }

  lemma {:induction false} MorePartsWith(s: string, sep: char)
    ensures sep in s ==> |Split(s, sep)| >= 2
  {
    if s != "" {
      MorePartsWith(s[1..], sep);
    }
  }

  // ---------------------------------------------------------------- credential status types

  const CommV1 := "Iden3commRevocationStatusV1.0"
  const ReverseSMT := "Iden3ReverseSparseMerkleTreeProof"
  const OnchainSMT := "Iden3OnchainSparseMerkleTreeProof2023"

  predicate IsCredentialStatusTypeSupported(rhsMode: string, statusType: string) {
    if statusType == ReverseSMT && rhsMode != All && rhsMode != OffChain then false
    else if statusType == OnchainSMT && rhsMode != All && rhsMode != OnChain then false
    else true
  }

  /** Whatever the mode, every status type is accepted but the two that need an address. */
  lemma UnknownTypesAreAccepted(statusType: string)
    ensures (forall mode :: IsCredentialStatusTypeSupported(mode, statusType))
            <==> statusType !in {ReverseSMT, OnchainSMT}
  {
    assert IsCredentialStatusTypeSupported("None", statusType) <==> statusType !in {ReverseSMT, OnchainSMT};
  }

  method SupportedCredentialStatusTypes(rhsMode: string) returns (accepted: seq<string>)
    ensures forall s :: s in accepted <==>
      s in {CommV1, ReverseSMT, OnchainSMT} && IsCredentialStatusTypeSupported(rhsMode, s)
    ensures forall i, j | 0 <= i < j < |accepted| :: accepted[i] != accepted[j]
    ensures accepted == match rhsMode {
      case "All" => [CommV1, ReverseSMT, OnchainSMT]
      case "OffChain" => [CommV1, ReverseSMT]
      case "OnChain" => [CommV1, OnchainSMT]
      case _ => [CommV1] }
  {
    accepted := [CommV1];
    if rhsMode == All || rhsMode == OffChain {
      accepted := accepted + [ReverseSMT];
    }
    if rhsMode == All || rhsMode == OnChain {
      accepted := accepted + [OnchainSMT];
    }
  }

  /** A status type accepted for a stored mode has the url or contract address that it needs. */
  lemma AcceptedTypeIsUsable(rs: Settings, w: World, t: Tables, serverUrl: string, key: string, statusType: string)
    requires Built(rs, t, Visited(rs, {}), serverUrl) && AllAcceptable(w, rs)
    requires GetRhsSettings(t, key).Some?
    requires IsCredentialStatusTypeSupported(GetRhsSettings(t, key).value.Mode, statusType)
    ensures statusType == ReverseSMT ==> GetRhsSettings(t, key).value.RhsUrl.Some?
    ensures statusType == OnchainSMT ==> GetRhsSettings(t, key).value.ContractAddress.Some?
  {
    assert key in t.ethereumClients;
    assert FromSome(rs, t, Visited(rs, {}), key, serverUrl);
    var cn :| cn in Visited(rs, {}) && Network(rs, cn) && Key(cn.0, cn.1) == key
               && Holds(t, key, rs[cn.0][cn.1], serverUrl);
    assert Acceptable(w, cn.0, cn.1, rs[cn.0][cn.1]);
  }
}
