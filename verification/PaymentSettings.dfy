/** configDecoder.Decode of internal/payments/settings.go, from the decoded YAML on. */
module PaymentSettings {
  import opened Wrappers

  datatype OptionDTO = OptionDTO(
    ID: int, Name: string, Type: string, ContractAddress: string, Features: seq<string>, Decimals: int)

  datatype ChainDTO = ChainDTO(PaymentRails: string, PaymentOptions: seq<OptionDTO>)

  type DTO = map<int, ChainDTO>

  datatype PaymentOption = PaymentOption(
    Name: string, Type: string, ContractAddress: string, Features: seq<string>, Decimals: int)

  datatype ChainConfig = ChainConfig(ChainID: int, PaymentRails: string, Option: PaymentOption)

  type Config = map<int, ChainConfig>

  /** The duplicate error names the chain, not the option; the token error names the rails. */
  datatype Error =
    | InvalidRails(rails: string)
    | DuplicateOption(chain: int)
    | InvalidToken(rails: string)

  /** unicode.IsSpace. */
  predicate IsSpace(c: char) {
    || c in {'\t', '\n', '\U{000B}', '\U{000C}', '\r', ' ', '\U{0085}', '\U{00A0}', '\U{1680}'}
    || '\U{2000}' <= c <= '\U{200A}'
    || c in {'\U{2028}', '\U{2029}', '\U{202F}', '\U{205F}', '\U{3000}'}
  }

  function TrimLeft(s: string): string {
    if s != "" && IsSpace(s[0]) then TrimLeft(s[1..]) else s
  }

  function TrimRight(s: string): string {
    if s != "" && IsSpace(s[|s| - 1]) then TrimRight(s[..|s| - 1]) else s
  }

  /** strings.TrimSpace. */
  function TrimSpace(s: string): string {
    TrimRight(TrimLeft(s))
  }

  predicate ValidToken(address: string, isAddress: string -> bool) {
    isAddress(address) || TrimSpace(address) == ""
  }

  lemma {:induction false} TrimLeftIs(s: string)
    ensures TrimLeft(s) == "" <==> forall c | c in s :: IsSpace(c)
    ensures TrimLeft(s) != "" ==> !IsSpace(TrimLeft(s)[0])
  {
    if s != "" && IsSpace(s[0]) {
      TrimLeftIs(s[1..]);
      assert s == [s[0]] + s[1..];
    } else if s != "" {
      assert s[0] in s;
    }
  }

  lemma {:induction false} TrimRightKeeps(s: string)
    requires s != "" && !IsSpace(s[0])
    ensures TrimRight(s) != ""
  {
    if |s| > 1 && IsSpace(s[|s| - 1]) {
      TrimRightKeeps(s[..|s| - 1]);
    }
  }

  /** A token that is no address is accepted exactly if it is blank: the empty one, and others
      without a printable character. */
  lemma BlankTokens(address: string, isAddress: string -> bool)
    requires !isAddress(address)
    ensures ValidToken(address, isAddress) <==> forall c | c in address :: IsSpace(c)
    ensures (forall c | c in address :: c in " \t\r\n") ==> ValidToken(address, isAddress)
    ensures (exists c | c in address :: '!' <= c <= '~') ==> !ValidToken(address, isAddress)
  {
    TrimLeftIs(address);
    if TrimLeft(address) != "" {
      TrimRightKeeps(TrimLeft(address));
    }
  }

  /** One option of one chain. */
  datatype Slot = Slot(chain: int, index: nat)

  predicate IsSlot(dto: DTO, s: Slot) {
    s.chain in dto && s.index < |dto[s.chain].PaymentOptions|
  }

  function OptionAt(dto: DTO, s: Slot): OptionDTO
    requires IsSlot(dto, s)
  {
    dto[s.chain].PaymentOptions[s.index]
  }

  /** An option with the chain it stands under and that chain's rails. */
  function EntryAt(dto: DTO, s: Slot): ChainConfig
    requires IsSlot(dto, s)
  {
    var o := OptionAt(dto, s);
    ChainConfig(s.chain, dto[s.chain].PaymentRails,
                PaymentOption(o.Name, o.Type, o.ContractAddress, o.Features, o.Decimals))
  }

  ghost predicate WellFormed(dto: DTO, isAddress: string -> bool) {
    && (forall c | c in dto :: isAddress(dto[c].PaymentRails))
    && (forall s | IsSlot(dto, s) :: ValidToken(OptionAt(dto, s).ContractAddress, isAddress))
    && (forall s, t | IsSlot(dto, s) && IsSlot(dto, t) && s != t :: OptionAt(dto, s).ID != OptionAt(dto, t).ID)
  }

  /** The configuration has every option under its id, and nothing else. */
  ghost predicate IsConfigOf(dto: DTO, cfg: Config) {
    && (forall s | IsSlot(dto, s) :: OptionAt(dto, s).ID in cfg && cfg[OptionAt(dto, s).ID] == EntryAt(dto, s))
    && (forall id | id in cfg :: exists s :: IsSlot(dto, s) && OptionAt(dto, s).ID == id)
  }

  ghost function Slots(dto: DTO): set<Slot> {
    set c, i: nat | c in dto && i < |dto[c].PaymentOptions| :: Slot(c, i)
  }

  ghost predicate Accepted(dto: DTO, cfg: Config, s: Slot, isAddress: string -> bool) {
    && IsSlot(dto, s) && OptionAt(dto, s).ID in cfg && cfg[OptionAt(dto, s).ID] == EntryAt(dto, s)
    && ValidToken(OptionAt(dto, s).ContractAddress, isAddress)
  }

  ghost predicate HasID(dto: DTO, s: Slot, id: int) {
    IsSlot(dto, s) && OptionAt(dto, s).ID == id
  }

  ghost predicate Covered(dto: DTO, done: set<Slot>, id: int) {
    exists s :: s in done && HasID(dto, s, id)
  }

  /** The options in done have been accepted into cfg. */
  ghost predicate Built(dto: DTO, cfg: Config, done: set<Slot>, isAddress: string -> bool) {
    && (forall s {:trigger Accepted(dto, cfg, s, isAddress)} | s in done :: Accepted(dto, cfg, s, isAddress))
    && (forall id {:trigger Covered(dto, done, id)} | id in cfg :: Covered(dto, done, id))
    && (forall s, t, id {:trigger HasID(dto, s, id), HasID(dto, t, id)} |
          s in done && t in done && HasID(dto, s, id) && HasID(dto, t, id) :: s == t)
    && |cfg| == |done|
  }

  lemma BuildNext(dto: DTO, cfg: Config, done: set<Slot>, s: Slot, isAddress: string -> bool)
    requires Built(dto, cfg, done, isAddress) && IsSlot(dto, s) && s !in done
    requires OptionAt(dto, s).ID !in cfg && ValidToken(OptionAt(dto, s).ContractAddress, isAddress)
    ensures Built(dto, cfg[OptionAt(dto, s).ID := EntryAt(dto, s)], done + {s}, isAddress)
  {
    var key := OptionAt(dto, s).ID;
    var cfg', done' := cfg[key := EntryAt(dto, s)], done + {s};
    assert HasID(dto, s, key);
    forall id | id in cfg' ensures Covered(dto, done', id) {
      if id == key {
        assert s in done';
      } else {
        assert Covered(dto, done, id);
        var t :| t in done && HasID(dto, t, id);
        assert t in done';
      }
    }
    forall t | t in done' ensures Accepted(dto, cfg', t, isAddress) {
      if t != s { assert Accepted(dto, cfg, t, isAddress); }
    }
    forall t, u, id | t in done' && u in done' && HasID(dto, t, id) && HasID(dto, u, id) ensures t == u {
      if t != s { assert Accepted(dto, cfg, t, isAddress); }
      if u != s { assert Accepted(dto, cfg, u, isAddress); }
    }
  }

  /** Every slot has been accepted: the settings are well formed and this is their configuration. */
  lemma BuildDone(dto: DTO, cfg: Config, done: set<Slot>, isAddress: string -> bool)
    requires Built(dto, cfg, done, isAddress) && forall s :: s in done <==> IsSlot(dto, s)
    requires forall c | c in dto :: isAddress(dto[c].PaymentRails)
    ensures WellFormed(dto, isAddress) && IsConfigOf(dto, cfg) && |cfg| == |Slots(dto)|
  {
    forall s | IsSlot(dto, s) ensures Accepted(dto, cfg, s, isAddress) {
      assert s in done;
    }
    forall id | id in cfg ensures exists s :: IsSlot(dto, s) && OptionAt(dto, s).ID == id {
      assert Covered(dto, done, id);
      var s :| s in done && HasID(dto, s, id);
      assert IsSlot(dto, s) && OptionAt(dto, s).ID == id;
    }
    forall s, t | IsSlot(dto, s) && IsSlot(dto, t) && s != t ensures OptionAt(dto, s).ID != OptionAt(dto, t).ID {
      assert HasID(dto, s, OptionAt(dto, s).ID);
      assert !HasID(dto, t, OptionAt(dto, s).ID);
    }
    assert done == Slots(dto);
  }

  lemma ClashIsIllFormed(dto: DTO, s: Slot, t: Slot, isAddress: string -> bool)
    requires IsSlot(dto, s) && IsSlot(dto, t) && s != t && OptionAt(dto, s).ID == OptionAt(dto, t).ID
    ensures !WellFormed(dto, isAddress)
  {
  }

  /** What an error says about the settings.  For an option id that is used twice it has the
      chain with the second use, not the id; for a bad token address the rails of the chain,
      which are valid, not the address. */
  ghost predicate Explains(dto: DTO, error: Error, isAddress: string -> bool) {
    match error
    case InvalidRails(rails) => !isAddress(rails) && exists c :: c in dto && dto[c].PaymentRails == rails
    case DuplicateOption(chain) =>
      exists s, t ::
        IsSlot(dto, s) && IsSlot(dto, t) && s != t && s.chain == chain && OptionAt(dto, s).ID == OptionAt(dto, t).ID
    case InvalidToken(rails) =>
      && isAddress(rails)
      && exists s :: IsSlot(dto, s) && dto[s.chain].PaymentRails == rails
                     && !ValidToken(OptionAt(dto, s).ContractAddress, isAddress)
  }

  /** The options of the chains that are no longer left. */
  predicate Visited(dto: DTO, left: set<int>, s: Slot) {
    IsSlot(dto, s) && s.chain !in left
  }

  /** The first n options of chain id. */
  predicate Among(dto: DTO, id: int, n: int, s: Slot) {
    IsSlot(dto, s) && s.chain == id && s.index < n
  }

  /** The options of one chain, added to those already accepted. */
  method DecodeOptions(dto: DTO, id: int, before: Config, ghost done: set<Slot>, isAddress: string -> bool)
    returns (r: Result<Config, Error>, ghost now: set<Slot>)
    requires id in dto && Built(dto, before, done, isAddress)
    requires forall s | s in done :: s.chain != id
    ensures r.Err? ==> !WellFormed(dto, isAddress)
    ensures r.Err? && isAddress(dto[id].PaymentRails) ==> Explains(dto, r.error, isAddress)
    ensures r.Ok? ==> Built(dto, r.value, now, isAddress)
    ensures r.Ok? ==> forall s :: s in now <==> s in done || Among(dto, id, |dto[id].PaymentOptions|, s)
  {
    var cfg := before;
    now := done;
    assert forall s :: !Among(dto, id, 0, s);
    var chainConfig := dto[id];
    for i := 0 to |chainConfig.PaymentOptions|
      invariant Built(dto, cfg, now, isAddress)
      invariant forall s :: s in now <==> s in done || Among(dto, id, i, s)
    {
      var option := chainConfig.PaymentOptions[i];
      ghost var slot := Slot(id, i);
      if option.ID in cfg {
        assert Covered(dto, now, option.ID);
        ghost var other :| other in now && HasID(dto, other, option.ID);
        ClashIsIllFormed(dto, slot, other, isAddress);
        return Err(DuplicateOption(id)), now;
      }
      if !isAddress(option.ContractAddress) && TrimSpace(option.ContractAddress) != "" {
        assert IsSlot(dto, slot) && !ValidToken(OptionAt(dto, slot).ContractAddress, isAddress);
        return Err(InvalidToken(chainConfig.PaymentRails)), now;
      }
      BuildNext(dto, cfg, now, slot, isAddress);
      cfg := cfg[option.ID := ChainConfig(id, chainConfig.PaymentRails,
                                          PaymentOption(option.Name, option.Type, option.ContractAddress,
                                                        option.Features, option.Decimals))];
      forall s ensures Among(dto, id, i + 1, s) <==> Among(dto, id, i, s) || s == slot {
      }
      now := now + {slot};
    }
    return Ok(cfg), now;
  }

  lemma SomeChain(left: set<int>)
    requires left != {}
    ensures exists id :: id in left
  {
    assert (forall id :: id !in left) ==> left == {};
  }

  /** The chains come in any order. */
  method Decode(dto: DTO, isAddress: string -> bool) returns (r: Result<Config, Error>)
    ensures r.Ok? <==> WellFormed(dto, isAddress)
    ensures r.Err? ==> Explains(dto, r.error, isAddress)
    ensures r.Ok? ==> IsConfigOf(dto, r.value) && |r.value| == |Slots(dto)|
    ensures r.Ok? ==> forall c, i: nat | c in dto && i < |dto[c].PaymentOptions| ::
      var o := dto[c].PaymentOptions[i];
      && o.ID in r.value && r.value[o.ID].ChainID == c && r.value[o.ID].PaymentRails == dto[c].PaymentRails
      && r.value[o.ID].Option.Name == o.Name && r.value[o.ID].Option.Type == o.Type
      && r.value[o.ID].Option.ContractAddress == o.ContractAddress
      && r.value[o.ID].Option.Features == o.Features && r.value[o.ID].Option.Decimals == o.Decimals
  {
    var cfg: Config := map[];
    var left := dto.Keys;
    ghost var done: set<Slot> := {};
    while left != {}
      invariant left <= dto.Keys
      invariant Built(dto, cfg, done, isAddress)
      invariant forall s :: s in done <==> Visited(dto, left, s)
      invariant forall c | c in dto && c !in left :: isAddress(dto[c].PaymentRails)
      decreases left
    {
      SomeChain(left);
      var id :| id in left;
      if !isAddress(dto[id].PaymentRails) {
        return Err(InvalidRails(dto[id].PaymentRails));
      }
      var next, now := DecodeOptions(dto, id, cfg, done, isAddress);
      if next.Err? {
        return Err(next.error);
      }
      cfg, left := next.value, left - {id};
      forall s ensures s in now <==> Visited(dto, left, s) {
        assert s in done <==> Visited(dto, left + {id}, s);
      }
      done := now;
    }
    forall s ensures s in done <==> IsSlot(dto, s) {
      assert s in done <==> Visited(dto, left, s);
    }
    BuildDone(dto, cfg, done, isAddress);
    forall c, i: nat | c in dto && i < |dto[c].PaymentOptions|
      ensures dto[c].PaymentOptions[i].ID in cfg && cfg[dto[c].PaymentOptions[i].ID] == EntryAt(dto, Slot(c, i))
    {
      assert IsSlot(dto, Slot(c, i));
    }
    return Ok(cfg);
  }

  /** The settings determine their configuration: the order of the chains does not matter. */
  lemma ConfigIsUnique(dto: DTO, a: Config, b: Config)
    requires IsConfigOf(dto, a) && IsConfigOf(dto, b)
    ensures a == b
  {
    forall id ensures id in a <==> id in b {
      if id in a {
        var s :| IsSlot(dto, s) && OptionAt(dto, s).ID == id;
      }
      if id in b {
        var s :| IsSlot(dto, s) && OptionAt(dto, s).ID == id;
      }
    }
    forall id | id in a ensures a[id] == b[id] {
      var s :| IsSlot(dto, s) && OptionAt(dto, s).ID == id;
    }
  }
}
