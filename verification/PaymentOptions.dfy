/** Payment option configurations between the API and the domain: newPaymentOptionConfig of
    internal/api/payment.go and toPaymentOptionConfig of internal/api/responses.go. */
module PaymentOptions {
  import opened Wrappers

  // ---------------------------------------------------------------- decimal numbers

  predicate IsDigit(c: char) {
    '0' <= c <= '9'
  }

  predicate AllDigits(s: string) {
    forall c | c in s :: IsDigit(c)
  }

  function DigitChar(d: nat): (c: char)
    requires d < 10
    ensures IsDigit(c) && c as int - '0' as int == d
  {
    ('0' as int + d) as char
  }

  function Digits(n: nat): string {
    if n < 10 then [DigitChar(n)] else Digits(n / 10) + [DigitChar(n % 10)]
  }

  /** big.Int.String. */
  function Print(n: int): string {
    if n < 0 then "-" + Digits(-n) else Digits(n)
  }

  function NatOf(s: string): nat
    requires AllDigits(s)
  {
    if s == "" then 0
    else
      assert s[|s| - 1] in s && forall c | c in s[..|s| - 1] :: c in s;
      10 * NatOf(s[..|s| - 1]) + (s[|s| - 1] as int - '0' as int)
  }

  predicate Signed(s: string) {
    s != "" && (s[0] == '-' || s[0] == '+')
  }

  function Unsigned(s: string): string {
    if Signed(s) then s[1..] else s
  }

  /** big.Int.SetString in base 10: an optional sign, then digits only. */
  function Parse(s: string): Option<int> {
    var digits := Unsigned(s);
    if digits == "" || !AllDigits(digits) then None
    else
      var n: int := NatOf(digits);
      Some(if Signed(s) && s[0] == '-' then -n else n)
  }

  lemma {:induction false} DigitsAreDigits(n: nat)
    ensures Digits(n) != "" && AllDigits(Digits(n)) && NatOf(Digits(n)) == n
    ensures Digits(n)[0] == '0' ==> n == 0
  {
    if n >= 10 {
      DigitsAreDigits(n / 10);
      assert Digits(n)[..|Digits(n)| - 1] == Digits(n / 10);
    } else {
      assert Digits(n)[..0] == "";
    }
  }

  lemma ParseDigits(digits: string)
    requires digits != "" && AllDigits(digits)
    ensures Parse(digits) == Some(NatOf(digits)) && Parse("-" + digits) == Some(0 - NatOf(digits))
  {
    assert digits[0] in digits;
    assert ("-" + digits)[1..] == digits;
  }

  /** Printing and parsing an amount gives it back. */
  lemma ParseOfPrint(n: int)
    ensures Parse(Print(n)) == Some(n)
  {
    var magnitude := if n < 0 then -n else n;
    DigitsAreDigits(magnitude);
    ParseDigits(Digits(magnitude));
  }

  /** The strings that are amounts: digits, at least one, with or without a sign in front. */
  ghost predicate IsAmount(s: string, sign: string, digits: string) {
    s == sign + digits && sign in {"", "+", "-"} && digits != "" && forall c | c in digits :: c in "0123456789"
  }

  lemma AmountParses(s: string, sign: string, digits: string)
    requires IsAmount(s, sign, digits)
    ensures AllDigits(digits) && Parse(s) == Some(if sign == "-" then 0 - NatOf(digits) else NatOf(digits))
  {
    forall c | c in digits ensures IsDigit(c) {
      assert c in "0123456789";
    }
    ParseDigits(digits);
    if sign == "+" {
      assert s[0] == '+' && s[1..] == digits;
    } else if sign == "" {
      assert s == digits;
    }
  }

  /** All others are rejected, and the sign counts. */
  lemma ParsesWhen(s: string)
    ensures Parse(s).Some? <==> exists sign, digits :: IsAmount(s, sign, digits)
    ensures forall sign, digits | IsAmount(s, sign, digits) ::
              AllDigits(digits) && Parse(s) == Some(if sign == "-" then 0 - NatOf(digits) else NatOf(digits))
  {
    forall sign, digits | IsAmount(s, sign, digits)
      ensures AllDigits(digits) && Parse(s) == Some(if sign == "-" then 0 - NatOf(digits) else NatOf(digits))
    {
      AmountParses(s, sign, digits);
    }
    if Parse(s).Some? {
      var digits := Unsigned(s);
      var sign := if Signed(s) then [s[0]] else "";
      forall c | c in digits ensures c in "0123456789" {
        assert IsDigit(c);
        assert c == "0123456789"[c as int - '0' as int];
      }
      assert IsAmount(s, sign, digits);
    }
  }

  /** No plus sign, no leading zero, no negative zero. */
  predicate Canonical(s: string) {
    var digits := if s != "" && s[0] == '-' then s[1..] else s;
    digits != "" && AllDigits(digits) && (digits[0] == '0' ==> s == "0")
  }

  lemma NatOfStep(s: string)
    requires |s| > 1 && AllDigits(s)
    ensures AllDigits(s[..|s| - 1]) && IsDigit(s[|s| - 1])
    ensures NatOf(s) / 10 == NatOf(s[..|s| - 1]) && DigitChar(NatOf(s) % 10) == s[|s| - 1]
  {
    var n := |s| - 1;
    assert s[n] in s && forall c | c in s[..n] :: c in s;
    var d := s[n] as int - '0' as int;
    assert NatOf(s) == 10 * NatOf(s[..n]) + d;
  }

  lemma {:induction false} DigitsOfNat(s: string)
    requires s != "" && AllDigits(s) && (s[0] == '0' ==> s == "0")
    ensures Digits(NatOf(s)) == s
    ensures s[0] != '0' ==> NatOf(s) > 0
  {
    var n := |s| - 1;
    if n > 0 {
      NatOfStep(s);
      DigitsOfNat(s[..n]);
      assert s == s[..n] + [s[n]];
    } else {
      assert s[0] in s && s[..0] == "";
      assert s == [s[0]];
    }
  }

  /** Among the strings that parse, exactly the canonical ones are printed back unchanged. */
  lemma PrintOfParse(s: string)
    requires Parse(s).Some?
    ensures Print(Parse(s).value) == s <==> Canonical(s)
    ensures Canonical(Print(Parse(s).value))
  {
    PrintIsCanonical(Parse(s).value);
    if Canonical(s) {
      if s[0] == '-' {
        DigitsOfNat(s[1..]);
        assert s == "-" + s[1..];
      } else {
        assert s[0] in s;
        DigitsOfNat(s);
      }
    }
  }

  lemma PrintIsCanonical(n: int)
    ensures Canonical(Print(n))
  {
    if n < 0 {
      DigitsAreDigits(-n);
      assert Print(n)[1..] == Digits(-n);
    } else {
      DigitsAreDigits(n);
      assert Digits(n)[0] in Digits(n);
    }
  }

  // ---------------------------------------------------------------- configurations

  datatype ApiItem = ApiItem(
    PaymentOptionID: int, Amount: string, Recipient: string, SigningKeyID: string, Expiration: Option<int>)

  datatype DomainItem = DomainItem(
    PaymentOptionID: int, Amount: int, Recipient: string, SigningKeyID: string, Expiration: Option<int>)

  datatype Error = InvalidRecipient(recipient: string) | InvalidAmount(amount: string)

  function ToApi(item: DomainItem): ApiItem {
    ApiItem(item.PaymentOptionID, Print(item.Amount), item.Recipient, item.SigningKeyID, item.Expiration)
  }

  /** isAddress: a hexadecimal Ethereum address or a Solana one. */
  function FromApi(item: ApiItem, isAddress: string -> bool): Result<DomainItem, Error> {
    if !isAddress(item.Recipient) then Err(InvalidRecipient(item.Recipient))
    else if Parse(item.Amount).None? then Err(InvalidAmount(item.Amount))
    else
      Ok(DomainItem(item.PaymentOptionID, Parse(item.Amount).value, item.Recipient, item.SigningKeyID, item.Expiration))
  }

  function ToConfig(items: seq<DomainItem>): seq<ApiItem> {
    seq(|items|, i requires 0 <= i < |items| => ToApi(items[i]))
  }

  /** All items, or the error of the first one that is rejected. */
  function NewConfig(config: seq<ApiItem>, isAddress: string -> bool): Result<seq<DomainItem>, Error> {
    if config == [] then Ok([])
    else
      var n := |config| - 1;
      var before := NewConfig(config[..n], isAddress);
      if before.Err? then before
      else
        var last := FromApi(config[n], isAddress);
        if last.Err? then Err(last.error) else Ok(before.value + [last.value])
  }

  method NewPaymentOptionConfig(config: seq<ApiItem>, isAddress: string -> bool)
    returns (r: Result<seq<DomainItem>, Error>)
    ensures r == NewConfig(config, isAddress)
    ensures r.Ok? ==> |r.value| == |config| && forall i | 0 <= i < |config| ::
      && isAddress(config[i].Recipient) && Parse(config[i].Amount) == Some(r.value[i].Amount)
      && r.value[i].PaymentOptionID == config[i].PaymentOptionID && r.value[i].Recipient == config[i].Recipient
      && r.value[i].SigningKeyID == config[i].SigningKeyID && r.value[i].Expiration == config[i].Expiration
  {
    var options := new DomainItem[|config|](_ => DomainItem(0, 0, "", "", None));
    for i := 0 to |config|
      invariant NewConfig(config[..i], isAddress) == Ok(options[..i])
    {
      var item := config[i];
      assert config[..i + 1][..i] == config[..i];
      if !isAddress(item.Recipient) {
        PrefixError(config, i + 1, isAddress);
        return Err(InvalidRecipient(item.Recipient));
      }
      var amount := Parse(item.Amount);
      if amount.None? {
        PrefixError(config, i + 1, isAddress);
        return Err(InvalidAmount(item.Amount));
      }
      options[i] := DomainItem(item.PaymentOptionID, amount.value, item.Recipient, item.SigningKeyID, item.Expiration);
      assert options[..i + 1] == options[..i] + [options[i]];
    }
    assert config[..|config|] == config;
    assert options[..] == options[..|config|];
    ReadItems(config, isAddress);
    return Ok(options[..]);
  }

  lemma {:induction false} PrefixError(config: seq<ApiItem>, n: nat, isAddress: string -> bool)
    requires n <= |config| && NewConfig(config[..n], isAddress).Err?
    ensures NewConfig(config, isAddress) == NewConfig(config[..n], isAddress)
    decreases |config|
  {
    if n == |config| {
      assert config[..n] == config;
    } else {
      assert config[..|config| - 1][..n] == config[..n];
      PrefixError(config[..|config| - 1], n, isAddress);
    }
  }

  /** A configuration is rejected exactly if some item is, with the error of the first of them. */
  lemma {:induction false} FirstErrorCounts(config: seq<ApiItem>, isAddress: string -> bool) returns (i: nat)
    ensures i <= |config| && (NewConfig(config, isAddress).Err? <==> i < |config|)
    ensures forall j | 0 <= j < i :: isAddress(config[j].Recipient) && Parse(config[j].Amount).Some?
    ensures i < |config| && !isAddress(config[i].Recipient) ==>
      NewConfig(config, isAddress) == Err(InvalidRecipient(config[i].Recipient))
    ensures i < |config| && isAddress(config[i].Recipient) ==>
      NewConfig(config, isAddress) == Err(InvalidAmount(config[i].Amount))
    ensures i < |config| && isAddress(config[i].Recipient) ==> Parse(config[i].Amount).None?
  {
    if config == [] {
      i := 0;
    } else {
      var before, last := config[..|config| - 1], config[|config| - 1];
      assert config == before + [last];
      i := FirstErrorCounts(before, isAddress);
      ReadOneMore(before, last, isAddress);
      if i == |before| && isAddress(last.Recipient) && Parse(last.Amount).Some? {
        i := i + 1;
      }
    }
  }

  method ToPaymentOptionConfig(items: seq<DomainItem>) returns (cfg: seq<ApiItem>)
    ensures cfg == ToConfig(items)
    ensures |cfg| == |items| && forall i | 0 <= i < |items| ::
      && Parse(cfg[i].Amount) == Some(items[i].Amount) && Canonical(cfg[i].Amount)
      && cfg[i].PaymentOptionID == items[i].PaymentOptionID && cfg[i].Recipient == items[i].Recipient
      && cfg[i].SigningKeyID == items[i].SigningKeyID && cfg[i].Expiration == items[i].Expiration
  {
    var out := new ApiItem[|items|](_ => ApiItem(0, "", "", "", None));
    for i := 0 to |items|
      invariant forall j | 0 <= j < i :: out[j] == ToApi(items[j])
    {
      var item := items[i];
      out[i] := ApiItem(item.PaymentOptionID, Print(item.Amount), item.Recipient, item.SigningKeyID, item.Expiration);
    }
    cfg := out[..];
    forall i | 0 <= i < |items| ensures Parse(cfg[i].Amount) == Some(items[i].Amount) && Canonical(cfg[i].Amount) {
      ParseOfPrint(items[i].Amount);
      PrintIsCanonical(items[i].Amount);
    }
  }

  lemma RoundTripOfItem(item: DomainItem, isAddress: string -> bool)
    ensures FromApi(ToApi(item), isAddress)
         == if isAddress(item.Recipient) then Ok(item) else Err(InvalidRecipient(item.Recipient))
  {
    ParseOfPrint(item.Amount);
  }

  lemma ReadOneMore(config: seq<ApiItem>, item: ApiItem, isAddress: string -> bool)
    ensures var before, last := NewConfig(config, isAddress), FromApi(item, isAddress);
            NewConfig(config + [item], isAddress) ==
            (if before.Err? then before else if last.Err? then Err(last.error) else Ok(before.value + [last.value]))
  {
    assert (config + [item])[..|config|] == config;
  }

  /** Printing any configuration and reading it again succeeds exactly when its recipients are
      valid, and then gives the same configuration. */
  lemma {:induction false} RoundTrip(items: seq<DomainItem>, isAddress: string -> bool)
    ensures var r := NewConfig(ToConfig(items), isAddress);
            && (r.Ok? <==> forall item | item in items :: isAddress(item.Recipient))
            && (r.Ok? ==> r.value == items)
  {
    if items != [] {
      var n := |items| - 1;
      RoundTrip(items[..n], isAddress);
      RoundTripOfItem(items[n], isAddress);
      assert items == items[..n] + [items[n]];
      assert ToConfig(items) == ToConfig(items[..n]) + [ToApi(items[n])];
      ReadOneMore(ToConfig(items[..n]), ToApi(items[n]), isAddress);
    }
  }

  /** Reading and printing changes nothing but the spelling of the amounts. */
  lemma {:induction false} ReadThenPrint(config: seq<ApiItem>, isAddress: string -> bool)
    requires NewConfig(config, isAddress).Ok?
    ensures var items := NewConfig(config, isAddress).value;
            && |items| == |config|
            && (forall i | 0 <= i < |config| ::
                  Parse(config[i].Amount) == Some(items[i].Amount)
                  && ToConfig(items)[i] == config[i].(Amount := Print(items[i].Amount)))
            && NewConfig(ToConfig(items), isAddress) == Ok(items)
            && (ToConfig(items) == config <==> forall item | item in config :: Canonical(item.Amount))
  {
    var items := NewConfig(config, isAddress).value;
    ReadItems(config, isAddress);
    RoundTrip(items, isAddress);
    RecipientsWereChecked(config, items, isAddress);
    SpellingIsAll(config, items, isAddress);
  }

  lemma RecipientsWereChecked(config: seq<ApiItem>, items: seq<DomainItem>, isAddress: string -> bool)
    requires |items| == |config| && forall i | 0 <= i < |config| :: FromApi(config[i], isAddress) == Ok(items[i])
    ensures forall item | item in items :: isAddress(item.Recipient)
  {
    forall i | 0 <= i < |items| ensures isAddress(items[i].Recipient) {
      assert FromApi(config[i], isAddress) == Ok(items[i]);
    }
  }

  lemma SpellingIsAll(config: seq<ApiItem>, items: seq<DomainItem>, isAddress: string -> bool)
    requires |items| == |config| && forall i | 0 <= i < |config| :: FromApi(config[i], isAddress) == Ok(items[i])
    ensures forall i | 0 <= i < |config| :: ToConfig(items)[i] == config[i].(Amount := Print(items[i].Amount))
    ensures ToConfig(items) == config <==> forall item | item in config :: Canonical(item.Amount)
  {
    forall i | 0 <= i < |config|
      ensures ToConfig(items)[i] == config[i].(Amount := Print(items[i].Amount))
      ensures ToConfig(items)[i] == config[i] <==> Canonical(config[i].Amount)
    {
      assert FromApi(config[i], isAddress) == Ok(items[i]);
      PrintOfParse(config[i].Amount);
    }
    assert forall i | 0 <= i < |config| :: config[i] in config;
  }

  lemma {:induction false} ReadItems(config: seq<ApiItem>, isAddress: string -> bool)
    requires NewConfig(config, isAddress).Ok?
    ensures var items := NewConfig(config, isAddress).value;
            |items| == |config| && forall i | 0 <= i < |config| :: FromApi(config[i], isAddress) == Ok(items[i])
  {
    if config != [] {
      ReadItems(config[..|config| - 1], isAddress);
    }
  }
}
