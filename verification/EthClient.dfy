/** internal/eth/client.go: gas price, fee cap and the two polling loops. */
module EthClient {
  import opened Wrappers
  import opened BigInts
  import opened Receipts

  datatype Error =
    | PrivateKeyNil
    | RpcError
    | Underpriced
    | ReceiptNotReceived
    | TimeOut

  // ---------------------------------------------------------------- gas price

  const GAS_PRICE_INCREMENT := 10
  const UNDERPRICED_INCREMENT := 30

  function ValueOf(n: BigInt?): Option<int>
    reads n
  {
    if n == null then None else Some(n.v)
  }

  predicate Positive(bound: Option<int>) {
    bound.Some? && bound.value > 0
  }

  /** Ten percent on top of the suggestion, then raised to min, then cut to max. */
  function GasPrice(min: Option<int>, max: Option<int>, suggested: int): int {
    var raised := suggested + suggested / GAS_PRICE_INCREMENT;
    var atLeast := if Positive(min) && raised < min.value then min.value else raised;
    if Positive(max) && atLeast > max.value then max.value else atLeast
  }

  /** Both bounds are set and equal: the price is forced and the network is not asked. */
  predicate Forced(min: Option<int>, max: Option<int>) {
    Positive(min) && max == min
  }

  class Client {
    const MinGasPrice: BigInt?
    const MaxGasPrice: BigInt?
    const DefaultGasLimit: int

    constructor (min: BigInt?, max: BigInt?, defaultGasLimit: int)
      ensures MinGasPrice == min && MaxGasPrice == max && DefaultGasLimit == defaultGasLimit
    {
      MinGasPrice, MaxGasPrice, DefaultGasLimit := min, max, defaultGasLimit;
    }

    /** The configured bounds are not in the frame; the result is a number nobody else holds. */
    method GetGasPrice(suggestion: Result<BigInt, Error>) returns (r: Result<BigInt, Error>)
      requires suggestion.Ok? ==> suggestion.value != MinGasPrice && suggestion.value != MaxGasPrice
      modifies if suggestion.Ok? then {suggestion.value} else {}
      ensures r.Ok? <==> Forced(ValueOf(MinGasPrice), ValueOf(MaxGasPrice)) || suggestion.Ok?
      ensures r.Ok? <==>
        suggestion.Ok? || (MinGasPrice != null && MaxGasPrice != null && MinGasPrice.v == MaxGasPrice.v > 0)
      ensures r.Ok? ==> fresh(r.value)
      ensures r.Ok? && suggestion.Err? ==> MaxGasPrice != null && r.value.v == MaxGasPrice.v
      ensures r.Ok? && suggestion.Ok? && old(suggestion.value.v) >= 0 ==>
        r.value.v == GasPrice(ValueOf(MinGasPrice), ValueOf(MaxGasPrice), old(suggestion.value.v))
      ensures r.Err? ==> r.error == RpcError
    {
      var gasPrice := new BigInt(0);
      if MinGasPrice != null && MinGasPrice.v > 0 && MaxGasPrice != null && MinGasPrice.v == MaxGasPrice.v {
        gasPrice.Set(MaxGasPrice);
        return Ok(gasPrice);
      }
      if suggestion.Err? {
        return Err(RpcError);
      }
      var suggested := suggestion.value;
      var inc := new BigInt(0);
      inc.Set(suggested);
      var ten := new BigInt(GAS_PRICE_INCREMENT);
      inc.Div(inc, ten);
      suggested.Add(suggested, inc);
      gasPrice.Set(suggested);
      if MinGasPrice != null && MinGasPrice.v > 0 && gasPrice.v < MinGasPrice.v {
        gasPrice.Set(MinGasPrice);
      }
      if MaxGasPrice != null && MaxGasPrice.v > 0 && gasPrice.v > MaxGasPrice.v {
        gasPrice.Set(MaxGasPrice);
      }
      return Ok(gasPrice);
    }

    /** Sends at the computed price and, if that is underpriced, once more at thirty times the
        price.  The price is multiplied in place; sends lists the prices seen by the network. */
    method CallAuth(gasLimit: int, hasKey: bool, suggestion: Result<BigInt, Error>, signer: Result<(), Error>,
                    firstSend: Result<string, Error>, secondSend: Result<string, Error>)
      returns (r: Result<string, Error>, sends: seq<(int, int)>)
      requires suggestion.Ok? ==> suggestion.value != MinGasPrice && suggestion.value != MaxGasPrice
      requires suggestion.Ok? ==> suggestion.value.v >= 0
      modifies if suggestion.Ok? then {suggestion.value} else {}
      ensures !hasKey ==> r == Err(PrivateKeyNil)
      ensures |sends| == 0 ==> r.Err?
      ensures hasKey && suggestion.Err? && !Forced(ValueOf(MinGasPrice), ValueOf(MaxGasPrice)) ==> r == Err(RpcError)
      ensures hasKey && suggestion.Ok? && signer.Err? ==> r == Err(signer.error)
      ensures |sends| <= 2
      ensures |sends| >= 1 <==>
        hasKey && signer.Ok? && (suggestion.Ok? || Forced(ValueOf(MinGasPrice), ValueOf(MaxGasPrice)))
      ensures |sends| >= 1 ==>
        && sends[0].1 == (if gasLimit == 0 then DefaultGasLimit else gasLimit)
        && (suggestion.Ok? ==>
              sends[0].0 == GasPrice(ValueOf(MinGasPrice), ValueOf(MaxGasPrice), old(suggestion.value.v)))
        && (suggestion.Err? ==> MaxGasPrice != null && sends[0].0 == MaxGasPrice.v)
        && (|sends| == 2 <==> firstSend == Err(Underpriced))
        && r == (if |sends| == 2 then secondSend else firstSend)
      ensures |sends| == 2 ==> sends[1] == (30 * sends[0].0, sends[0].1)
      ensures |sends| == 2 && Positive(ValueOf(MaxGasPrice)) ==>
        && sends[0].0 <= MaxGasPrice.v
        && (sends[1].0 <= MaxGasPrice.v <==>
              suggestion.Ok? && ResendFits(ValueOf(MinGasPrice), MaxGasPrice.v, old(suggestion.value.v)))
    {
      sends := [];
      if !hasKey {
        return Err(PrivateKeyNil), sends;
      }
      var price := GetGasPrice(suggestion);
      if price.Err? {
        return Err(price.error), sends;
      }
      if signer.Err? {
        return Err(signer.error), sends;
      }
      var gasPrice := price.value;
      var limit := if gasLimit == 0 then DefaultGasLimit else gasLimit;
      sends := [(gasPrice.v, limit)];
      r := firstSend;
      if firstSend == Err(Underpriced) {
        var thirty := new BigInt(UNDERPRICED_INCREMENT);
        gasPrice.Mul(gasPrice, thirty);
        sends := sends + [(gasPrice.v, limit)];
        r := secondSend;
        if Positive(ValueOf(MaxGasPrice)) && suggestion.Ok? {
          ResendRespectsMax(ValueOf(MinGasPrice), ValueOf(MaxGasPrice), old(suggestion.value.v));
        }
      }
    }
  }

  /** A bound of zero or less is as good as none. */
  lemma OnlyPositiveBoundsBind(bound: int, other: Option<int>, suggested: int)
    requires suggested >= 0 && bound <= 0
    ensures GasPrice(Some(bound), other, suggested) == GasPrice(None, other, suggested)
    ensures GasPrice(other, Some(bound), suggested) == GasPrice(other, None, suggested)
  {
  }

  /** Forcing the price gives what the general path would have given for any suggestion. */
  lemma ForcedIsGeneral(min: Option<int>, max: Option<int>, suggested: int)
    requires Forced(min, max) && suggested >= 0
    ensures GasPrice(min, max, suggested) == max.value
  {
  }

  lemma GasPriceIsMonotone(min: Option<int>, max: Option<int>, s: int, t: int)
    requires 0 <= s <= t
    ensures GasPrice(min, max, s) <= GasPrice(min, max, t)
  {
    assert s / GAS_PRICE_INCREMENT <= t / GAS_PRICE_INCREMENT;
  }

  function Abs(n: int): int {
    if n < 0 then -n else n
  }

  /** A bound that is not set, or not positive, binds nothing. */
  predicate Admissible(min: Option<int>, max: Option<int>, price: int) {
    (Positive(min) ==> price >= min.value) && (Positive(max) ==> price <= max.value)
  }

  /** With one bound, two that are consistent, or none, the price is the admissible one closest to
      11/10 of the suggestion; with none it is that.  Of inconsistent bounds the maximum wins. */
  lemma GasPriceIsClosest(min: Option<int>, max: Option<int>, suggested: int, other: int)
    requires suggested >= 0
    ensures var p, target := GasPrice(min, max, suggested), 11 * suggested / 10;
            && (Positive(max) ==> p <= max.value)
            && (!Positive(min) && !Positive(max) ==> p == target)
            && (if Positive(min) && Positive(max) && min.value > max.value then p == max.value
                else Admissible(min, max, p)
                     && (Admissible(min, max, other) ==> Abs(p - target) <= Abs(other - target)))
  {
    assert 11 * suggested / 10 == suggested + suggested / 10;
  }

  /** Room for a resend: the raised suggestion and a positive minimum are both at most a thirtieth
      of the maximum. */
  predicate ResendFits(min: Option<int>, max: int, suggested: int) {
    && suggested + suggested / GAS_PRICE_INCREMENT <= max / UNDERPRICED_INCREMENT
    && (Positive(min) ==> min.value <= max / UNDERPRICED_INCREMENT)
  }

  /** The resend is not clamped: it respects a positive maximum exactly when there is room. */
  lemma ResendRespectsMax(min: Option<int>, max: Option<int>, suggested: int)
    requires suggested >= 0 && Positive(max)
    ensures GasPrice(min, max, suggested) <= max.value
    ensures 30 * GasPrice(min, max, suggested) <= max.value
            <==> ResendFits(min, max.value, suggested)
  {
  }

  /** A suggestion of 50 under a maximum of 100 is sent at 55 and resent at 1650. */
  lemma ResendMayExceedMax()
    ensures GasPrice(None, Some(100), 50) == 55 && 30 * 55 > 100
    ensures !ResendFits(None, 100, 50)
  {
  }

  // ---------------------------------------------------------------- fee cap

  /** eip1559.CalcBaseFee for a parent block after London. */
  function CalcBaseFee(used: nat, limit: nat, base: nat): nat
    requires limit >= 2
  {
    var target := limit / 2;
    if used == target then base
    else if used > target then
      var delta := base * (used - target) / target / 8;
      base + if delta < 1 then 1 else delta
    else
      var fee := base - base * (target - used) / target / 8;
      if fee < 0 then 0 else fee
  }

  const TWO_TO_52 := 0x10_0000_0000_0000
  const TWO_TO_53 := 0x20_0000_0000_0000

  /** The distance between neighbouring float64 values around n: a power of two. */
  function Spacing(n: nat): (u: nat)
    ensures 1 <= u && n < u * TWO_TO_53
    ensures u == 1 || u * TWO_TO_52 <= n
  {
    if n < TWO_TO_53 then 1 else 2 * Spacing(n / 2)
  }

  /** n in units of u, rounded to the nearest, to the even one of two. */
  function Rounded(n: nat, u: nat): nat
    requires u > 0
  {
    if 2 * (n % u) > u || (2 * (n % u) == u && n / u % 2 == 1) then n / u + 1 else n / u
  }

  function Significand(n: nat): nat {
    Rounded(n, Spacing(n))
  }

  /** The float64 nearest to n. */
  function Nearest(n: nat): nat {
    Significand(n) * Spacing(n)
  }

  /** math.Round(float64(n) * 1.25).  The product is a float64 times 5 / 4, and dividing by four
      only changes the exponent. */
  function Raised(n: nat): nat {
    (Nearest(5 * Nearest(n)) + 2) / 4
  }

  /** The 25 percent raise with its conversions: Int64 keeps the low bits, and a float that does
      not fit int64 becomes whatever the platform makes of it. */
  function RaisedBaseFee(base: nat, overflow: int): int {
    var n := ToInt64(base);
    var raised: int := if n >= 0 then Raised(n) else 0 - Raised(-n);
    if -TWO_TO_63 <= raised < TWO_TO_63 then raised else overflow
  }

  datatype Fees = Fees(tipCap: Option<int>, feeCap: Option<int>)

  datatype Tip = Suggested(tip: int) | Unsupported | TipFails

  /** The fee part of CreateRawTx.  A base fee or tip given by the caller is used as it is. */
  method RawTxFees(gasLess: bool, baseFee: Option<int>, gasTips: Option<int>, gasEstimated: bool,
                   header: Result<(nat, nat, nat), Error>, tip: Tip, overflow: int)
    returns (r: Result<Fees, Error>)
    requires header.Ok? ==> header.value.1 >= 2
    ensures gasLess ==> r == Ok(Fees(None, None))
    ensures !gasLess ==> (r.Err? <==> !gasEstimated || header.Err? || (gasTips.None? && tip.TipFails?))
    ensures !gasLess && r.Ok? ==>
      && r.value.tipCap.Some? && r.value.feeCap.Some?
      && var t := if gasTips.Some? then gasTips.value else if tip.Suggested? then tip.tip else 0;
         var b := CalcBaseFee(header.value.0, header.value.1, header.value.2);
         && r.value.tipCap.value == t
         && (baseFee.None? && header.value.0 <= header.value.1 / 2 && 5 * header.value.2 < TWO_TO_53 ==>
               (5 * (header.value.2 - header.value.2 / 8) + 2) / 4 + t <= r.value.feeCap.value
               <= (5 * header.value.2 + 2) / 4 + t)
         && r.value.feeCap.value == (if baseFee.Some? then baseFee.value else RaisedBaseFee(b, overflow)) + t
  {
    if gasLess {
      return Ok(Fees(None, None));
    }
    if !gasEstimated || header.Err? {
      return Err(RpcError);
    }
    var base := baseFee;
    if base.None? {
      var computed := CalcBaseFee(header.value.0, header.value.1, header.value.2);
      base := Some(RaisedBaseFee(computed, overflow));
      if header.value.0 <= header.value.1 / 2 && 5 * header.value.2 < TWO_TO_53 {
        BelowTarget(header.value.0, header.value.1, header.value.2);
        RaisedIsExact(computed, overflow);
      }
    }
    var tips := gasTips;
    if tips.None? {
      match tip {
        case Suggested(n) => tips := Some(n);
        case Unsupported => tips := Some(0);
        case TipFails => return Err(RpcError);
      }
    }
    return Ok(Fees(tips, Some(base.value + tips.value)));
  }

  /** The cap for a computed base fee. */
  function FeeCap(base: nat, tip: nat, overflow: int): int {
    RaisedBaseFee(base, overflow) + tip
  }

  // ---------------------------------------------------------------- what the float arithmetic gives

  /** Rounding moves a number by at most half the spacing. */
  lemma NearestIsNear(n: nat)
    ensures n < TWO_TO_53 ==> Nearest(n) == n
    ensures TWO_TO_53 * (n - Nearest(n)) <= n && TWO_TO_53 * (Nearest(n) - n) <= n
  {
    var u := Spacing(n);
    var q, rest := n / u, n % u;
    assert n == q * u + rest;
    assert (q + 1) * u == q * u + u;
  }

  /** q multiples of u, seen from the quotient and the remainder of n. */
  lemma MultipleFrom(n: nat, u: nat, q: nat)
    requires u > 0
    ensures n - q * u == n % u + (n / u - q) * u
    ensures q > n / u ==> q * u - n >= u - n % u
    ensures q > n / u + 1 ==> q * u - n >= 2 * u - n % u
    ensures q < n / u ==> n - q * u >= u + n % u
  {
    var p := n / u;
    assert n == p * u + n % u;
    assert (p - q) * u == p * u - q * u;
    if q > p {
      MulMonotone(u, if q > p + 1 then 2 else 1, q - p);
      var off: int := (p - q) * u;
      assert u * (q - p) == 0 - off;
    } else if q < p {
      MulMonotone(u, 1, p - q);
    }
  }

  /** No other multiple of the spacing is nearer, and of two that are equally near it is the one
      with the even significand. */
  lemma NearestIsBest(n: nat, q: nat)
    ensures var off := Abs(n - q * Spacing(n));
            && Abs(n - Nearest(n)) <= off
            && (Abs(n - Nearest(n)) == off && q != Significand(n) ==> Significand(n) % 2 == 0)
  {
    var u := Spacing(n);
    MultipleFrom(n, u, n / u);
    MultipleFrom(n, u, n / u + 1);
    assert (n / u + 1) * u == n / u * u + u;
    MultipleFrom(n, u, q);
  }

  /** Below a fifth of 2^53, so for every base fee below 2^50, nothing is lost. */
  lemma RaisedIsExact(base: nat, overflow: int)
    requires 5 * base < TWO_TO_53
    ensures RaisedBaseFee(base, overflow) == (5 * base + 2) / 4
  {
    NearestIsNear(base);
    NearestIsNear(5 * base);
  }

  function Pow2(k: nat): nat {
    if k == 0 then 1 else 2 * Pow2(k - 1)
  }

  lemma {:induction false} SpacingIs(n: nat, k: nat)
    requires Pow2(k) * TWO_TO_52 <= n < Pow2(k) * TWO_TO_53
    requires k == 0 ==> n < TWO_TO_53
    ensures Spacing(n) == Pow2(k)
  {
    if k > 0 {
      assert Pow2(k - 1) >= 1;
      SpacingIs(n / 2, k - 1);
    }
  }

  /** The first base fee whose raise leaves the range of int64. */
  const LIMIT := 7378697629483820544

  /** A number between two powers of two, counted in the spacing that holds there. */
  lemma NearestAt(n: nat, k: nat)
    requires Pow2(k) * TWO_TO_52 <= n < Pow2(k) * TWO_TO_53
    requires k == 0 ==> n < TWO_TO_53
    ensures Spacing(n) == Pow2(k)
    ensures var u := Pow2(k);
            Nearest(n) == (if 2 * (n % u) > u || (2 * (n % u) == u && n / u % 2 == 1) then n / u + 1 else n / u) * u
  {
    SpacingIs(n, k);
  }

  /** Between 2^62 and 2^63 neighbours are 1024 apart; LIMIT lies half way between two of them. */
  lemma NearestAroundLimit(n: nat)
    requires TWO_TO_63 <= 2 * n && n < TWO_TO_63
    ensures if n < LIMIT then Nearest(n) <= LIMIT - 512 else Nearest(n) >= LIMIT + 512
  {
    assert Pow2(10) == 1024;
    NearestAt(n, 10);
    assert LIMIT / 1024 == 7205759403792793 && LIMIT % 1024 == 512;
  }

  lemma NearestBelowTop(m: nat)
    requires 2 * TWO_TO_63 <= m < 4 * TWO_TO_63 - 2048
    ensures Nearest(m) <= 4 * TWO_TO_63 - 4096
  {
    assert Pow2(12) == 4096 by { assert Pow2(6) == 64; }
    NearestAt(m, 12);
    assert m / 4096 <= TWO_TO_53 - 1;
  }

  lemma NearestAboveTop(m: nat)
    requires 4 * TWO_TO_63 <= m < 8 * TWO_TO_63
    ensures Nearest(m) >= 4 * TWO_TO_63
  {
    assert Pow2(13) == 8192 by { assert Pow2(7) == 128; }
    NearestAt(m, 13);
    assert m / 8192 >= TWO_TO_52;
  }

  lemma RaisedFits(n: nat)
    requires n < TWO_TO_63
    ensures Raised(n) < TWO_TO_63 <==> n < LIMIT
    ensures n < LIMIT ==> n <= Raised(n)
  {
    var m := 5 * Nearest(n);
    NearestIsNear(n);
    NearestIsNear(m);
    if 2 * n >= TWO_TO_63 {
      NearestAroundLimit(n);
      if n >= LIMIT {
        NearestAboveTop(m);
      } else if m >= 2 * TWO_TO_63 {
        NearestBelowTop(m);
      }
    }
  }

  /** The raised base fee is at least the base fee on every platform exactly below LIMIT, which is
      four fifths of 2^63 but for rounding. */
  lemma RaiseCoversBaseFee(base: nat)
    ensures (forall overflow: int | -TWO_TO_63 <= overflow < TWO_TO_63 :: RaisedBaseFee(base, overflow) >= base)
            <==> base < LIMIT
  {
    if base < TWO_TO_63 {
      RaisedFits(base);
    }
    if base >= LIMIT {
      assert RaisedBaseFee(base, -1) < base;
    }
  }

  /** EIP-1559, Specification: a block with a lower gas limit is not valid. */
  const MIN_GAS_LIMIT := 5000

  /** By how much one legal block can raise the base fee: an eighth of it, for an odd gas limit of
      slightly more, or one. */
  function Rise(base: nat): nat {
    var eighth := (base + base / (MIN_GAS_LIMIT / 2)) / 8;
    if eighth < 1 then 1 else eighth
  }

  lemma NextBaseFee(base: nat, used: nat, limit: nat)
    requires MIN_GAS_LIMIT <= limit && used <= limit
    ensures CalcBaseFee(used, limit, base) <= base + Rise(base)
  {
    var target := limit / 2;
    if used > target {
      OverTarget(base, used - target, target);
    } else if used < target {
      UnderTarget(base, target - used, target);
    }
  }

  lemma OverTarget(base: nat, over: nat, target: nat)
    requires MIN_GAS_LIMIT / 2 <= target && over <= target + 1
    ensures base * over / target <= base + base / (MIN_GAS_LIMIT / 2)
  {
    var d := MIN_GAS_LIMIT / 2;
    MulMonotone(base, over, target + 1);
    assert base * (target + 1) == base * target + base;
    DivAtMostPlus(base * over, base, base, target);
    DivByMore(base, d, target);
  }

  lemma DivByMore(n: nat, d: nat, e: nat)
    requires 0 < d <= e
    ensures n / e <= n / d
  {
    var q := n / e;
    assert n == q * e + n % e;
    MulMonotone(q, d, e);
    var p := n / d;
    assert n == p * d + n % d;
    assert (p + 1) * d == p * d + d;
    LessByFactor(q, p + 1, d);
  }

  lemma DivAtMostPlus(x: int, q: nat, r: nat, d: nat)
    requires d > 0 && 0 <= x <= q * d + r
    ensures x / d <= q + r / d
  {
    var p, s := x / d, r / d;
    assert x == p * d + x % d && r == s * d + r % d;
    assert (q + s + 1) * d == q * d + s * d + d;
    LessByFactor(p, q + s + 1, d);
  }

  lemma UnderTarget(base: nat, under: nat, target: nat)
    requires 0 < target
    ensures base * under / target / 8 >= 0
  {
    MulMonotone(under, 0, base);
    DivNonNegative(base * under, target);
  }

  lemma MulMonotone(a: nat, b: nat, c: nat)
    requires b <= c
    ensures a * b <= a * c
  {
  }

  lemma DivNonNegative(x: int, d: int)
    requires x >= 0 && d > 0
    ensures x / d >= 0 && x / d / 8 >= 0
  {
  }

  lemma NotPositive(n: int, d: int)
    requires d > 0 && n * d <= 0
    ensures n <= 0
  {
  }

  lemma DivisionOf(x: nat, d: nat, q: nat)
    requires d > 0
    ensures x / d == q <==> q * d <= x < (q + 1) * d
  {
    var p := x / d;
    assert x == p * d + x % d;
    assert (p + 1) * d == p * d + d && (q + 1) * d == q * d + d;
    if q * d <= x < (q + 1) * d {
      LessByFactor(p, q + 1, d);
      LessByFactor(q, p + 1, d);
    }
  }

  lemma Expand(q: nat, r: nat, d: nat)
    ensures (8 * q + r) * d == q * (8 * d) + r * d
    ensures (q + 1) * (8 * d) == q * (8 * d) + 8 * d
  {
  }

  /** Dividing by the target and then by eight is dividing by eight targets. */
  lemma EighthOfQuotient(x: nat, target: nat)
    requires target > 0
    ensures x / target / 8 == x / (8 * target)
  {
    var p, r := x / target, x % target;
    var q, s := p / 8, p % 8;
    assert x == p * target + r && p == 8 * q + s;
    Expand(q, s, target);
    MulMonotone(target, s, 7);
    MulMonotone(s, 0, target);
    DivisionOf(x, 8 * target, q);
  }

  /** d is base * gas / target / 8, rounded down. */
  predicate IsEighth(d: int, base: nat, gas: nat, target: nat) {
    d * (8 * target) <= base * gas < (d + 1) * (8 * target)
  }

  lemma QuotientIsEighth(base: nat, gas: nat, target: nat)
    requires target > 0
    ensures 0 <= base * gas / target / 8 && IsEighth(base * gas / target / 8, base, gas, target)
  {
    MulMonotone(gas, 0, base);
    EighthOfQuotient(base * gas, target);
    DivisionOf(base * gas, 8 * target, base * gas / (8 * target));
  }

  lemma EighthAtMost(base: nat, gas: nat, target: nat)
    requires target > 0 && gas <= target
    ensures 0 <= base * gas / target / 8 <= base / 8
    ensures gas == target ==> base * gas / target / 8 == base / 8
  {
    MulMonotone(base, gas, target);
    MulMonotone(gas, 0, base);
    DivisionOf(base * target, target, base);
    DivMonotone(base * gas, base * target, target);
  }

  lemma DivMonotone(x: nat, y: nat, d: nat)
    requires d > 0 && x <= y
    ensures 0 <= x / d <= y / d
  {
    var p, q := x / d, y / d;
    assert x == p * d + x % d && y == q * d + y % d;
    assert (q + 1) * d == q * d + d;
    LessByFactor(p, q + 1, d);
  }

  /** A block at or under its gas target lowers the base fee by an eighth at most: by just that if
      it is empty, not at all at the target. */
  lemma BelowTarget(used: nat, limit: nat, base: nat)
    requires limit >= 2 && used <= limit / 2
    ensures base - base / 8 <= CalcBaseFee(used, limit, base) <= base
    ensures CalcBaseFee(0, limit, base) == base - base / 8 && CalcBaseFee(limit / 2, limit, base) == base
  {
    EighthAtMost(base, limit / 2 - used, limit / 2);
    EighthAtMost(base, limit / 2, limit / 2);
  }

  /** How far a header moves the base fee: an eighth of it for a target's worth of gas above or
      below the target, in proportion and rounded down, but up by one at least. */
  lemma FeeMoves(used: nat, limit: nat, base: nat)
    requires limit >= 2
    ensures var target, fee := limit / 2, CalcBaseFee(used, limit, base);
            && (used <= target ==> IsEighth(base - fee, base, target - used, target))
            && (used > target ==> fee > base)
            && (used > target ==> IsEighth(fee - base, base, used - target, target)
                                  || (fee == base + 1 && IsEighth(0, base, used - target, target)))
  {
    var target := limit / 2;
    if used <= target {
      QuotientIsEighth(base, target - used, target);
      EighthAtMost(base, target - used, target);
    } else {
      QuotientIsEighth(base, used - target, target);
    }
  }

  lemma MonotoneBelow(used: nat, more: nat, limit: nat, base: nat)
    requires limit >= 2 && used <= more <= limit / 2
    ensures CalcBaseFee(used, limit, base) <= CalcBaseFee(more, limit, base)
  {
    var target := limit / 2;
    MulMonotone(base, target - more, target - used);
    MulMonotone(target - more, 0, base);
    DivMonotone(base * (target - more), base * (target - used), target);
    BelowTarget(used, limit, base);
    BelowTarget(more, limit, base);
  }

  lemma MonotoneAbove(used: nat, more: nat, limit: nat, base: nat)
    requires limit >= 2 && limit / 2 < used <= more
    ensures CalcBaseFee(used, limit, base) <= CalcBaseFee(more, limit, base)
  {
    var target := limit / 2;
    MulMonotone(base, used - target, more - target);
    MulMonotone(used - target, 0, base);
    DivMonotone(base * (used - target), base * (more - target), target);
  }

  /** A fuller block never lowers the next base fee. */
  lemma BaseFeeIsMonotone(used: nat, more: nat, limit: nat, base: nat)
    requires limit >= 2 && used <= more
    ensures CalcBaseFee(used, limit, base) <= CalcBaseFee(more, limit, base)
  {
    if more <= limit / 2 {
      MonotoneBelow(used, more, limit, base);
    } else if used <= limit / 2 {
      BelowTarget(used, limit, base);
      FeeMoves(more, limit, base);
    } else {
      MonotoneAbove(used, more, limit, base);
    }
  }

  // ---------------------------------------------------------------- the two roundings exactly

  /** What rounding five times a significand to a float64 adds to it.  Floats are 2, 4 or 8 apart
      there; the remainder decides, and for a tie the parity of the quotient. */
  function Shift(q: nat): int {
    if 5 * q < TWO_TO_53 then 0
    else if 5 * q < 2 * TWO_TO_53 then [0, -1, 0, 1][q % 4]
    else if 5 * q < 4 * TWO_TO_53 then [0, -1, -2, 1, 0, -1, 2, 1][q % 8]
    else [0, 3, -2, 1, -4, -1, 2, -3, 0, 3, -2, 1, 4, -1, 2, -3][q % 16]
  }

  /** Five times a significand as a float64. */
  function FiveTimes(q: nat): int {
    5 * q + Shift(q)
  }

  lemma NearestOfFive(q: nat)
    requires q <= TWO_TO_53
    ensures Nearest(5 * q) == FiveTimes(q)
  {
    assert Pow2(0) == 1 && Pow2(1) == 2 && Pow2(2) == 4 && Pow2(3) == 8;
    if 5 * q < TWO_TO_53 {
      NearestIsNear(5 * q);
    } else if 5 * q < 2 * TWO_TO_53 {
      NearestAt(5 * q, 1);
      ShiftByTwo(q);
    } else if 5 * q < 4 * TWO_TO_53 {
      NearestAt(5 * q, 2);
      ShiftByFour(q);
    } else {
      NearestAt(5 * q, 3);
      ShiftByEight(q);
    }
  }

  lemma ShiftByTwo(q: nat)
    ensures 2 * Rounded(5 * q, 2) == 5 * q + [0, -1, 0, 1][q % 4]
  {
    var k, r := q / 4, q % 4;
    assert 5 * q / 2 == 10 * k + 5 * r / 2 && 5 * q % 2 == 5 * r % 2;
  }

  lemma ShiftByFour(q: nat)
    ensures 4 * Rounded(5 * q, 4) == 5 * q + [0, -1, -2, 1, 0, -1, 2, 1][q % 8]
  {
    var k, r := q / 8, q % 8;
    assert 5 * q / 4 == 10 * k + 5 * r / 4 && 5 * q % 4 == 5 * r % 4;
  }

  lemma ShiftByEight(q: nat)
    ensures 8 * Rounded(5 * q, 8) == 5 * q + [0, 3, -2, 1, -4, -1, 2, -3, 0, 3, -2, 1, 4, -1, 2, -3][q % 16]
  {
    var k, r := q / 16, q % 16;
    assert 5 * q / 8 == 10 * k + 5 * r / 8 && 5 * q % 8 == 5 * r % 8;
  }

  lemma DivModUnique(n: nat, d: nat, q: nat, r: nat)
    requires n == q * d + r && r < d
    ensures n / d == q && n % d == r
  {
    var q', r' := n / d, n % d;
    assert n == q' * d + r';
    assert (q - q') * d == r' - r;
    assert (q - q' - 1) * d == (q - q') * d - d && (q' - q - 1) * d == -((q - q') * d) - d;
    NotPositive(q - q', d);
    NotPositive(q' - q, d);
  }

  lemma DoubleRounded(m: nat, u: nat)
    requires u > 0
    ensures Rounded(2 * m, 2 * u) == Rounded(m, u)
  {
    var q, r := m / u, m % u;
    assert m == q * u + r;
    assert 2 * m == q * (2 * u) + 2 * r by {
      assert q * (2 * u) == 2 * (q * u);
    }
    DivModUnique(2 * m, 2 * u, q, 2 * r);
  }

  lemma DoubleSpacing(m: nat)
    requires m >= TWO_TO_52
    ensures Spacing(2 * m) == 2 * Spacing(m)
  {
    assert 2 * m / 2 == m;
  }

  lemma DoubleNearest(m: nat)
    requires m >= TWO_TO_52
    ensures Nearest(2 * m) == 2 * Nearest(m)
  {
    DoubleSpacing(m);
    DoubleRounded(m, Spacing(m));
    Associate(Significand(m), 2, Spacing(m));
  }

  lemma Associate(a: nat, b: nat, c: nat)
    ensures a * (b * c) == (a * b) * c == b * (a * c)
  {
  }

  /** Rounding commutes with a change of the exponent. */
  lemma {:induction false} NearestScales(n: nat, m: nat)
    requires m >= TWO_TO_52
    ensures Nearest(Spacing(n) * m) == Spacing(n) * Nearest(m) && Spacing(n) * m >= TWO_TO_52
  {
    if n >= TWO_TO_53 {
      var w := Spacing(n / 2);
      NearestScales(n / 2, m);
      DoubleNearest(w * m);
      Associate(2, w, m);
      Associate(2, w, Nearest(m));
    }
  }

  lemma LessByFactor(a: int, b: int, u: int)
    requires u > 0 && a * u < b * u
    ensures a < b
  {
    assert (a - b) * u == a * u - b * u;
    assert a - b >= 0 ==> (a - b) * u >= 0;
  }

  lemma QuotientRange(n: nat, u: nat, low: nat, high: nat)
    requires u > 0 && low * u <= n < high * u
    ensures low <= n / u < high
  {
    var q := n / u;
    assert n == q * u + n % u;
    assert (q + 1) * u == q * u + u;
    LessByFactor(q, high, u);
    LessByFactor(low, q + 1, u);
  }

  lemma SignificandRange(n: nat)
    ensures Significand(n) <= TWO_TO_53
    ensures Spacing(n) > 1 ==> Significand(n) >= TWO_TO_52
  {
    var u := Spacing(n);
    QuotientRange(n, u, if u > 1 then TWO_TO_52 else 0, TWO_TO_53);
  }

  lemma FiveNearest(n: nat)
    ensures 5 * Nearest(n) == Spacing(n) * (5 * Significand(n))
  {
    FiveTimesProduct(Significand(n), Spacing(n));
  }

  lemma FiveTimesProduct(q: nat, u: nat)
    ensures 5 * (q * u) == u * (5 * q)
  {
    Associate(5, u, q);
  }

  lemma ScaleNearest(n: nat, m: nat)
    requires Spacing(n) > 1 ==> m >= TWO_TO_52
    ensures Nearest(Spacing(n) * m) == Spacing(n) * Nearest(m)
  {
    if Spacing(n) > 1 {
      NearestScales(n, m);
    } else {
      assert Spacing(n) * m == m && Spacing(n) * Nearest(m) == Nearest(m);
    }
  }

  lemma NearestOfFiveNearest(n: nat)
    ensures Nearest(5 * Nearest(n)) == Spacing(n) * Nearest(5 * Significand(n))
  {
    SignificandRange(n);
    ScaleNearest(n, 5 * Significand(n));
    FiveNearest(n);
  }

  /** For every base fee: the value of the float arithmetic, in whole numbers. */
  lemma RaisedInUnits(n: nat)
    ensures Raised(n) == (Spacing(n) * FiveTimes(Significand(n)) + 2) / 4
  {
    NearestOfFiveNearest(n);
    SignificandRange(n);
    NearestOfFive(Significand(n));
  }

  // ---------------------------------------------------------------- the next block

  lemma FeeCapBelowLimit(base: nat, tip: nat, overflow: int)
    requires base < LIMIT
    ensures FeeCap(base, tip, overflow) == Raised(base) + tip >= base + tip
  {
    RaisedFits(base);
  }

  /** A quarter, whatever rounding takes of it, is more than one block can ask for. */
  lemma RaiseCoversRise(base: nat)
    requires base >= 2
    ensures Raised(base) >= base + Rise(base)
  {
    NearestIsNear(base);
    NearestIsNear(5 * Nearest(base));
  }

  /** A header that a block may have. */
  predicate LegalHeader(used: nat, limit: nat) {
    MIN_GAS_LIMIT <= limit && used <= limit
  }

  predicate CapCovers(base: nat, tip: nat, used: nat, limit: nat, overflow: int)
    requires LegalHeader(used, limit)
  {
    CalcBaseFee(used, limit, base) + tip <= FeeCap(base, tip, overflow)
  }

  lemma CoversWhen(base: nat, tip: nat, used: nat, limit: nat, overflow: int)
    requires 2 <= base < LIMIT && LegalHeader(used, limit)
    ensures CapCovers(base, tip, used, limit, overflow)
  {
    FeeCapBelowLimit(base, tip, overflow);
    RaiseCoversRise(base);
    NextBaseFee(base, used, limit);
  }

  /** A full block of the least gas limit shows the failures. */
  lemma UndercutWhen(base: nat, tip: nat)
    requires base < 2 || base >= LIMIT
    ensures !CapCovers(base, tip, MIN_GAS_LIMIT, MIN_GAS_LIMIT, -1)
  {
    assert CalcBaseFee(MIN_GAS_LIMIT, MIN_GAS_LIMIT, base) > base by {
      UnderTarget(base, MIN_GAS_LIMIT / 2, MIN_GAS_LIMIT / 2);
    }
    if base < 2 {
      RaisedIsExact(base, -1);
    } else if base < TWO_TO_63 {
      RaisedFits(base);
    }
  }

  /** For every base fee and on every platform: the cap covers the tip and the base fee of the
      next block, for every legal header of this one, exactly when the base fee is at least two
      and within int64 once raised. */
  lemma FeeCapCovers(base: nat, tip: nat)
    ensures (forall used: nat, limit: nat, overflow: int |
               LegalHeader(used, limit) && -TWO_TO_63 <= overflow < TWO_TO_63 ::
               CapCovers(base, tip, used, limit, overflow))
            <==> 2 <= base < LIMIT
  {
    if 2 <= base < LIMIT {
      forall used: nat, limit: nat, overflow: int | LegalHeader(used, limit) && -TWO_TO_63 <= overflow < TWO_TO_63
        ensures CapCovers(base, tip, used, limit, overflow)
      {
        CoversWhen(base, tip, used, limit, overflow);
      }
    } else {
      UndercutWhen(base, tip);
    }
  }

  lemma FullBlock(base: nat)
    requires base >= 8
    ensures CalcBaseFee(MIN_GAS_LIMIT, MIN_GAS_LIMIT, base) == base + base / 8
  {
    var target := MIN_GAS_LIMIT / 2;
    assert base * (MIN_GAS_LIMIT - target) / target == base;
  }

  function AfterFullBlock(base: nat): nat {
    CalcBaseFee(MIN_GAS_LIMIT, MIN_GAS_LIMIT, base)
  }

  function AfterTwoEighths(base: nat): nat {
    base + base / 8 + (base + base / 8) / 8
  }

  lemma AfterTwoFullBlocks(base: nat)
    requires base >= 8
    ensures AfterFullBlock(AfterFullBlock(base)) == AfterTwoEighths(base)
  {
    FullBlock(base);
    FullBlock(base + base / 8);
  }

  /** One block is all the cap is good for: from a base fee of 143 on, two full blocks in a row
      ask for more, and after 142 they do not. */
  lemma TwoFullBlocksUndercut(base: nat, tip: nat, overflow: int)
    requires 142 <= base < LIMIT
    ensures AfterFullBlock(AfterFullBlock(base)) + tip > FeeCap(base, tip, overflow) <==> base >= 143
  {
    AfterTwoFullBlocks(base);
    FeeCapBelowLimit(base, tip, overflow);
    RaiseBelowTwoBlocks(base);
  }

  lemma RaiseBelowTwoBlocks(base: nat)
    requires base >= 142
    ensures Raised(base) < AfterTwoEighths(base) <==> base >= 143
  {
    NearestIsNear(base);
    NearestIsNear(5 * Nearest(base));
    if 5 * base < TWO_TO_53 {
      RaisedIsExact(base, -1);
      TwoEighths(base);
    }
  }

  lemma TwoEighths(base: nat)
    requires base >= 142
    ensures (5 * base + 2) / 4 < AfterTwoEighths(base) <==> base >= 143
  {
    var k, r := base / 64, base % 64;
    assert base / 8 == 8 * k + r / 8;
    assert (base + base / 8) / 8 == 9 * k + (r + r / 8) / 8;
    assert (5 * base + 2) / 4 == 80 * k + (5 * r + 2) / 4;
  }

  // ---------------------------------------------------------------- polling

  /** The time from the start of a loop to the time check of round k: every round takes what its
      call (and oversleeping) takes, and there is one sleep of a cycle before every round but the first. */
  function Elapsed(lag: nat -> nat, cycle: int, k: nat): int {
    if k == 0 then lag(0) else Elapsed(lag, cycle, k - 1) + cycle + lag(k)
  }

  function CeilDiv(n: int, d: int): nat
    requires d > 0
  {
    if n <= 0 then 0 else (n + d - 1) / d
  }

  lemma {:induction false} ElapsedGrows(lag: nat -> nat, cycle: int, k: nat)
    requires cycle > 0
    ensures Elapsed(lag, cycle, k) >= k * cycle
  {
    if k > 0 {
      ElapsedGrows(lag, cycle, k - 1);
      assert (k - 1) * cycle + cycle == k * cycle;
    }
  }

  lemma CeilDivIs(n: int, d: int)
    requires d > 0
    ensures n <= 0 ==> CeilDiv(n, d) == 0
    ensures n > 0 ==> (CeilDiv(n, d) - 1) * d < n <= CeilDiv(n, d) * d
  {
    if n > 0 {
      var q, x := CeilDiv(n, d), n + d - 1;
      assert x == q * d + x % d;
      assert (q - 1) * d == q * d - d;
    }
  }

  /** If the calls take no time, round k starts after k cycles; what the calls take comes on top. */
  lemma {:induction false} ElapsedIs(lag: nat -> nat, cycle: int, k: nat)
    ensures Elapsed(lag, cycle, k) == k * cycle + Elapsed(lag, 0, k)
    ensures (forall i: nat | i <= k :: lag(i) == 0) ==> Elapsed(lag, cycle, k) == k * cycle
    ensures Elapsed(lag, 0, k) >= lag(k)
  {
    if k > 0 {
      ElapsedIs(lag, cycle, k - 1);
      assert (k - 1) * cycle + cycle == k * cycle;
    }
  }

  /** The bound is reached: calls that take no time and find nothing use it up. */
  lemma BoundIsReached(lag: nat -> nat, cycle: int, timeout: int, rounds: nat)
    requires cycle > 0 && rounds >= 1 && (forall i: nat :: lag(i) == 0)
    requires Elapsed(lag, cycle, rounds - 1) >= timeout
    requires forall k: nat | k < rounds - 1 :: Elapsed(lag, cycle, k) < timeout
    ensures rounds == CeilDiv(timeout, cycle) + 1
  {
    ElapsedIs(lag, cycle, rounds - 1);
    CeilDivIs(timeout, cycle);
    var q := CeilDiv(timeout, cycle);
    if timeout > 0 {
      LessByFactor(q - 1, rounds - 1, cycle);
    }
    if rounds >= 2 {
      ElapsedIs(lag, cycle, rounds - 2);
      if timeout > 0 {
        LessByFactor(rounds - 2, q, cycle);
      }
      assert (rounds - 2) * cycle >= 0;
    }
  }

  /** If the time was not up in round k, then k is below the number of cycles in the timeout. */
  lemma RoundsAreBounded(lag: nat -> nat, cycle: int, timeout: int, k: nat)
    requires cycle > 0 && Elapsed(lag, cycle, k) < timeout
    ensures k + 1 <= CeilDiv(timeout, cycle)
  {
    ElapsedGrows(lag, cycle, k);
    var q := CeilDiv(timeout, cycle);
    assert q * cycle >= timeout by {
      var n := timeout + cycle - 1;
      assert n == (n / cycle) * cycle + n % cycle;
    }
    assert q <= k ==> q * cycle <= k * cycle;
  }

  /** Round k brought no receipt in time. */
  predicate NoReceiptYet(rpc: nat -> (Option<Receipt>, Option<Error>), lag: nat -> nat,
                         cycle: int, timeout: int, k: nat)
  {
    rpc(k).0.None? && Elapsed(lag, cycle, k) < timeout
  }

  /** Round k read a block, but not one above the target. */
  predicate NotDeepYet(head: nat -> Result<int, Error>, lag: nat -> nat,
                       cycle: int, timeout: int, target: int, k: nat)
  {
    head(k).Ok? && head(k).value <= target && Elapsed(lag, cycle, k) < timeout
  }

  /** rpc(k) is the k-th answer of the node: a receipt or none, and whether there was an error. */
  method WaitReceipt(timeout: int, cycle: int, rpc: nat -> (Option<Receipt>, Option<Error>), lag: nat -> nat)
    returns (receipt: Option<Receipt>, err: Option<Error>, rounds: nat)
    requires cycle > 0
    ensures 1 <= rounds <= CeilDiv(timeout, cycle) + 1
    ensures forall k: nat | k < rounds - 1 :: NoReceiptYet(rpc, lag, cycle, timeout, k)
    ensures rpc(rounds - 1).0.Some? || Elapsed(lag, cycle, rounds - 1) >= timeout
    ensures receipt == rpc(rounds - 1).0
    ensures err == if receipt.None? then Some(ReceiptNotReceived) else rpc(rounds - 1).1
    ensures err.None? ==> receipt.Some?
  {
    rounds := 0;
    var elapsed := 0;
    while true
      invariant elapsed == (if rounds == 0 then 0 else Elapsed(lag, cycle, rounds - 1) + cycle)
      invariant forall k: nat | k < rounds :: NoReceiptYet(rpc, lag, cycle, timeout, k)
      invariant rounds <= CeilDiv(timeout, cycle)
      decreases CeilDiv(timeout, cycle) + 1 - rounds
    {
      var answer := rpc(rounds);
      receipt, err := answer.0, answer.1;
      elapsed := elapsed + lag(rounds);
      rounds := rounds + 1;
      if receipt.Some? || elapsed >= timeout {
        break;
      }
      RoundsAreBounded(lag, cycle, timeout, rounds - 1);
      elapsed := elapsed + cycle;
    }
    if receipt.None? {
      err := Some(ReceiptNotReceived);
    }
  }

  /** head(k) is the k-th block number read.  The time check comes before the comparison. */
  method WaitBlock(timeout: int, cycle: int, target: int, head: nat -> Result<int, Error>, lag: nat -> nat)
    returns (err: Option<Error>, rounds: nat)
    requires cycle > 0
    ensures 1 <= rounds <= CeilDiv(timeout, cycle) + 1
    ensures forall k: nat | k < rounds - 1 :: NotDeepYet(head, lag, cycle, timeout, target, k)
    ensures err.None? <==>
      head(rounds - 1).Ok? && head(rounds - 1).value > target && Elapsed(lag, cycle, rounds - 1) < timeout
    ensures err.Some? ==> head(rounds - 1).Err? || Elapsed(lag, cycle, rounds - 1) >= timeout
    ensures err.Some? ==> err.value == if head(rounds - 1).Err? then head(rounds - 1).error else TimeOut
  {
    rounds := 0;
    var elapsed := 0;
    while true
      invariant elapsed == (if rounds == 0 then 0 else Elapsed(lag, cycle, rounds - 1) + cycle)
      invariant forall k: nat | k < rounds :: NotDeepYet(head, lag, cycle, timeout, target, k)
      invariant rounds <= CeilDiv(timeout, cycle)
      decreases CeilDiv(timeout, cycle) + 1 - rounds
    {
      var answer := head(rounds);
      elapsed := elapsed + lag(rounds);
      rounds := rounds + 1;
      if answer.Err? {
        return Some(answer.error), rounds;
      }
      if elapsed >= timeout {
        return Some(TimeOut), rounds;
      }
      if answer.value > target {
        return None, rounds;
      }
      RoundsAreBounded(lag, cycle, timeout, rounds - 1);
      elapsed := elapsed + cycle;
    }
  }
}
