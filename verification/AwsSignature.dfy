/** internal/kms/aws_providers_helpers.go: from the DER pair (r, s) to an Ethereum signature. */
module AwsSignature {
  import opened Wrappers
  import opened BigEndian
  import opened Slices

  /** The order of secp256k1, an odd number. */
  const N := 0xFFFFFFFFFFFFFFFFFFFFFFFFFFFFFFFEBAAEDCE6AF48A03BBFD25E8CD0364141
  const HALF := N / 2

  /** Key recovery and verification, of which nothing is assumed except that recovery insists on
      65 bytes. */
  datatype Crypto = Crypto(
    recover: (seq<byte>, seq<byte>) -> Option<seq<byte>>,
    verify: (seq<byte>, seq<byte>, seq<byte>) -> bool)

  ghost predicate RecoverNeeds65(c: Crypto) {
    forall data, sig :: c.recover(data, sig).Some? ==> |sig| == 65
  }

  function Distance(a: int, b: int): nat {
    if a <= b then b - a else a - b
  }

  /** s, or the magnitude of N - s when s is in the upper half. */
  function LowS(s: nat): nat {
    if s > HALF then Distance(N, s) else s
  }

  function Normalise(s: seq<byte>): seq<byte> {
    if Value(s) > HALF then Bytes(Distance(N, Value(s))) else s
  }

  /** r and s in 32 bytes each, then the first of 0 and 1 that recovers the expected key. */
  function EthereumSignature(c: Crypto, pub: seq<byte>, data: seq<byte>, r: seq<byte>, s: seq<byte>): Option<seq<byte>>
  {
    var rs := Adjust(r) + Adjust(s);
    match c.recover(data, rs + [0])
    case None => None
    case Some(key) =>
      if key == pub then Some(rs + [0])
      else if c.recover(data, rs + [1]) == Some(pub) then Some(rs + [1])
      else None
  }

  function Decode(c: Crypto, pub: seq<byte>, data: seq<byte>, r: seq<byte>, s: seq<byte>): Option<seq<byte>>
  {
    var sig := EthereumSignature(c, pub, data, r, Normalise(s));
    if sig.Some? && |sig.value| >= 64 && c.verify(pub, data, sig.value[..64]) then sig else None
  }

  // ---------------------------------------------------------------- the code, on shared arrays

  method AdjustSignatureLength(buffer: Slice) returns (r: Slice)
    requires buffer.Valid()
    ensures r.Valid() && r.Content() == Adjust(buffer.Content())
    ensures r.arr == buffer.arr || fresh(r.arr)
  {
    r := TrimLeft(buffer);
    while r.len < 32
      invariant r.Valid() && (r.arr == buffer.arr || fresh(r.arr))
      invariant Pad(r.Content()) == Adjust(buffer.Content())
      invariant buffer.arr[..] == old(buffer.arr[..])
      decreases 32 - r.len
    {
      var zeroBuf := Make([0]);
      r := Append(zeroBuf, r.Content());
    }
  }

  method AppendAdjusted(r: Slice, s: Slice) returns (rs: Slice)
    requires r.Valid() && s.Valid()
    modifies r.arr
    ensures rs.Valid() && rs.Content() == Adjust(old(r.Content())) + Adjust(old(s.Content()))
    ensures rs.arr == r.arr || fresh(rs.arr)
  {
    var r32 := AdjustSignatureLength(r);
    var s32 := AdjustSignatureLength(s);
    rs := Append(r32, s32.Content());
  }

  /** The appends may write over the buffer that r and s are windows of.  Whatever the layout, the
      result is the one computed from the bytes r and s had on entry. */
  method GetEthereumSignature(c: Crypto, pub: seq<byte>, data: seq<byte>, r: Slice, s: Slice)
    returns (sig: Option<Slice>)
    requires r.Valid() && s.Valid()
    modifies r.arr
    ensures var expected := EthereumSignature(c, pub, data, old(r.Content()), old(s.Content()));
            && (sig.Some? <==> expected.Some?)
            && (sig.Some? ==> sig.value.Valid() && sig.value.Content() == expected.value)
    ensures sig.Some? ==> sig.value.arr == r.arr || fresh(sig.value.arr)
  {
    ghost var rs := Adjust(old(r.Content())) + Adjust(old(s.Content()));
    var rsSignature := AppendAdjusted(r, s);
    var signature := Append(rsSignature, [0]);
    assert rsSignature.Content() == rs && signature.Content() == rs + [0];
    var recovered := c.recover(data, signature.Content());
    if recovered.None? {
      return None;
    }
    if recovered.value != pub {
      signature := Append(rsSignature, [1]);
      assert signature.Content() == rs + [1];
      recovered := c.recover(data, signature.Content());
      if recovered.None? {
        return None;
      }
      if recovered.value != pub {
        return None;
      }
    }
    return Some(signature);
  }

  /** append(r, s...) writes s over itself, since r keeps the capacity of the signature. */
  method VerifySignature(c: Crypto, pub: seq<byte>, message: seq<byte>, signature: Slice) returns (ok: bool)
    requires signature.Valid() && signature.len >= 64
    modifies signature.arr
    ensures ok == c.verify(pub, message, old(signature.Content())[..64])
    ensures signature.arr[..] == old(signature.arr[..])
    ensures signature.Content() == old(signature.Content())
  {
    var r := signature.Sub(0, 32);
    var s := signature.Sub(32, 64);
    ghost var was := signature.Content();
    SubContent(signature, 0, 32);
    SubContent(signature, 32, 64);
    assert was[..32] + was[32..64] == was[..64];
    var rs := Append(r, s.Content());
    assert rs.Content() == was[..64];
    assert signature.arr[..] == old(signature.arr[..]);
    ok := c.verify(pub, message, rs.Content());
  }

  /** r and s are any two windows, of one array or two, overlapping or not, with any capacity. */
  method DecodeAWSETHSig(c: Crypto, pub: seq<byte>, data: seq<byte>, r: Slice, s: Slice) returns (sig: Option<Slice>)
    requires RecoverNeeds65(c)
    requires r.Valid() && s.Valid()
    modifies r.arr
    ensures var expected := Decode(c, pub, data, old(r.Content()), old(s.Content()));
            && (sig.Some? <==> expected.Some?)
            && (sig.Some? ==> sig.value.Valid() && sig.value.Content() == expected.value)
  {
    var sBigInt := Value(s.Content());
    var low := s;
    if sBigInt > HALF {
      low := Make(Bytes(Distance(N, sBigInt)));
    }
    var ethSignature := GetEthereumSignature(c, pub, data, r, low);
    if ethSignature.None? {
      return None;
    }
    EthereumSignatureHas65(c, pub, data, old(r.Content()), Normalise(old(s.Content())));
    var ok := VerifySignature(c, pub, data, ethSignature.value);
    if !ok {
      return None;
    }
    return ethSignature;
  }

  // ---------------------------------------------------------------- canonical form

  lemma PowersOf256()
    ensures Pow256(32) == 0x1_0000000000000000_0000000000000000_0000000000000000_0000000000000000
    ensures N < Pow256(32)
  {
    assert Pow256(4) == 0x1_0000_0000;
    assert Pow256(8) == 0x1_0000000000000000;
    assert Pow256(12) == 0x1_00000000_0000000000000000;
    assert Pow256(16) == 0x1_0000000000000000_0000000000000000;
    assert Pow256(20) == 0x1_00000000_0000000000000000_0000000000000000;
    assert Pow256(24) == 0x1_0000000000000000_0000000000000000_0000000000000000;
    assert Pow256(28) == 0x1_00000000_0000000000000000_0000000000000000_0000000000000000;
  }

  lemma NormaliseIsLowS(s: seq<byte>)
    ensures Value(Normalise(s)) == LowS(Value(s))
    ensures LowS(Value(s)) <= HALF <==> Value(s) <= N + HALF
    ensures 0 < Value(s) < N ==>
      LowS(Value(s)) == (if Value(s) <= N - Value(s) then Value(s) else N - Value(s)) && LowS(Value(s)) <= HALF
  {
    if Value(s) > HALF {
      ValueBytes(Distance(N, Value(s)));
    }
  }

  lemma EthereumSignatureHas65(c: Crypto, pub: seq<byte>, data: seq<byte>, r: seq<byte>, s: seq<byte>)
    requires RecoverNeeds65(c)
    requires EthereumSignature(c, pub, data, r, s).Some?
    ensures var sig := EthereumSignature(c, pub, data, r, s).value;
            && |sig| == 65
            && Value(sig[..32]) == Value(r) && Value(sig[32..64]) == Value(s)
            && sig[64] in {0, 1} && c.recover(data, sig) == Some(pub)
            && (sig[64] == 0 <==> c.recover(data, sig[..64] + [0]) == Some(pub))
  {
    var sig := EthereumSignature(c, pub, data, r, s).value;
    AdjustKeepsValue(r);
    AdjustKeepsValue(s);
    assert sig[..32] == Adjust(r) && sig[32..64] == Adjust(s);
    assert sig[..64] == Adjust(r) + Adjust(s);
  }

  /** A decoded signature is 65 bytes: r, the low s, and a recovery bit for the expected key. */
  lemma DecodedIsCanonical(c: Crypto, pub: seq<byte>, data: seq<byte>, r: seq<byte>, s: seq<byte>)
    requires RecoverNeeds65(c)
    requires Decode(c, pub, data, r, s).Some?
    ensures var sig := Decode(c, pub, data, r, s).value;
            && |sig| == 65
            && Value(sig[..32]) == Value(r)
            && Value(sig[32..64]) == LowS(Value(s))
            && sig[64] in {0, 1}
            && (sig[64] == 0 <==> c.recover(data, sig[..64] + [0]) == Some(pub))
            && c.recover(data, sig) == Some(pub)
            && c.verify(pub, data, sig[..64])
    ensures var low := Value(Decode(c, pub, data, r, s).value[32..64]);
            0 < Value(s) < N ==> low <= HALF && (low == Value(s) || low == N - Value(s))
  {
    NormaliseIsLowS(s);
    EthereumSignatureHas65(c, pub, data, r, Normalise(s));
  }

  /** Which inputs decode: r and the low s fit 32 bytes, one of the two recovery bits gives the
      key, and the pair verifies. */
  lemma DecodesWhen(c: Crypto, pub: seq<byte>, data: seq<byte>, r: seq<byte>, s: seq<byte>)
    requires RecoverNeeds65(c)
    ensures Decode(c, pub, data, r, s).Some? <==>
      && Value(r) < Pow256(32) && LowS(Value(s)) < Pow256(32)
      && var rs := Adjust(r) + Adjust(Normalise(s));
         && c.verify(pub, data, rs)
         && c.recover(data, rs + [0]).Some?
         && (c.recover(data, rs + [0]) == Some(pub) || c.recover(data, rs + [1]) == Some(pub))
  {
    var low := Normalise(s);
    var rs := Adjust(r) + Adjust(low);
    NormaliseIsLowS(s);
    AdjustKeepsValue(r);
    AdjustKeepsValue(low);
    assert |rs| == |Adjust(r)| + |Adjust(low)|;
    if |rs| == 64 {
      assert (rs + [0])[..64] == rs && (rs + [1])[..64] == rs;
    }
  }

  /** Decoding what was decoded gives it back: both halves are already in their final form. */
  lemma DecodingIsIdempotent(c: Crypto, pub: seq<byte>, data: seq<byte>, r: seq<byte>, s: seq<byte>)
    requires RecoverNeeds65(c)
    requires Decode(c, pub, data, r, s).Some? && 0 < Value(s) < N
    ensures var sig := Decode(c, pub, data, r, s).value;
            |sig| == 65 && Decode(c, pub, data, sig[..32], sig[32..64]) == Some(sig)
  {
    var sig := Decode(c, pub, data, r, s).value;
    DecodedIsCanonical(c, pub, data, r, s);
    NormaliseIsLowS(s);
    DecodedHalves(c, pub, data, r, s);
    AdjustOfAdjusted(sig[..32]);
    AdjustOfAdjusted(sig[32..64]);
    assert Normalise(sig[32..64]) == sig[32..64];
    DecodeOfAdjusted(c, pub, data, r, sig[..32], s, sig[32..64]);
  }

  lemma DecodedHalves(c: Crypto, pub: seq<byte>, data: seq<byte>, r: seq<byte>, s: seq<byte>)
    requires RecoverNeeds65(c)
    requires Decode(c, pub, data, r, s).Some?
    ensures var sig := Decode(c, pub, data, r, s).value;
            |sig| == 65 && sig[..32] == Adjust(r) && sig[32..64] == Adjust(Normalise(s))
  {
    EthereumSignatureHas65(c, pub, data, r, Normalise(s));
    AdjustKeepsValue(r);
    AdjustKeepsValue(Normalise(s));
  }

  lemma LowSIsSymmetric(n: nat)
    requires 0 < n < N
    ensures LowS(N - n) == LowS(n) < N
  {
  }

  lemma AdjustIsInjective(a: seq<byte>, b: seq<byte>)
    requires Value(a) == Value(b) < Pow256(32)
    ensures Adjust(a) == Adjust(b)
  {
    AdjustKeepsValue(a);
    AdjustKeepsValue(b);
    ValueIsInjective(Adjust(a), Adjust(b));
  }

  /** Decoding looks at r and s in 32 bytes only. */
  lemma DecodeOfAdjusted(c: Crypto, pub: seq<byte>, data: seq<byte>,
                         r: seq<byte>, r': seq<byte>, s: seq<byte>, s': seq<byte>)
    requires Adjust(r') == Adjust(r) && Adjust(Normalise(s')) == Adjust(Normalise(s))
    ensures Decode(c, pub, data, r', s') == Decode(c, pub, data, r, s)
  {
  }

  /** The two forms (r, s) and (r, N - s) of one signature, however many zero bytes they start
      with, decode to the same bytes or both fail. */
  lemma MalleableFormsAgree(c: Crypto, pub: seq<byte>, data: seq<byte>,
                            r: seq<byte>, r': seq<byte>, s: seq<byte>, s': seq<byte>)
    requires 0 < Value(s) < N && Value(r') == Value(r) < Pow256(32)
    requires Value(s') == Value(s) || Value(s') == N - Value(s)
    ensures Decode(c, pub, data, r', s') == Decode(c, pub, data, r, s)
  {
    NormaliseIsLowS(s);
    NormaliseIsLowS(s');
    LowSIsSymmetric(Value(s));
    PowersOf256();
    AdjustIsInjective(r, r');
    AdjustIsInjective(Normalise(s), Normalise(s'));
    DecodeOfAdjusted(c, pub, data, r, r', s, s');
  }
}
