/** Unsigned big-endian numbers as byte strings. */
module BigEndian {

  type byte = x: int | 0 <= x < 256

  function Value(b: seq<byte>): nat {
    if b == [] then 0 else 256 * Value(b[..|b| - 1]) + b[|b| - 1]
  }

  /** The shortest representation, as big.Int.Bytes gives it: no leading zero, nothing for 0. */
  function Bytes(n: nat): seq<byte> {
    if n == 0 then [] else Bytes(n / 256) + [n % 256]
  }

  function Pow256(n: nat): nat {
    if n == 0 then 1 else 256 * Pow256(n - 1)
  }

  /** bytes.TrimLeft with a zero byte. */
  function Trim(b: seq<byte>): seq<byte> {
    if b != [] && b[0] == 0 then Trim(b[1..]) else b
  }

  /** Zero bytes in front until there are 32. */
  function Pad(b: seq<byte>): seq<byte>
    decreases 32 - |b|
  {
    if |b| < 32 then Pad([0] + b) else b
  }

  function Adjust(b: seq<byte>): seq<byte> {
    Pad(Trim(b))
  }

  lemma {:induction false} ValueBytes(n: nat)
    ensures Value(Bytes(n)) == n
  {
    if n != 0 {
      ValueBytes(n / 256);
      assert Bytes(n)[..|Bytes(n)| - 1] == Bytes(n / 256);
    }
  }

  lemma {:induction false} LeadingZero(b: seq<byte>)
    ensures Value([0] + b) == Value(b)
  {
    if b == [] {
      assert [0][..0] == [];
    } else {
      LeadingZero(b[..|b| - 1]);
      assert ([0] + b)[..|b|] == [0] + b[..|b| - 1];
    }
  }

  lemma {:induction false} TrimKeepsValue(b: seq<byte>)
    ensures Value(Trim(b)) == Value(b)
    ensures Trim(b) != [] ==> Trim(b)[0] != 0
  {
    if b != [] && b[0] == 0 {
      TrimKeepsValue(b[1..]);
      LeadingZero(b[1..]);
      assert b == [0] + b[1..];
    }
  }

  lemma {:induction false} PadKeepsValue(b: seq<byte>)
    ensures Value(Pad(b)) == Value(b)
    ensures |Pad(b)| == if |b| < 32 then 32 else |b|
    decreases 32 - |b|
  {
    if |b| < 32 {
      PadKeepsValue([0] + b);
      LeadingZero(b);
    }
  }

  lemma {:induction false} ValueBelow(b: seq<byte>)
    ensures Value(b) < Pow256(|b|)
  {
    if b != [] {
      ValueBelow(b[..|b| - 1]);
    }
  }

  lemma {:induction false} ValueAbove(b: seq<byte>)
    requires b != [] && b[0] != 0
    ensures Value(b) >= Pow256(|b| - 1)
  {
    if |b| > 1 {
      ValueAbove(b[..|b| - 1]);
    } else {
      assert b[..0] == [];
    }
  }

  lemma {:induction false} PowGrows(m: nat, n: nat)
    requires m <= n
    ensures 1 <= Pow256(m) <= Pow256(n)
    decreases n
  {
    if m < n {
      PowGrows(m, n - 1);
    } else if m > 0 {
      PowGrows(m - 1, m - 1);
    }
  }

  /** Trimming and padding keeps the number, and gives 32 bytes exactly when it fits. */
  lemma AdjustKeepsValue(b: seq<byte>)
    ensures Value(Adjust(b)) == Value(b)
    ensures |Adjust(b)| == 32 <==> Value(b) < Pow256(32)
    ensures |Adjust(b)| >= 32
  {
    var t := Trim(b);
    TrimKeepsValue(b);
    PadKeepsValue(t);
    ValueBelow(t);
    if |t| <= 32 {
      PowGrows(|t|, 32);
    } else {
      ValueAbove(t);
      PowGrows(32, |t| - 1);
    }
  }

  lemma {:induction false} ValueIsInjective(a: seq<byte>, b: seq<byte>)
    requires |a| == |b| && Value(a) == Value(b)
    ensures a == b
  {
    if a != [] {
      var n := |a| - 1;
      assert Value(a) % 256 == a[n] && Value(b) % 256 == b[n];
      ValueIsInjective(a[..n], b[..n]);
      assert a == a[..n] + [a[n]] && b == b[..n] + [b[n]];
    }
  }

  lemma AdjustOfAdjusted(b: seq<byte>)
    requires |b| == 32
    ensures Adjust(b) == b
  {
    AdjustKeepsValue(b);
    ValueBelow(b);
    ValueIsInjective(Adjust(b), b);
  }
}
