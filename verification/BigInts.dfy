/** math/big: integers that their methods update in place. */
module BigInts {

  class BigInt {
    var v: int

    constructor (n: int)
      ensures v == n
    {
      v := n;
    }

    method Set(x: BigInt)
      modifies this
      ensures v == old(x.v)
    {
      v := x.v;
    }

    method Add(x: BigInt, y: BigInt)
      modifies this
      ensures v == old(x.v) + old(y.v)
    {
      v := x.v + y.v;
    }

    method Sub(x: BigInt, y: BigInt)
      modifies this
      ensures v == old(x.v) - old(y.v)
    {
      v := x.v - y.v;
    }

    method Mul(x: BigInt, y: BigInt)
      modifies this
      ensures v == old(x.v) * old(y.v)
    {
      v := x.v * y.v;
    }

    /** Euclidean division, as Dafny's. */
    method Div(x: BigInt, y: BigInt)
      requires y.v != 0
      modifies this
      ensures v == old(x.v) / old(y.v)
    {
      v := x.v / y.v;
    }
  }

  const TWO_TO_63 := 0x8000_0000_0000_0000
  const TWO_TO_64 := 0x1_0000_0000_0000_0000

  /** Int64: the low 64 bits, read as a signed number. */
  function ToInt64(n: int): (r: int)
    ensures -TWO_TO_63 <= r < TWO_TO_63
    ensures -TWO_TO_63 <= n < TWO_TO_63 ==> r == n
  {
    var low := n % TWO_TO_64;
    if low < TWO_TO_63 then low else low - TWO_TO_64
  }
}
