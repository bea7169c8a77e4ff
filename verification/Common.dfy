// Numbers and sequence facts that several modules share.
module Common {
  const U64_LIMIT: nat := 0x1_0000_0000_0000_0000
  /** Millionths per unit of an environment decimal. */
  const SCALE: nat := 1_000_000

  type U16 = n: nat | n < 0x1_0000
  type U32 = n: nat | n < 0x1_0000_0000
  type U64 = n: nat | n < U64_LIMIT

  function Pow2(k: nat): (p: nat)
    ensures p >= 1
  {
    if k == 0 then 1 else 2 * Pow2(k - 1)
  }

  lemma Regroup<T>(a: seq<T>, b: seq<T>, c: seq<T>)
    ensures (a + b) + c == a + (b + c)
  {
  }
}
