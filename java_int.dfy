/**
 * `idCounter` as the source declares it: a Java `int`, so `idCounter++`
 * wraps from 2147483647 to -2147483648.
 */
module JavaInt {

  const MinInt: int := -0x8000_0000
  const MaxInt: int := 0x7fff_ffff
  const Modulus: int := 0x1_0000_0000

  newtype int32 = x: int | -0x8000_0000 <= x <= 0x7fff_ffff

  /** The 32-bit two's-complement value congruent to `x`. */
  function Wrap(x: int): (r: int32)
    ensures (r as int - x) % Modulus == 0
  {
    ((x - MinInt) % Modulus + MinInt) as int32
  }

  /** The counter after `idCounter++` on a Java `int`. */
  function Increment(c: int32): (r: int32)
    ensures r as int == c as int + 1 || (c as int == MaxInt && r as int == MinInt)
  {
    if c as int == MaxInt then MinInt as int32 else c + 1
  }

  /** The counter after `n` additions starting from `c`. */
  function CounterAfter(c: int32, n: nat): (r: int32)
    ensures c as int + n <= MaxInt ==> r as int == c as int + n
  {
    if n == 0 then c else Increment(CounterAfter(c, n - 1))
  }

  lemma IncrementWrap(x: int)
    ensures Increment(Wrap(x)) == Wrap(x + 1)
  {
  }

  lemma {:induction false} CounterAfterIsWrap(c: int32, n: nat)
    ensures CounterAfter(c, n) == Wrap(c as int + n)
  {
    if n == 0 {
      assert Wrap(c as int) == c;
    } else {
      CounterAfterIsWrap(c, n - 1);
      IncrementWrap(c as int + n - 1);
    }
  }

  /**
   * Starting from the initial counter 1, the id handed to the first person
   * is handed out again by the 2^32+1-th addition: if that first person was
   * never deleted, two stored persons share an id.
   */
  lemma IdReissuedAfterWrap()
    ensures CounterAfter(1, Modulus as nat) == CounterAfter(1, 0)
  {
    CounterAfterIsWrap(1, Modulus as nat);
  }
}
