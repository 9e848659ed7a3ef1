/** Machine words and the small arithmetic shared by every component. Numbers are
    mathematical; wherever the C code relies on a 32-bit register the wrap-around is
    written out with `Add32` and `Sub32`. */
module Words {
  newtype byte = x: int | 0 <= x < 0x100

  type u8 = x: int | 0 <= x < 0x100
  type u16 = x: int | 0 <= x < 0x1_0000
  type u32 = x: int | 0 <= x < 0x1_0000_0000

  function Add32(a: int, b: int): u32 {
    (a + b) % 0x1_0000_0000
  }

  function Sub32(a: int, b: int): u32 {
    (a - b) % 0x1_0000_0000
  }

  lemma {:induction false} Wraps(x: int, k: int)
    ensures (x + 0x1_0000_0000 * k) % 0x1_0000_0000 == x % 0x1_0000_0000
  {
  }

  lemma {:induction false} Add32Twice(a: int, b: int, c: int)
    ensures Add32(Add32(a, b), c) == Add32(a, b + c)
  {
    Add32Reduces(a + b, c);
  }

  /** Reducing the operands first does not change a 32-bit sum. */
  lemma {:induction false} Add32Reduces(a: int, b: int)
    ensures Add32(a % 0x1_0000_0000, b) == Add32(a, b)
    ensures Add32(a, b % 0x1_0000_0000) == Add32(a, b)
  {
    Wraps(a + b, -(a / 0x1_0000_0000));
    Wraps(a + b, -(b / 0x1_0000_0000));
  }

  lemma {:induction false} Add32Small(a: nat, b: nat)
    requires a + b < 0x1_0000_0000
    ensures Add32(a, b) == a + b
  {
  }

  lemma {:induction false} ConcatAssociates<T>(a: seq<T>, b: seq<T>, c: seq<T>)
    ensures a + (b + c) == a + b + c
  {
  }

  /** An 8-bit counter, one up. */
  function Inc8(b: u8): u8 {
    if b == 0xFF then 0 else b + 1
  }

  function Min(x: int, y: int): int {
    if x > y then y else x
  }

  function Max(x: int, y: int): int {
    if x > y then x else y
  }

  function Pow2(k: nat): (p: nat)
    ensures p > 0
  {
    if k == 0 then 1 else 2 * Pow2(k - 1)
  }

  /** A 32-bit number in network byte order. */
  function Be32(x: u32): (b: seq<u8>)
    ensures |b| == 4
  {
    [x / 0x100_0000, x / 0x1_0000 % 256, x / 256 % 256, x % 256]
  }

  /** No element occurs twice. */
  ghost predicate Distinct<T>(s: seq<T>) {
    forall i, j :: 0 <= i < j < |s| ==> s[i] != s[j]
  }

  datatype Option<+T> = None | Some(value: T)
}
