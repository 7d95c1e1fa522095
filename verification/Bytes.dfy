/** Bytes, exclusive or, big-endian integers and range copies. */
module Bytes {

  newtype byte = x: int | 0 <= x < 256

  type Bytes16 = s: seq<byte> | |s| == 16 witness seq(16, _ => 0)
  type Bytes24 = s: seq<byte> | |s| == 24 witness seq(24, _ => 0)
  type Bytes32 = s: seq<byte> | |s| == 32 witness seq(32, _ => 0)
  type Bytes64 = s: seq<byte> | |s| == 64 witness seq(64, _ => 0)
  type Bytes72 = s: seq<byte> | |s| == 72 witness seq(72, _ => 0)

  const U16_LIMIT := 0x1_0000
  const U32_LIMIT := 0x1_0000_0000

  /** The bytes of an ASCII text. */
  function Ascii(text: string): (s: seq<byte>)
    ensures |s| == |text|
  {
    seq(|text|, i requires 0 <= i < |text| => ((text[i] as int) % 256) as byte)
  }

  function Zeros(n: nat): seq<byte> {
    seq(n, _ => 0)
  }

  /** Bitwise exclusive or, least significant bit last. */
  function XorNat(a: nat, b: nat): (r: nat)
    decreases a + b
  {
    if a == 0 && b == 0 then 0 else 2 * XorNat(a / 2, b / 2) + (a + b) % 2
  }

  function Pow2(n: nat): (r: nat)
    ensures r > 0
  {
    if n == 0 then 1 else 2 * Pow2(n - 1)
  }

  lemma {:induction false} XorNatBound(a: nat, b: nat, n: nat)
    requires a < Pow2(n) && b < Pow2(n)
    ensures XorNat(a, b) < Pow2(n)
    decreases n
  {
    if n > 0 {
      XorNatBound(a / 2, b / 2, n - 1);
    }
  }

  /** Parity and half of an exclusive or. */
  lemma {:induction false} XorNatStep(a: nat, b: nat)
    ensures XorNat(a, b) / 2 == XorNat(a / 2, b / 2)
    ensures (XorNat(a, b) + b) % 2 == a % 2
  {
    assert XorNat(a, b) == 2 * XorNat(a / 2, b / 2) + (a + b) % 2;
    ParityOfSum(XorNat(a / 2, b / 2), a, b);
  }

  lemma {:induction false} ParityOfSum(x: nat, a: nat, b: nat)
    ensures (2 * x + (a + b) % 2) / 2 == x
    ensures (2 * x + (a + b) % 2 + b) % 2 == a % 2
  {
  }

  lemma {:induction false} XorNatInvolution(a: nat, b: nat)
    ensures XorNat(XorNat(a, b), b) == a
    decreases a + b
  {
    if a != 0 || b != 0 {
      XorNatInvolution(a / 2, b / 2);
      XorNatStep(a, b);
    }
  }

  function Xor(a: byte, b: byte): byte {
    assert Pow2(8) == 256 by { assert Pow2(4) == 16; }
    XorNatBound(a as nat, b as nat, 8);
    XorNat(a as nat, b as nat) as byte
  }

  lemma XorInvolution(a: byte, b: byte)
    ensures Xor(Xor(a, b), b) == a
  {
    XorNatInvolution(a as nat, b as nat);
  }

  /** Bit `k` of a number, least significant first. */
  function Bit(x: nat, k: nat): nat {
    if k == 0 then x % 2 else Bit(x / 2, k - 1)
  }

  /** Exclusive or is taken bit by bit. */
  lemma {:induction false} XorNatBits(a: nat, b: nat, k: nat)
    ensures Bit(XorNat(a, b), k) == (Bit(a, k) + Bit(b, k)) % 2
    decreases k
  {
    XorNatStep(a, b);
    if k == 0 {
      ParityBit(XorNat(a, b), a, b);
    } else {
      XorNatBits(a / 2, b / 2, k - 1);
    }
  }

  lemma {:induction false} ParityBit(x: nat, a: nat, b: nat)
    requires (x + b) % 2 == a % 2
    ensures x % 2 == (a % 2 + b % 2) % 2
  {
  }

  lemma XorBits(a: byte, b: byte, k: nat)
    ensures Bit(Xor(a, b) as nat, k) == (Bit(a as nat, k) + Bit(b as nat, k)) % 2
  {
    XorNatBits(a as nat, b as nat, k);
  }

  /** `to_be_bytes` of a `u16`. */
  function Be16(n: nat): (s: seq<byte>)
    requires n < U16_LIMIT
    ensures |s| == 2
  {
    [(n / 256) as byte, (n % 256) as byte]
  }

  lemma Be16Injective(m: nat, n: nat)
    requires m < U16_LIMIT && n < U16_LIMIT
    requires Be16(m) == Be16(n)
    ensures m == n
  {
    assert Be16(m)[0] == Be16(n)[0] && Be16(m)[1] == Be16(n)[1];
  }

  /** `to_be_bytes` of a `u32`. */
  function Be32(n: nat): (s: seq<byte>)
    requires n < U32_LIMIT
    ensures |s| == 4
  {
    Be16(n / U16_LIMIT) + Be16(n % U16_LIMIT)
  }

  lemma Be32Injective(m: nat, n: nat)
    requires m < U32_LIMIT && n < U32_LIMIT
    requires Be32(m) == Be32(n)
    ensures m == n
  {
    assert Be32(m)[..2] == Be16(m / U16_LIMIT) && Be32(n)[..2] == Be16(n / U16_LIMIT);
    assert Be32(m)[2..] == Be16(m % U16_LIMIT) && Be32(n)[2..] == Be16(n % U16_LIMIT);
    Be16Injective(m / U16_LIMIT, n / U16_LIMIT);
    Be16Injective(m % U16_LIMIT, n % U16_LIMIT);
  }

  /** Most significant byte first. */
  lemma BigEndian(n: nat)
    ensures n < U16_LIMIT ==> 256 * Be16(n)[0] as int + Be16(n)[1] as int == n
    ensures n < U32_LIMIT ==>
              var s := Be32(n);
              0x100_0000 * s[0] as int + 0x1_0000 * s[1] as int + 0x100 * s[2] as int + s[3] as int == n
  {
  }

  /** Two concatenations with equally long heads agree exactly when head and tail agree. */
  lemma ConcatInjective<T>(a: seq<T>, b: seq<T>, c: seq<T>, d: seq<T>)
    requires |a| == |c|
    requires a + b == c + d
    ensures a == c && b == d
  {
    assert (a + b)[..|a|] == a && (c + d)[..|a|] == c;
    assert (a + b)[|a|..] == b && (c + d)[|a|..] == d;
  }

  /** `dst[at..at + src.len()].copy_from_slice(src)`. */
  method CopyInto(dst: array<byte>, at: nat, src: seq<byte>)
    requires at + |src| <= dst.Length
    modifies dst
    ensures dst[..] == old(dst[..at]) + src + old(dst[at + |src|..])
  {
    for i := 0 to |src|
      invariant dst[..at] == old(dst[..at])
      invariant dst[at..at + i] == src[..i]
      invariant dst[at + i..] == old(dst[at + i..])
    {
      dst[at + i] := src[i];
      assert dst[at..at + i + 1] == dst[at..at + i] + [src[i]];
    }
    assert dst[..] == dst[..at] + dst[at..at + |src|] + dst[at + |src|..];
  }
}
