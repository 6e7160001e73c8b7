// Machine integers, the exceptions of the VM core, little-endian byte
// encoding and the fixed-point number type shared by all other modules.

module Base {

  type u8 = x: int | 0 <= x < 0x100
  type u16 = x: int | 0 <= x < 0x1_0000
  type u32 = x: int | 0 <= x < 0x1_0000_0000

  /** What the C++ core can raise: std::range_error from Memory,
    * std::overflow_error / std::underflow_error from Stack, and the
    * behaviour the language leaves undefined (integer division by zero,
    * an over-wide shift, a null Memory pointer). */
  datatype Fault = RangeError | StackOverflow | StackUnderflow | Undefined

  datatype Result<T> = Ok(value: T) | Err(fault: Fault)
  {
    predicate IsFailure() { Err? }

    function PropagateFailure<U>(): Result<U>
      requires Err?
    {
      Err(fault)
    }

    function Extract(): T
      requires Ok?
    {
      value
    }
  }

  datatype Option<T> = None | Some(value: T)

  /** Replaces the value of a successful result by `u`, keeping a failure. */
  function Then<T, U>(r: Result<T>, u: U): Result<U>
  {
    match r
    case Ok(_) => Ok(u)
    case Err(f) => Err(f)
  }

  /** The three access widths of Memory: uint8_t, uint16_t and the 32-bit
    * types uint32_t and rational_t (sizeof(fixed8_t) == 4). */
  datatype Width = W8 | W16 | W32

  function Size(w: Width): nat
  {
    match w
    case W8 => 1
    case W16 => 2
    case W32 => 4
  }

  function Pow256(n: nat): (r: nat)
    ensures r > 0
  {
    if n == 0 then 1 else 0x100 * Pow256(n - 1)
  }

  /** Number of values of a width: 2^(8 * Size(w)). */
  function Limit(w: Width): (r: nat)
    ensures r == Pow256(Size(w))
  {
    assert Pow256(2) == 0x1_0000 && Pow256(4) == 0x1_0000_0000 by {
      assert Pow256(1) == 0x100;
      assert Pow256(3) == 0x100_0000;
    }
    match w
    case W8 => 0x100
    case W16 => 0x1_0000
    case W32 => 0x1_0000_0000
  }

  /** The value held by `bs` read as a little-endian unsigned number. */
  function DecodeLE(bs: seq<u8>): nat
  {
    if bs == [] then 0 else bs[0] + 0x100 * DecodeLE(bs[1..])
  }

  /** The `n` low-order bytes of `v`, least significant first. */
  function EncodeLE(v: nat, n: nat): (r: seq<u8>)
    ensures |r| == n
  {
    if n == 0 then [] else [v % 0x100] + EncodeLE(v / 0x100, n - 1)
  }

  lemma {:induction false} DecodeBound(bs: seq<u8>)
    ensures DecodeLE(bs) < Pow256(|bs|)
  {
    if bs != [] {
      DecodeBound(bs[1..]);
    }
  }

  /** Writing a value with memcpy and reading it back gives the value. */
  lemma {:induction false} DecodeEncode(v: nat, n: nat)
    requires v < Pow256(n)
    ensures DecodeLE(EncodeLE(v, n)) == v
  {
    if n > 0 {
      var e := EncodeLE(v, n);
      assert e[1..] == EncodeLE(v / 0x100, n - 1);
      assert v / 0x100 < Pow256(n - 1);
      DecodeEncode(v / 0x100, n - 1);
    }
  }

  /** Reading bytes as a value and writing the value back gives the bytes. */
  lemma {:induction false} EncodeDecode(bs: seq<u8>)
    ensures EncodeLE(DecodeLE(bs), |bs|) == bs
  {
    if bs != [] {
      var v := DecodeLE(bs);
      assert v % 0x100 == bs[0] && v / 0x100 == DecodeLE(bs[1..]);
      EncodeDecode(bs[1..]);
    }
  }

  // ---- bitwise helpers on the unsigned types -------------------------------

  function And8(a: u8, b: u8): u8
  {
    ((a as bv8) & (b as bv8)) as int
  }

  function Or8(a: u8, b: u8): u8
  {
    ((a as bv8) | (b as bv8)) as int
  }

  /** `a | b` on uint32_t. */
  function Or32(a: u32, b: u32): u32
  {
    ((a as bv32) | (b as bv32)) as int
  }

  /** `x >> 4`: the map or PID id carried in the high nibble of a type byte. */
  function HighNibble(x: u8): u8
  {
    x / 0x10
  }

  /** uint16_t addition, wrapping modulo 2^16. */
  function Add16(a: u16, k: int): u16
  {
    (a + k) % 0x1_0000
  }

  /** uint32_t subtraction, wrapping modulo 2^32. */
  function Sub32(a: u32, b: u32): u32
  {
    (a - b) % 0x1_0000_0000
  }

  /** The two's-complement reading of a 32-bit pattern. */
  function Signed32(x: u32): int
  {
    if x < 0x8000_0000 then x else x - 0x1_0000_0000
  }

  // ---- rational_t --------------------------------------------------------------

  /** rational_t is fixed8_t, a signed 24.8 fixed-point number stored as a
    * 32-bit two's-complement pattern; its ordering is the signed ordering of
    * that pattern. The arithmetic of the fixed-point library and the double
    * conversions the PID applies to it are not part of this model: they are
    * given as functions on raw patterns. `ratioMul` and `ratioDiv` are
    * `k * (t / 1000.0)` and `k / (t / 1000.0)` for a sample time `t`. */
  datatype DecArith = DecArith(
    add: (u32, u32) -> u32,
    sub: (u32, u32) -> u32,
    mul: (u32, u32) -> u32,
    div: (u32, u32) -> u32,
    fmod: (u32, u32) -> u32,
    ratioMul: (u32, u32) -> u32,
    ratioDiv: (u32, u32) -> u32)

  /** `a < b` on rational_t. */
  predicate DecLess(a: u32, b: u32)
  {
    Signed32(a) < Signed32(b)
  }

  /** The anti-windup limit of the PID: a value above `hi` becomes `hi`,
    * otherwise a value below `lo` becomes `lo`. */
  function Clamp(x: u32, lo: u32, hi: u32): (r: u32)
    ensures !DecLess(hi, lo) ==> !DecLess(r, lo) && !DecLess(hi, r)
    ensures !DecLess(x, lo) && !DecLess(hi, x) ==> r == x
  {
    if DecLess(hi, x) then hi else if DecLess(x, lo) then lo else x
  }
}
