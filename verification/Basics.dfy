/** Outcomes, bytes and the big-endian integers shared by every wire format in the project. */
module Basics {

  datatype Error =
    | InvalidData
    | InvalidInput
    | ConnectionError
    | Timeout
    | Reconnecting
    | Io

  datatype Option<+T> = None | Some(value: T)

  datatype Result<+T> = Ok(value: T) | Err(error: Error) {
    predicate IsFailure() {
      Err?
    }

    function PropagateFailure<U>(): Result<U>
      requires Err?
    {
      Err(error)
    }

    function Extract(): T
      requires Ok?
    {
      value
    }
  }

  newtype Byte = x: int | 0 <= x < 0x100

  type U16 = x: int | 0 <= x < 0x1_0000
  type U32 = x: int | 0 <= x < 0x1_0000_0000
  type Int32 = x: int | -0x8000_0000 <= x < 0x8000_0000

  /** A 32-bit float is its bit pattern: no float arithmetic happens on the wire. */
  type Bits32 = U32

  /** Largest value of a 64-bit `usize`. */
  const USIZE_MAX: nat := 0xffff_ffff_ffff_ffff

  // ---------- big-endian integers ----------

  function Be16(x: U16): (r: seq<Byte>)
    ensures |r| == 2
  {
    [(x / 0x100) as Byte, (x % 0x100) as Byte]
  }

  function Be32(x: U32): (r: seq<Byte>)
    ensures |r| == 4
  {
    Be16(x / 0x1_0000) + Be16(x % 0x1_0000)
  }

  function FromBe16(b: seq<Byte>): U16
    requires |b| == 2
  {
    b[0] as int * 0x100 + b[1] as int
  }

  function FromBe32(b: seq<Byte>): U32
    requires |b| == 4
  {
    FromBe16(b[..2]) * 0x1_0000 + FromBe16(b[2..])
  }

  /** The 32-bit two's complement pattern of a signed integer. */
  function Unsigned(x: Int32): U32 {
    if x < 0 then x + 0x1_0000_0000 else x
  }

  function Signed(x: U32): Int32 {
    if x >= 0x8000_0000 then x - 0x1_0000_0000 else x
  }

  /** `i16::from_be_bytes`, widened to 32 bits. */
  function Signed16(x: U16): Int32 {
    if x >= 0x8000 then x - 0x1_0000 else x
  }

  function BeI32(x: Int32): (r: seq<Byte>)
    ensures |r| == 4
  {
    Be32(Unsigned(x))
  }

  function FromBeI32(b: seq<Byte>): Int32
    requires |b| == 4
  {
    Signed(FromBe32(b))
  }

  lemma Be16RoundTrip(x: U16)
    ensures FromBe16(Be16(x)) == x
  {
  }

  lemma Be32RoundTrip(x: U32)
    ensures FromBe32(Be32(x)) == x
  {
    Be16RoundTrip(x / 0x1_0000);
    Be16RoundTrip(x % 0x1_0000);
    assert Be32(x)[..2] == Be16(x / 0x1_0000);
    assert Be32(x)[2..] == Be16(x % 0x1_0000);
  }

  lemma BeI32RoundTrip(x: Int32)
    ensures FromBeI32(BeI32(x)) == x
  {
    Be32RoundTrip(Unsigned(x));
  }

  lemma FromBe16RoundTrip(b: seq<Byte>)
    requires |b| == 2
    ensures Be16(FromBe16(b)) == b
  {
  }

  lemma FromBe32RoundTrip(b: seq<Byte>)
    requires |b| == 4
    ensures Be32(FromBe32(b)) == b
  {
    FromBe16RoundTrip(b[..2]);
    FromBe16RoundTrip(b[2..]);
    assert b == b[..2] + b[2..];
  }

  lemma FromBeI32RoundTrip(b: seq<Byte>)
    requires |b| == 4
    ensures BeI32(FromBeI32(b)) == b
  {
    FromBe32RoundTrip(b);
  }
}
