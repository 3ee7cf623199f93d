/** Bytes, byte readers and the results the image walkers return (crates/core/files/src/sanitize.rs:44-53, 618-628). */
module Bytes {
  import opened Arithmetic

  type byte = x: int | 0 <= x < 256

  datatype SanitizeError = NotAnImage | TooLarge | Decode

  datatype Result<+T> = Ok(value: T) | Err(error: SanitizeError)

  function LeU32(b: seq<byte>): (n: int)
    requires |b| == 4
    ensures 0 <= n < TWO_32
  {
    (b[0] as int) + 256 * (b[1] as int) + 65536 * (b[2] as int) + 16777216 * (b[3] as int)
  }

  function BeU32(b: seq<byte>): (n: int)
    requires |b| == 4
    ensures 0 <= n < TWO_32
  {
    (b[3] as int) + 256 * (b[2] as int) + 65536 * (b[1] as int) + 16777216 * (b[0] as int)
  }

  function LeU24(b: seq<byte>): (n: int)
    requires |b| == 3
    ensures 0 <= n < 16777216
  {
    (b[0] as int) + 256 * (b[1] as int) + 65536 * (b[2] as int)
  }

  function LeU16(b: seq<byte>): (n: int)
    requires |b| == 2
    ensures 0 <= n < 65536
  {
    (b[0] as int) + 256 * (b[1] as int)
  }

  /** `as u32`: the cast keeps the low 32 bits. */
  function CastU32(n: nat): (r: nat)
    ensures r < TWO_32
    ensures n < TWO_32 ==> r == n
  {
    n % TWO_32
  }

  /** `to_le_bytes`. */
  function LeBytes(n: nat): (b: seq<byte>)
    requires n < TWO_32
    ensures |b| == 4
  {
    [n % 256, n / 256 % 256, n / 65536 % 256, n / 16777216]
  }

  lemma LeRoundTrip(n: nat)
    requires n < TWO_32
    ensures LeU32(LeBytes(n)) == n
  {
    var high := n / 256;
    assert n / 65536 == high / 256 && n / 16777216 == high / 256 / 256;
  }

  lemma LeBytesOfValue(b: seq<byte>)
    requires |b| == 4
    ensures LeBytes(LeU32(b)) == b
  {
    var n := LeU32(b);
    assert n / 16777216 == (b[3] as int);
    assert n / 65536 == (b[2] as int) + 256 * (b[3] as int);
    assert n / 256 == (b[1] as int) + 256 * ((b[2] as int) + 256 * (b[3] as int));
  }

  /** The four bytes that read as `n` cast to 32 bits. */
  ghost function SizeField(n: nat): (b: seq<byte>)
    ensures |b| == 4 && LeU32(b) == CastU32(n)
  {
    LeRoundTrip(CastU32(n));
    var b: seq<byte> :| |b| == 4 && LeU32(b) == CastU32(n);
    b
  }

  lemma SizeFieldIsLeBytes(n: nat)
    ensures SizeField(n) == LeBytes(CastU32(n))
  {
    LeBytesOfValue(SizeField(n));
  }

  lemma Associative(a: seq<byte>, b: seq<byte>, c: seq<byte>)
    ensures a + b + c == a + (b + c)
  {
  }

  // ----- what the readers read -----

  /** The number the bytes spell, least significant first. */
  function LittleEndian(b: seq<byte>): nat
  {
    if b == [] then 0 else (b[0] as int) + 256 * LittleEndian(b[1..])
  }

  /** The number the bytes spell, most significant first. */
  function BigEndian(b: seq<byte>): nat
  {
    if b == [] then 0 else 256 * BigEndian(b[..|b| - 1]) + (b[|b| - 1] as int)
  }

  lemma LeU32IsPositional(b: seq<byte>)
    requires |b| == 4
    ensures LeU32(b) == LittleEndian(b)
  {
    var b1 := b[1..];
    var b2 := b1[1..];
    var b3 := b2[1..];
    assert b3[1..] == [] && LittleEndian(b3) == b3[0] as int;
    assert LittleEndian(b2) == b2[0] as int + 256 * LittleEndian(b3);
    assert LittleEndian(b1) == b1[0] as int + 256 * LittleEndian(b2);
  }

  lemma LeU24IsPositional(b: seq<byte>)
    requires |b| == 3
    ensures LeU24(b) == LittleEndian(b)
  {
    var b1 := b[1..];
    var b2 := b1[1..];
    assert b2[1..] == [] && LittleEndian(b2) == b2[0] as int;
    assert LittleEndian(b1) == b1[0] as int + 256 * LittleEndian(b2);
  }

  lemma LeU16IsPositional(b: seq<byte>)
    requires |b| == 2
    ensures LeU16(b) == LittleEndian(b)
  {
    var b1 := b[1..];
    assert b1[1..] == [] && LittleEndian(b1) == b1[0] as int;
  }

  lemma BeU32IsPositional(b: seq<byte>)
    requires |b| == 4
    ensures BeU32(b) == BigEndian(b)
  {
    var b3, b2, b1 := b[..3], b[..2], b[..1];
    assert b3[..2] == b2 && b2[..1] == b1 && b1[..0] == [];
    assert BigEndian(b1) == b[0] as int;
    assert BigEndian(b2) == 256 * BigEndian(b1) + b[1] as int;
    assert BigEndian(b3) == 256 * BigEndian(b2) + b[2] as int;
  }

  /** The bytes of a code written as text. */
  function Ascii(s: string): (b: seq<byte>)
    ensures |b| == |s| && forall i :: 0 <= i < |s| && s[i] < 128 as char ==> b[i] == s[i] as int
  {
    seq(|s|, i requires 0 <= i < |s| => if s[i] < 128 as char then s[i] as int else 0)
  }

  // ----- lists read piece by piece -----

  /** `done` was read before the rest gave `r`. */
  ghost function After<T>(done: seq<T>, r: Result<seq<T>>): Result<seq<T>>
  {
    match r case Err(e) => Err(e) case Ok(rest) => Ok(done + rest)
  }

  lemma AfterNothing<T>(r: Result<seq<T>>)
    ensures After([], r) == r
  {
    if r.Ok? { assert [] + r.value == r.value; }
  }

  lemma AfterAll<T>(done: seq<T>)
    ensures After(done, Ok([])) == Ok(done)
  {
    assert done + [] == done;
  }

  lemma AfterAssociates<T>(done: seq<T>, more: seq<T>, r: Result<seq<T>>)
    ensures After(done, After(more, r)) == After(done + more, r)
  {
    if r.Ok? { assert done + (more + r.value) == done + more + r.value; }
  }
}
