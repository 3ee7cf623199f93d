/**
What the GIF walk keeps, rewrites and refuses, over the bytes and numbers as they stand in the file
(crates/core/files/src/sanitize.rs:385-499).
*/
module GifLaws {
  import opened Sequences
  import opened Bytes
  import opened Gif

  // ----- what is written -----

  predicate Image(c: Block) { |c| >= 1 && c[0] == 0x2c }

  /** A graphic control extension: label 0xf9, a first sub-block of four bytes. */
  predicate Control(c: Block) { |c| >= 8 && c[0] == 0x21 && c[1] == 0xf9 && c[2] == 4 }

  /** An application extension with a loop identifier, then a sub-block of three bytes that starts with 1. */
  predicate Loop(c: Block)
  {
    && |c| >= 19 && c[0] == 0x21 && c[1] == 0xff && c[2] == 11
    && (c[3..14] == Ascii("NETSCAPE2.0") || c[3..14] == Ascii("ANIMEXTS1.0")) && c[14] == 3 && c[15] == 1
  }

  /** An image stays as it is; an extension keeps its first sub-blocks and ends there. */
  predicate Becomes(c: Block, w: Block)
  {
    if Image(c) then w == c
    else if Control(c) then w == c[..7] + [0]
    else |c| >= 18 && w == c[..18] + [0]
  }

  lemma Names()
    ensures Ascii("NETSCAPE2.0") == NETSCAPE && Ascii("ANIMEXTS1.0") == ANIMEXTS
  {
  }

  lemma KindsAreBytes(c: Block)
    ensures IsImage(c) == Image(c) && IsControl(c) == Control(c) && IsLoop(c) == Loop(c)
    ensures IsKept(c) ==> Becomes(c, Written(c))
  {
    Names();
    if IsControl(c) {
      assert [EXTENSION, CONTROL, 4] + c[3..7] == c[..7];
    } else if IsLoop(c) {
      assert [EXTENSION, APPLICATION, 11] + c[3..14] + c[14..18] == c[..18];
    }
  }

  function KeptList(bs: seq<Block>): seq<Block>
  {
    Filter(bs, (c: Block) => Image(c) || Control(c) || Loop(c))
  }

  ghost predicate AllBecome(kept: seq<Block>, ws: seq<Block>)
  {
    |ws| == |kept| && forall i :: 0 <= i < |ws| ==> Becomes(kept[i], ws[i])
  }

  lemma {:induction false} WrittenInPlace(bs: seq<Block>)
    ensures AllBecome(KeptList(bs), WrittenAll(bs))
  {
    if bs != [] {
      WrittenInPlace(bs[..|bs| - 1]);
      KindsAreBytes(bs[|bs| - 1]);
    }
  }

  function ImageList(bs: seq<Block>): seq<Block> { Filter(bs, (c: Block) => Image(c)) }

  /**
  For every accepted input the output is its header, then exactly its images, graphic control and loop extensions,
  in order and each as `Becomes` says, then the trailer; the frames are its images.
  */
  lemma OutputHoldsKept(buf: seq<byte>, limits: Limits)
    requires Walk(buf, limits).Ok?
    ensures var (out, frames) := Walk(buf, limits).value;
      && |buf| >= 13
      && var n := 13 + TableLength(buf[10]);
      && n <= |buf| && n < |out| && out[..n] == buf[..n] && out[|out| - 1] == 0x3b
      && Blocks(buf[n..], limits).Ok? && Blocks(out[n..], limits).Ok?
      && AllBecome(KeptList(Blocks(buf[n..], limits).value), Blocks(out[n..], limits).value)
      && frames == |ImageList(Blocks(buf[n..], limits).value)|
  {
    TableLengthIs(buf[10]);
    OutputBlocks(buf, limits);
    FramesAndTrailer(buf, limits);
    WrittenInPlace(Blocks(buf[HeaderLength(buf).value..], limits).value);
  }

  lemma FramesAndTrailer(buf: seq<byte>, limits: Limits)
    requires Walk(buf, limits).Ok?
    ensures var (out, frames) := Walk(buf, limits).value;
      && HeaderLength(buf).Ok? && Blocks(buf[HeaderLength(buf).value..], limits).Ok?
      && |out| > HeaderLength(buf).value && out[|out| - 1] == 0x3b
      && frames == |ImageList(Blocks(buf[HeaderLength(buf).value..], limits).value)|
  {
    WalkParts(buf, limits);
    ImagesAre(Blocks(buf[HeaderLength(buf).value..], limits).value);
  }

  lemma ImagesAre(bs: seq<Block>)
    ensures Images(bs) == ImageList(bs)
  {
    FilterSame(bs, c => IsImage(c), (c: Block) => Image(c));
  }

  // ----- lengths -----

  /** Bit 7 announces a color table; the low three bits give its size. */
  function TableLength(packed: byte): nat
  {
    if packed < 128 then 0
    else
      match packed % 8
      case 0 => 6 case 1 => 12 case 2 => 24 case 3 => 48
      case 4 => 96 case 5 => 192 case 6 => 384 case _ => 768
  }

  lemma TableLengthIs(packed: byte)
    ensures ColorTableLen(packed) == TableLength(packed)
  {
    assert Pow2(1) == 2 && Pow2(2) == 4 && Pow2(3) == 8 && Pow2(4) == 16;
    assert Pow2(5) == 32 && Pow2(6) == 64 && Pow2(7) == 128 && Pow2(8) == 256;
  }

  /** Sub-blocks as they are laid out: a size byte from 1 to 255 before each. */
  function Laid(parts: seq<seq<byte>>): seq<byte>
    requires forall p :: p in parts ==> 1 <= |p| <= 255
  {
    if parts == [] then [] else [|parts[0]|] + parts[0] + Laid(parts[1..])
  }

  /** A run of sub-blocks and its terminator are read whole, whatever follows. */
  lemma {:induction false} LaidIsRead(parts: seq<seq<byte>>, b: seq<byte>)
    requires forall p :: p in parts ==> 1 <= |p| <= 255
    requires Laid(parts) + [0] <= b
    ensures SubBlocks(b) == Ok(|Laid(parts)| + 1)
    decreases |parts|
  {
    if parts == [] {
      assert Laid(parts) + [0] == [0] && b[0] == 0;
    } else {
      var size := |parts[0]|;
      TailOf(parts[0], Laid(parts[1..]), b);
      LaidIsRead(parts[1..], b[1 + size..]);
      ReadFirst(b, size, |Laid(parts[1..])| + 1);
    }
  }

  lemma TailOf(first: seq<byte>, more: seq<byte>, b: seq<byte>)
    requires 1 <= |first| <= 255 && [|first|] + first + more + [0] <= b
    ensures 1 + |first| <= |b| && b[0] as int == |first| && more + [0] <= b[1 + |first|..]
  {
    var laid := [|first|] + first + more + [0];
    assert laid[1 + |first|..] == more + [0];
    assert b[..|laid|] == laid;
    assert b[1 + |first|..][..|more| + 1] == laid[1 + |first|..];
  }

  lemma ReadFirst(b: seq<byte>, size: nat, n: nat)
    requires 1 <= size && 1 + size <= |b| && b[0] as int == size && SubBlocks(b[1 + size..]) == Ok(n)
    ensures SubBlocks(b) == Ok(1 + size + n)
  {
  }

  /** And nothing else is: what is read is a run of sub-blocks and its terminator. */
  lemma {:induction false} ReadIsLaid(b: seq<byte>) returns (parts: seq<seq<byte>>)
    requires SubBlocks(b).Ok?
    ensures forall p :: p in parts ==> 1 <= |p| <= 255
    ensures b[..SubBlocks(b).value] == Laid(parts) + [0]
    decreases |b|
  {
    var size := b[0] as int;
    if size == 0 {
      parts := [];
      assert b[..1] == [0];
    } else {
      var first, tail := b[1..1 + size], b[1 + size..];
      var rest := ReadIsLaid(tail);
      parts := [first] + rest;
      assert parts[1..] == rest;
      FirstOf(b, size, SubBlocks(tail).value, Laid(rest));
    }
  }

  lemma FirstOf(b: seq<byte>, size: byte, n: nat, laid: seq<byte>)
    requires 1 + size as int + n <= |b| && b[0] == size && b[1 + size as int..][..n] == laid + [0]
    ensures b[..1 + size as int + n] == [size] + b[1..1 + size as int] + laid + [0]
  {
    var first, end := b[1..1 + size as int], 1 + size as int;
    assert b[..end + n] == b[..end] + b[end..][..n];
    assert b[..end] == [size] + first;
    Associative([size] + first, laid, [0]);
  }

  // ----- what is refused -----

  /** The frame's width and height, 16 bits each, keep to the limits. */
  predicate FrameFits(b: seq<byte>, limits: Limits)
    requires |b| >= 10
  {
    var width, height := LittleEndian(b[5..7]), LittleEndian(b[7..9]);
    width <= limits.maxSide && height <= limits.maxSide && width * height <= limits.maxPixels
  }

  /** `n` bytes of image: a descriptor of ten bytes that fits, its color table, a code size, and sub-blocks. */
  predicate ImageOf(b: seq<byte>, n: nat, limits: Limits)
  {
    && |b| >= 10 && b[0] == 0x2c && FrameFits(b, limits)
    && var start := 10 + TableLength(b[9]) + 1;
    && start <= n && start <= |b| && SubBlocks(b[start..]) == Ok(n - start)
  }

  /** `n` bytes of extension: a label and sub-blocks, the first of them four bytes for a graphic control. */
  predicate ExtensionOf(b: seq<byte>, n: nat)
  {
    |b| >= 2 && b[0] == 0x21 && n >= 2 && SubBlocks(b[2..]) == Ok(n - 2) && (b[1] == 0xf9 ==> b[2] == 4)
  }

  lemma FrameFitsIff(b: seq<byte>, limits: Limits)
    requires |b| >= 10
    ensures FitsLimits(LeU16(b[5..7]), LeU16(b[7..9]), limits) <==> FrameFits(b, limits)
  {
    LeU16IsPositional(b[5..7]);
    LeU16IsPositional(b[7..9]);
  }

  /** A block is read if and only if it is one of the two; only a frame over the limits is refused as too large. */
  lemma BlockReadIff(b: seq<byte>, n: nat, limits: Limits)
    ensures BlockLength(b, limits) == Ok(n) <==> ImageOf(b, n, limits) || ExtensionOf(b, n)
    ensures BlockLength(b, limits) == Err(TooLarge) <==> |b| >= 10 && b[0] == 0x2c && !FrameFits(b, limits)
  {
    if |b| >= 10 {
      FrameFitsIff(b, limits);
      TableLengthIs(b[9]);
    }
  }

  /** The blocks of a file, up to a trailer: each is one of the two, and they follow one another. */
  ghost predicate Follows(b: seq<byte>, bs: seq<Block>, limits: Limits)
    decreases |bs|
  {
    if bs == [] then |b| >= 1 && b[0] == 0x3b
    else
      var n := |bs[0]|;
      && (ImageOf(b, n, limits) || ExtensionOf(b, n)) && n <= |b|
      && bs[0] == b[..n] && Follows(b[n..], bs[1..], limits)
  }

  ghost predicate HasBlocks(b: seq<byte>, limits: Limits)
  {
    exists bs :: Follows(b, bs, limits)
  }

  lemma {:induction false} BlocksFollow(b: seq<byte>, limits: Limits)
    requires Blocks(b, limits).Ok?
    ensures Follows(b, Blocks(b, limits).value, limits)
    decreases |b|
  {
    var bs := Blocks(b, limits).value;
    if |b| == 0 || b[0] != 0x3b {
      var n := BlockLength(b, limits).value;
      BlockReadIff(b, n, limits);
      BlocksFollow(b[n..], limits);
      assert bs[1..] == Blocks(b[n..], limits).value;
    }
  }

  lemma {:induction false} FollowingAreBlocks(b: seq<byte>, bs: seq<Block>, limits: Limits)
    requires Follows(b, bs, limits)
    ensures Blocks(b, limits) == Ok(bs)
    decreases |bs|
  {
    if bs != [] {
      BlockReadIff(b, |bs[0]|, limits);
      FollowingAreBlocks(b[|bs[0]|..], bs[1..], limits);
      assert [bs[0]] + bs[1..] == bs;
    }
  }

  /** A file is accepted if and only if its header and color table are there and blocks follow up to a trailer. */
  lemma AcceptedIff(buf: seq<byte>, limits: Limits)
    ensures Walk(buf, limits).Ok? <==>
      |buf| >= 13 && 13 + TableLength(buf[10]) <= |buf| && HasBlocks(buf[13 + TableLength(buf[10])..], limits)
  {
    if |buf| >= 13 {
      TableLengthIs(buf[10]);
      var n := 13 + TableLength(buf[10]);
      if n <= |buf| {
        if Blocks(buf[n..], limits).Ok? {
          BlocksFollow(buf[n..], limits);
        } else {
          forall bs ensures !Follows(buf[n..], bs, limits) {
            if Follows(buf[n..], bs, limits) { FollowingAreBlocks(buf[n..], bs, limits); }
          }
        }
      }
    }
  }

  lemma {:induction false} SplitErrors(b: seq<byte>, limits: Limits)
    ensures Blocks(b, limits).Err? ==> Blocks(b, limits) == Err(Decode) || Blocks(b, limits) == Err(TooLarge)
    decreases |b|
  {
    if BlockLength(b, limits).Ok? { SplitErrors(b[BlockLength(b, limits).value..], limits); }
  }

  /** A refusal says that a frame is over the limits, or that the file cannot be decoded. */
  lemma RefusedAs(buf: seq<byte>, limits: Limits)
    requires Walk(buf, limits).Err?
    ensures Walk(buf, limits) == Err(Decode) || Walk(buf, limits) == Err(TooLarge)
  {
    if HeaderLength(buf).Ok? { SplitErrors(buf[HeaderLength(buf).value..], limits); }
  }
}
