/**
The GIF walker (crates/core/files/src/sanitize.rs:385-499): blocks and sub-blocks as in
sections 15, 16 and 20 to 27 of the GIF89a specification.
*/
module Gif {
  import opened Sequences
  import opened Bytes

  datatype Limits = Limits(maxSide: nat, maxPixels: nat)

  /** `check_dimensions`. */
  predicate FitsLimits(width: nat, height: nat, limits: Limits)
  {
    width <= limits.maxSide && height <= limits.maxSide && width * height <= limits.maxPixels
  }

  function Pow2(n: nat): (r: nat) { if n == 0 then 1 else 2 * Pow2(n - 1) }

  /** `color_table_len`: bit 7 announces a table, the low three bits its size. */
  function ColorTableLen(packed: byte): (r: nat)
  {
    if packed >= 128 then 3 * Pow2(packed % 8 + 1) else 0
  }

  /** `skip_sub_blocks`: how many bytes the run of sub-blocks at the start of `b` takes, terminator included. */
  function SubBlocks(b: seq<byte>): (r: Result<nat>)
    ensures r.Ok? ==> 1 <= r.value <= |b|
    ensures r.Err? ==> r.error == Decode
    decreases |b|
  {
    if |b| == 0 then Err(Decode)
    else
      var size := b[0] as int;
      if size == 0 then Ok(1)
      else if 1 + size > |b| then Err(Decode)
      else
        match SubBlocks(b[1 + size..])
        case Err(e) => Err(e)
        case Ok(n) => Ok(1 + size + n)
  }

  /** A block as it lies in the file: an image, or an extension. */
  type Block = seq<byte>

  const IMAGE: byte := 0x2c
  const EXTENSION: byte := 0x21
  const TRAILER: byte := 0x3b
  const CONTROL: byte := 0xf9
  const APPLICATION: byte := 0xff

  const NETSCAPE: seq<byte> := [78, 69, 84, 83, 67, 65, 80, 69, 50, 46, 48]
  const ANIMEXTS: seq<byte> := [65, 78, 73, 77, 69, 88, 84, 83, 49, 46, 48]

  /** `GIF_LOOP_EXTENSIONS`. */
  predicate IsLoopName(name: seq<byte>) { name == NETSCAPE || name == ANIMEXTS }

  /** The length of the image at the start of `b`: descriptor, local color table, code size and data. */
  function ImageLength(b: seq<byte>, limits: Limits): (r: Result<nat>)
    ensures r.Ok? ==> 12 <= r.value <= |b|
  {
    if |b| < 10 then Err(Decode)
    else if !FitsLimits(LeU16(b[5..7]), LeU16(b[7..9]), limits) then Err(TooLarge)
    else
      var start := 11 + ColorTableLen(b[9]);
      if start > |b| then Err(Decode)
      else
        match SubBlocks(b[start..])
        case Err(e) => Err(e)
        case Ok(n) => Ok(start + n)
  }

  /** The length of the extension at the start of `b`. */
  function ExtensionLength(b: seq<byte>): (r: Result<nat>)
    ensures r.Ok? ==> 3 <= r.value <= |b|
  {
    if |b| < 2 then Err(Decode)
    else
      match SubBlocks(b[2..])
      case Err(e) => Err(e)
      case Ok(n) => if b[1] == CONTROL && b[2] != 4 then Err(Decode) else Ok(2 + n)
  }

  function BlockLength(b: seq<byte>, limits: Limits): (r: Result<nat>)
    ensures r.Ok? ==> 3 <= r.value <= |b|
  {
    if |b| == 0 then Err(Decode)
    else if b[0] == IMAGE then ImageLength(b, limits)
    else if b[0] == EXTENSION then ExtensionLength(b)
    else Err(Decode)
  }

  /** The blocks up to the trailer. */
  function Blocks(b: seq<byte>, limits: Limits): (r: Result<seq<Block>>)
    decreases |b|
  {
    if |b| > 0 && b[0] == TRAILER then Ok([])
    else
      match BlockLength(b, limits)
      case Err(e) => Err(e)
      case Ok(n) =>
        match Blocks(b[n..], limits)
        case Err(e) => Err(e)
        case Ok(rest) => Ok([b[..n]] + rest)
  }

  predicate IsImage(c: Block) { |c| >= 1 && c[0] == IMAGE }

  predicate IsControl(c: Block) { |c| >= 8 && c[0] == EXTENSION && c[1] == CONTROL && c[2] == 4 }

  /** An application extension that starts with a loop count. */
  predicate IsLoop(c: Block)
  {
    |c| >= 19 && c[0] == EXTENSION && c[1] == APPLICATION && c[2] == 11 &&
    IsLoopName(c[3..14]) && c[14] == 3 && c[15] == 1
  }

  /** What is written for a block: images verbatim, the two kept extensions rebuilt, nothing else. */
  function Written(c: Block): (r: seq<byte>)
  {
    if IsImage(c) then c
    else if IsControl(c) then [EXTENSION, CONTROL, 4] + c[3..7] + [0]
    else if IsLoop(c) then [EXTENSION, APPLICATION, 11] + c[3..14] + c[14..18] + [0]
    else []
  }

  predicate IsKept(c: Block) { IsImage(c) || IsControl(c) || IsLoop(c) }

  /** The blocks of the cleaned file, in order. */
  function WrittenAll(bs: seq<Block>): (r: seq<Block>)
  {
    if bs == [] then []
    else
      var done, last := WrittenAll(bs[..|bs| - 1]), bs[|bs| - 1];
      if IsKept(last) then done + [Written(last)] else done
  }

  function Join(bs: seq<Block>): (r: seq<byte>)
  {
    if bs == [] then [] else Join(bs[..|bs| - 1]) + bs[|bs| - 1]
  }

  function Images(bs: seq<Block>): (r: seq<Block>) { Filter(bs, c => IsImage(c)) }

  /** The header, the logical screen descriptor and the global color table. */
  function HeaderLength(buf: seq<byte>): (r: Result<nat>)
    ensures r.Ok? ==> 13 <= r.value <= |buf|
  {
    if |buf| < 13 then Err(Decode)
    else
      var n := 13 + ColorTableLen(buf[10]);
      if n > |buf| then Err(Decode) else Ok(n)
  }

  /** `walk_gif`: the cleaned bytes and the number of frames. */
  function Walk(buf: seq<byte>, limits: Limits): (r: Result<(seq<byte>, nat)>)
  {
    match HeaderLength(buf)
    case Err(e) => Err(e)
    case Ok(n) =>
      match Blocks(buf[n..], limits)
      case Err(e) => Err(e)
      case Ok(bs) => Ok((buf[..n] + Join(WrittenAll(bs)) + [TRAILER], |Images(bs)|))
  }

  // ----- reading a block again -----

  /** A run of sub-blocks is recognised whatever follows it. */
  lemma {:induction false} SubBlocksPrefix(b: seq<byte>, rest: seq<byte>)
    requires SubBlocks(b).Ok?
    ensures SubBlocks(b[..SubBlocks(b).value] + rest) == SubBlocks(b)
    decreases |b|
  {
    var size := b[0] as int;
    if size != 0 {
      var tail := b[1 + size..];
      var n := SubBlocks(tail).value;
      SubBlocksPrefix(tail, rest);
      var again := b[..1 + size + n] + rest;
      assert again[0] == b[0];
      assert again[1 + size..] == tail[..n] + rest;
    }
  }

  lemma ImagePrefix(b: seq<byte>, limits: Limits, rest: seq<byte>)
    requires ImageLength(b, limits).Ok?
    ensures ImageLength(b[..ImageLength(b, limits).value] + rest, limits) == ImageLength(b, limits)
  {
    var start := 11 + ColorTableLen(b[9]);
    var n := SubBlocks(b[start..]).value;
    var again := b[..start + n] + rest;
    SubBlocksPrefix(b[start..], rest);
    assert again[start..] == b[start..][..n] + rest;
    assert again[5..7] == b[5..7] && again[7..9] == b[7..9] && again[9] == b[9];
  }

  /** The first sub-block of a parsed extension lies inside it, and so does the second one's size byte. */
  lemma FirstSubBlock(b: seq<byte>)
    requires SubBlocks(b).Ok? && b[0] != 0
    ensures SubBlocks(b).value >= 2 + b[0] as int
    ensures b[0] as int < |b| - 1
    ensures b[1 + b[0] as int] != 0 ==> SubBlocks(b).value >= 3 + b[0] as int + b[1 + b[0] as int] as int
  {
    var size := b[0] as int;
    var tail := b[1 + size..];
    assert SubBlocks(tail).Ok? && tail[0] == b[1 + size];
  }

  /** A kept extension of a parsed file has the length its fixed fields need. */
  lemma KeptExtension(b: seq<byte>)
    requires ExtensionLength(b).Ok? && b[0] == EXTENSION
    ensures var c := b[..ExtensionLength(b).value];
      (c[1] == CONTROL ==> IsControl(c)) &&
      (c[1] == APPLICATION && c[2] == 11 ==> |c| >= 15 && (c[14] == 3 ==> |c| >= 19))
  {
    var n := SubBlocks(b[2..]).value;
    assert b[2..][0] == b[2];
    if b[2] != 0 {
      FirstSubBlock(b[2..]);
      assert b[2] == 11 ==> b[2..][12] == b[14];
    }
  }

  lemma ControlReadsBack(fields: seq<byte>, rest: seq<byte>, limits: Limits)
    requires |fields| == 4
    ensures var c := [EXTENSION, CONTROL, 4] + fields + [0];
      |c| == 8 && IsControl(c) && Written(c) == c && BlockLength(c + rest, limits) == Ok(8)
  {
    var c := [EXTENSION, CONTROL, 4] + fields + [0];
    var b := (c + rest)[2..];
    assert b[0] == 4 && b[5] == 0;
    assert SubBlocks(b[5..]) == Ok(1);
    assert SubBlocks(b) == Ok(6);
    assert c[3..7] == fields;
  }

  lemma LoopReadsBack(name: seq<byte>, data: seq<byte>, rest: seq<byte>, limits: Limits)
    requires |name| == 11 && IsLoopName(name) && |data| == 4 && data[0] == 3 && data[1] == 1
    ensures var c := [EXTENSION, APPLICATION, 11] + name + data + [0];
      |c| == 19 && IsLoop(c) && !IsControl(c) && Written(c) == c && BlockLength(c + rest, limits) == Ok(19)
  {
    var c := [EXTENSION, APPLICATION, 11] + name + data + [0];
    var b := (c + rest)[2..];
    assert b[0] == 11 && b[12] == data[0] && b[16] == 0;
    assert SubBlocks(b[16..]) == Ok(1);
    assert b[12..][4..] == b[16..];
    assert SubBlocks(b[12..]) == Ok(5);
    assert SubBlocks(b) == Ok(17);
    assert c[3..14] == name && c[14..18] == data;
  }

  /** A block of a parsed file. */
  ghost predicate IsBlock(c: Block, limits: Limits)
  {
    BlockLength(c, limits) == Ok(|c|)
  }

  lemma ParsedIsBlock(b: seq<byte>, limits: Limits, rest: seq<byte>)
    requires BlockLength(b, limits).Ok?
    ensures var c := b[..BlockLength(b, limits).value];
      IsBlock(c, limits) && BlockLength(c + rest, limits) == Ok(|c|)
  {
    var n := BlockLength(b, limits).value;
    BlockPrefix(b, limits, rest);
    BlockPrefix(b, limits, []);
    assert b[..n] + [] == b[..n];
  }

  lemma BlockPrefix(b: seq<byte>, limits: Limits, rest: seq<byte>)
    requires BlockLength(b, limits).Ok?
    ensures BlockLength(b[..BlockLength(b, limits).value] + rest, limits) == BlockLength(b, limits)
  {
    var n := BlockLength(b, limits).value;
    var again := b[..n] + rest;
    assert again[0] == b[0];
    if b[0] == IMAGE {
      ImagePrefix(b, limits, rest);
    } else {
      SubBlocksPrefix(b[2..], rest);
      assert again[1] == b[1] && again[2] == b[2] && again[2..] == b[2..][..n - 2] + rest;
    }
  }

  /** What is written for a kept block is a block, is written as itself, and is recognised whatever follows. */
  lemma WrittenReadsBack(c: Block, limits: Limits, rest: seq<byte>)
    requires IsBlock(c, limits) && IsKept(c)
    ensures var w := Written(c);
      BlockLength(w + rest, limits) == Ok(|w|) && IsKept(w) && Written(w) == w &&
      (IsImage(w) <==> IsImage(c)) && |w| <= |c| && |w| >= 1 && w[0] != TRAILER
  {
    if IsImage(c) {
      BlockPrefix(c, limits, rest);
      assert c[..|c|] == c;
    } else if IsControl(c) {
      ControlReadsBack(c[3..7], rest, limits);
    } else {
      LoopReadsBack(c[3..14], c[14..18], rest, limits);
    }
  }

  // ----- block lists -----

  ghost predicate AllBlocks(bs: seq<Block>, limits: Limits)
  {
    forall c :: c in bs ==> IsBlock(c, limits) && |c| >= 1 && c[0] != TRAILER
  }

  lemma {:induction false} JoinCons(c: Block, bs: seq<Block>)
    ensures Join([c] + bs) == c + Join(bs)
  {
    var all := [c] + bs;
    if bs == [] {
      assert all[..0] == [] && all[0] == c && Join(all) == [] + c;
    } else {
      var prefix, last := bs[..|bs| - 1], bs[|bs| - 1];
      assert all[..|all| - 1] == [c] + prefix && all[|all| - 1] == last;
      JoinCons(c, prefix);
      Associative(c, Join(prefix), last);
    }
  }

  lemma {:induction false} ParsedAreBlocks(b: seq<byte>, limits: Limits)
    ensures Blocks(b, limits).Ok? ==> AllBlocks(Blocks(b, limits).value, limits)
    decreases |b|
  {
    if !(|b| > 0 && b[0] == TRAILER) && BlockLength(b, limits).Ok? {
      ParsedIsBlock(b, limits, []);
      ParsedAreBlocks(b[BlockLength(b, limits).value..], limits);
    }
  }

  /** A block that is recognised whatever follows it. */
  ghost predicate SelfDelimiting(c: Block, limits: Limits)
  {
    |c| >= 1 && c[0] != TRAILER && forall rest :: BlockLength(c + rest, limits) == Ok(|c|)
  }

  /** Such blocks, joined and followed by a trailer, are read back as the same list. */
  lemma {:induction false} ReadJoined(bs: seq<Block>, limits: Limits, tail: seq<byte>)
    requires forall c :: c in bs ==> SelfDelimiting(c, limits)
    ensures Blocks(Join(bs) + tail, limits) == After(bs, Blocks(tail, limits))
  {
    if bs == [] {
      assert Join(bs) + tail == tail;
      AfterNothing(Blocks(tail, limits));
    } else {
      var first, rest := bs[0], bs[1..];
      assert bs == [first] + rest && first in bs;
      JoinCons(first, rest);
      Associative(first, Join(rest), tail);
      ReadFirst(first, Join(rest) + tail, limits);
      ReadJoined(rest, limits, tail);
      AfterAssociates([first], rest, Blocks(tail, limits));
    }
  }

  lemma ReadFirst(c: Block, after: seq<byte>, limits: Limits)
    requires SelfDelimiting(c, limits)
    ensures Blocks(c + after, limits) == After([c], Blocks(after, limits))
  {
    var b := c + after;
    assert b[..|c|] == c && b[|c|..] == after && b[0] == c[0];
    assert BlockLength(c + after, limits) == Ok(|c|);
  }

  /** The parsed blocks lie in the file verbatim, one after another, up to the trailer. */
  lemma {:induction false} BlocksAreVerbatim(b: seq<byte>, limits: Limits)
    requires Blocks(b, limits).Ok?
    ensures Join(Blocks(b, limits).value) + [TRAILER] <= b
    decreases |b|
  {
    if |b| > 0 && b[0] == TRAILER {
      assert Join([]) + [TRAILER] == [TRAILER];
    } else {
      var n := BlockLength(b, limits).value;
      var rest := Blocks(b[n..], limits).value;
      BlocksAreVerbatim(b[n..], limits);
      JoinCons(b[..n], rest);
      PrefixAfter(b, n, Join(rest), [TRAILER]);
    }
  }

  lemma PrefixAfter(b: seq<byte>, n: nat, middle: seq<byte>, end: seq<byte>)
    requires n <= |b| && middle + end <= b[n..]
    ensures b[..n] + middle + end <= b
  {
    Associative(b[..n], middle, end);
    assert b == b[..n] + b[n..];
  }

  // ----- what is written -----

  lemma {:induction false} WrittenAreKept(bs: seq<Block>, limits: Limits)
    requires AllBlocks(bs, limits)
    ensures forall w :: w in WrittenAll(bs) ==> IsKept(w) && Written(w) == w && SelfDelimiting(w, limits)
  {
    if bs != [] {
      var prefix, last := bs[..|bs| - 1], bs[|bs| - 1];
      assert last in bs;
      WrittenAreKept(prefix, limits);
      if IsKept(last) {
        var w := Written(last);
        forall rest ensures BlockLength(w + rest, limits) == Ok(|w|) { WrittenReadsBack(last, limits, rest); }
        WrittenReadsBack(last, limits, []);
      }
    }
  }

  lemma {:induction false} WrittenAgain(ws: seq<Block>)
    requires forall w :: w in ws ==> IsKept(w) && Written(w) == w
    ensures WrittenAll(ws) == ws
  {
    if ws != [] {
      WrittenAgain(ws[..|ws| - 1]);
      assert ws[|ws| - 1] in ws && ws == ws[..|ws| - 1] + [ws[|ws| - 1]];
    }
  }

  lemma {:induction false} WrittenImages(bs: seq<Block>, limits: Limits)
    requires AllBlocks(bs, limits)
    ensures Images(WrittenAll(bs)) == Images(bs)
  {
    if bs != [] {
      var prefix, last := bs[..|bs| - 1], bs[|bs| - 1];
      assert last in bs;
      WrittenImages(prefix, limits);
      if IsKept(last) {
        WrittenReadsBack(last, limits, []);
        var ws := WrittenAll(prefix) + [Written(last)];
        assert ws[..|ws| - 1] == WrittenAll(prefix);
      }
    }
  }

  lemma {:induction false} WrittenLength(bs: seq<Block>, limits: Limits)
    requires AllBlocks(bs, limits)
    ensures |Join(WrittenAll(bs))| <= |Join(bs)|
  {
    if bs != [] {
      var prefix, last := bs[..|bs| - 1], bs[|bs| - 1];
      assert last in bs;
      WrittenLength(prefix, limits);
      if IsKept(last) {
        WrittenReadsBack(last, limits, []);
        var ws := WrittenAll(prefix) + [Written(last)];
        assert ws[..|ws| - 1] == WrittenAll(prefix);
      }
    }
  }

  // ----- the theorems -----

  lemma WalkParts(buf: seq<byte>, limits: Limits)
    requires Walk(buf, limits).Ok?
    ensures HeaderLength(buf).Ok?
    ensures var n := HeaderLength(buf).value;
      Blocks(buf[n..], limits).Ok? && AllBlocks(Blocks(buf[n..], limits).value, limits) &&
      Walk(buf, limits).value.0 == buf[..n] + Join(WrittenAll(Blocks(buf[n..], limits).value)) + [TRAILER]
  {
    ParsedAreBlocks(buf[HeaderLength(buf).value..], limits);
  }

  /** The output's blocks, read again: exactly the blocks that were written. */
  lemma OutputBlocks(buf: seq<byte>, limits: Limits)
    requires Walk(buf, limits).Ok?
    ensures var out := Walk(buf, limits).value.0;
      HeaderLength(buf).Ok? && HeaderLength(out) == HeaderLength(buf) &&
      var n := HeaderLength(buf).value;
      out[..n] == buf[..n] && Blocks(buf[n..], limits).Ok? &&
      Blocks(out[n..], limits) == Ok(WrittenAll(Blocks(buf[n..], limits).value))
  {
    WalkParts(buf, limits);
    var n := HeaderLength(buf).value;
    var bs := Blocks(buf[n..], limits).value;
    var out := Walk(buf, limits).value.0;
    WrittenAreKept(bs, limits);
    ReadJoined(WrittenAll(bs), limits, [TRAILER]);
    OutputSlices(buf[..n], Join(WrittenAll(bs)), [TRAILER]);
    assert Blocks([TRAILER], limits) == Ok([]);
    AfterAll(WrittenAll(bs));
    assert out[10] == buf[10];
  }

  lemma OutputSlices(head: seq<byte>, body: seq<byte>, tail: seq<byte>)
    requires |head| >= 13
    ensures var out := head + body + tail;
      out[..|head|] == head && out[|head|..] == body + tail && out[10] == head[10]
  {
  }

  /**
  For every accepted input, the output starts with the input's header and color table;
  its blocks are the input's blocks, each in its place: images verbatim, graphic control
  and loop extensions rebuilt from their fixed fields, everything else left out; the frame
  count is the number of images, and the output is no longer than the input.
  */
  lemma OutputIsCleanedInput(buf: seq<byte>, limits: Limits)
    requires Walk(buf, limits).Ok?
    ensures var (out, frames) := Walk(buf, limits).value;
      HeaderLength(buf).Ok? && |out| <= |buf| &&
      var n := HeaderLength(buf).value;
      n <= |out| && out[..n] == buf[..n] && Blocks(buf[n..], limits).Ok? &&
      Blocks(out[n..], limits) == Ok(WrittenAll(Blocks(buf[n..], limits).value)) &&
      Images(Blocks(out[n..], limits).value) == Images(Blocks(buf[n..], limits).value) &&
      frames == |Images(Blocks(out[n..], limits).value)| &&
      forall w :: w in Blocks(out[n..], limits).value ==> IsKept(w) && Written(w) == w
  {
    WalkParts(buf, limits);
    OutputBlocks(buf, limits);
    var n := HeaderLength(buf).value;
    var bs := Blocks(buf[n..], limits).value;
    WrittenAreKept(bs, limits);
    WrittenImages(bs, limits);
    WrittenLength(bs, limits);
    BlocksAreVerbatim(buf[n..], limits);
  }

  /** Walking the output again is the identity, with the same number of frames. */
  lemma WalkIsIdempotent(buf: seq<byte>, limits: Limits)
    requires Walk(buf, limits).Ok?
    ensures Walk(Walk(buf, limits).value.0, limits) == Walk(buf, limits)
  {
    WalkParts(buf, limits);
    OutputBlocks(buf, limits);
    var bs := Blocks(buf[HeaderLength(buf).value..], limits).value;
    WrittenAreKept(bs, limits);
    WrittenAgain(WrittenAll(bs));
    WrittenImages(bs, limits);
  }
}
