/** `walk_gif` and `skip_sub_blocks` as they run: a cursor over the file and a growing output. */
module GifWalker {
  import opened Sequences
  import opened Bytes
  import opened Gif

  /** `end` is where the sub-blocks at `start` end, if they do. */
  ghost predicate SkipsTo(buf: seq<byte>, start: nat, r: Result<nat>)
  {
    if start > |buf| then r == Err(Decode)
    else
      match SubBlocks(buf[start..])
      case Err(e) => r == Err(e)
      case Ok(n) => r == Ok(start + n)
  }

  lemma SkipAt(buf: seq<byte>, pos: nat)
    requires pos < |buf|
    ensures buf[pos] == 0 ==> SubBlocks(buf[pos..]) == Ok(1)
    ensures buf[pos] != 0 && pos + 1 + buf[pos] as int > |buf| ==> SubBlocks(buf[pos..]) == Err(Decode)
    ensures buf[pos] != 0 && pos + 1 + buf[pos] as int <= |buf| ==>
      SubBlocks(buf[pos..]) ==
        match SubBlocks(buf[pos + 1 + buf[pos] as int..])
        case Err(e) => Err(e)
        case Ok(n) => Ok(1 + buf[pos] as int + n)
  {
    var b := buf[pos..];
    if pos + 1 + buf[pos] as int <= |buf| { assert b[1 + b[0] as int..] == buf[pos + 1 + buf[pos] as int..]; }
  }

  /** `skip_sub_blocks`. */
  method SkipSubBlocks(buf: seq<byte>, start: nat) returns (r: Result<nat>)
    ensures SkipsTo(buf, start, r)
  {
    if start > |buf| { return Err(Decode); }
    var pos := start;
    while true
      invariant start <= pos <= |buf|
      invariant SubBlocks(buf[start..]) ==
        match SubBlocks(buf[pos..])
        case Err(e) => Err(e)
        case Ok(n) => Ok(pos - start + n)
      decreases |buf| - pos
    {
      if pos == |buf| { return Err(Decode); }
      SkipAt(buf, pos);
      var size := buf[pos] as int;
      if size == 0 { return Ok(pos + 1); }
      if pos + 1 + size > |buf| { return Err(Decode); }
      pos := pos + 1 + size;
    }
  }

  /** The image arm: where the image at `pos` ends. */
  method ImageEnd(buf: seq<byte>, pos: nat, limits: Limits) returns (r: Result<nat>)
    requires pos < |buf| && buf[pos] == IMAGE
    ensures r == match BlockLength(buf[pos..], limits) case Err(e) => Err(e) case Ok(n) => Ok(pos + n)
  {
    ghost var b := buf[pos..];
    if pos + 10 > |buf| { return Err(Decode); }
    assert buf[pos + 5..pos + 7] == b[5..7] && buf[pos + 7..pos + 9] == b[7..9] && buf[pos + 9] == b[9];
    if !FitsLimits(LeU16(buf[pos + 5..pos + 7]), LeU16(buf[pos + 7..pos + 9]), limits) { return Err(TooLarge); }
    var dataStart := pos + 10 + ColorTableLen(buf[pos + 9]) + 1;
    if dataStart <= |buf| { assert b[dataStart - pos..] == buf[dataStart..]; }
    r := SkipSubBlocks(buf, dataStart);
  }

  /** The extension arm: where the extension at `pos` ends, and what is written for it. */
  method RebuildExtension(buf: seq<byte>, pos: nat, limits: Limits) returns (r: Result<(nat, seq<byte>)>)
    requires pos < |buf| && buf[pos] == EXTENSION
    ensures r ==
      match BlockLength(buf[pos..], limits)
      case Err(e) => Err(e)
      case Ok(n) => Ok((pos + n, Written(buf[pos..pos + n])))
  {
    ghost var b := buf[pos..];
    if pos + 1 >= |buf| { return Err(Decode); }
    var kind := buf[pos + 1];
    var body := pos + 2;
    assert b[2..] == buf[body..];
    var skipped := SkipSubBlocks(buf, body);
    if skipped.Err? { return Err(skipped.error); }
    var end := skipped.value;
    if kind == CONTROL && buf[body] != 4 { return Err(Decode); }
    ghost var c := buf[pos..end];
    assert c == b[..end - pos];
    KeptExtension(b);
    var written: seq<byte> := [];
    if kind == CONTROL {
      SliceOfSlice(buf, pos, end, 3, 7);
      written := [EXTENSION, CONTROL, 4] + buf[body + 1..body + 5] + [0];
    } else if kind == APPLICATION && buf[body] == 11 {
      var data := body + 12;
      SliceOfSlice(buf, pos, end, 3, 14);
      assert buf[data] == c[14];
      if IsLoopName(buf[body + 1..data]) && buf[data] == 3 && buf[data + 1] == 1 {
        SliceOfSlice(buf, pos, end, 14, 18);
        written := [EXTENSION, APPLICATION, 11] + buf[body + 1..data] + buf[data..data + 4] + [0];
      }
    }
    r := Ok((end, written));
  }

  /** What `Blocks` makes of the rest of the file, read at position `pos`. */
  lemma BlockAt(buf: seq<byte>, pos: nat, limits: Limits)
    requires pos <= |buf|
    ensures pos < |buf| && buf[pos] == TRAILER ==> Blocks(buf[pos..], limits) == Ok([])
    ensures !(pos < |buf| && buf[pos] == TRAILER) ==>
      match BlockLength(buf[pos..], limits)
      case Err(e) => Blocks(buf[pos..], limits) == Err(e)
      case Ok(n) => Blocks(buf[pos..], limits) == After([buf[pos..pos + n]], Blocks(buf[pos + n..], limits))
  {
    var b := buf[pos..];
    if BlockLength(b, limits).Ok? {
      var n := BlockLength(b, limits).value;
      assert b[..n] == buf[pos..pos + n] && b[n..] == buf[pos + n..];
    }
  }

  datatype Copied = Copied(end: nat, written: seq<byte>, image: bool)

  /** `k` is the block at `pos`, read and rewritten. */
  ghost predicate Copies(buf: seq<byte>, pos: nat, limits: Limits, k: Copied)
  {
    pos < k.end <= |buf| &&
    Blocks(buf[pos..], limits) == After([buf[pos..k.end]], Blocks(buf[k.end..], limits)) &&
    k.written == Written(buf[pos..k.end]) && k.image == IsImage(buf[pos..k.end])
  }

  /** The match on the first byte of a block, trailer aside. */
  method CopyBlock(buf: seq<byte>, pos: nat, limits: Limits) returns (r: Result<Copied>)
    requires pos <= |buf| && !(pos < |buf| && buf[pos] == TRAILER)
    ensures r.Err? ==> Blocks(buf[pos..], limits) == Err(r.error)
    ensures r.Ok? ==> Copies(buf, pos, limits, r.value)
  {
    BlockAt(buf, pos, limits);
    if pos == |buf| { return Err(Decode); }
    assert buf[pos..][0] == buf[pos];
    if buf[pos] == IMAGE {
      var image := ImageEnd(buf, pos, limits);
      if image.Err? { return Err(image.error); }
      var end := image.value;
      assert buf[pos..end][0] == IMAGE;
      r := Ok(Copied(end, buf[pos..end], true));
    } else if buf[pos] == EXTENSION {
      var extension := RebuildExtension(buf, pos, limits);
      if extension.Err? { return Err(extension.error); }
      assert buf[pos..extension.value.0][0] == EXTENSION;
      r := Ok(Copied(extension.value.0, extension.value.1, false));
    } else {
      r := Err(Decode);
    }
  }

  /** One more block read: what is written and counted for it. */
  lemma WriteStep(bs: seq<Block>, c: Block)
    ensures Join(WrittenAll(bs + [c])) == Join(WrittenAll(bs)) + Written(c)
    ensures |Images(bs + [c])| == |Images(bs)| + if IsImage(c) then 1 else 0
  {
    var more, done := bs + [c], WrittenAll(bs);
    assert more[..|more| - 1] == bs;
    if IsKept(c) {
      assert (done + [Written(c)])[..|done|] == done;
    } else {
      assert Join(done) + [] == Join(done);
    }
  }

  /** The blocks `bs` were read up to `pos`; `body` and `frames` are what they give. */
  ghost predicate Reads(buf: seq<byte>, start: nat, pos: nat, limits: Limits, bs: seq<Block>,
                        body: seq<byte>, frames: nat)
  {
    start <= pos <= |buf| &&
    Blocks(buf[start..], limits) == After(bs, Blocks(buf[pos..], limits)) &&
    body == Join(WrittenAll(bs)) && frames == |Images(bs)|
  }

  lemma ReadsOn(buf: seq<byte>, start: nat, pos: nat, limits: Limits, bs: seq<Block>,
                body: seq<byte>, frames: nat, k: Copied)
    requires Reads(buf, start, pos, limits, bs, body, frames) && Copies(buf, pos, limits, k)
    ensures Reads(buf, start, k.end, limits, bs + [buf[pos..k.end]], body + k.written,
                  if k.image then frames + 1 else frames)
  {
    var c := buf[pos..k.end];
    AfterAssociates(bs, [c], Blocks(buf[k.end..], limits));
    WriteStep(bs, c);
  }

  /** The loop of `walk_gif`. */
  method CopyBlocks(buf: seq<byte>, start: nat, limits: Limits) returns (r: Result<(seq<byte>, nat)>)
    requires start <= |buf|
    ensures match Blocks(buf[start..], limits)
      case Err(e) => r == Err(e)
      case Ok(bs) => r == Ok((Join(WrittenAll(bs)), |Images(bs)|))
  {
    var pos, frames := start, 0;
    var body: seq<byte> := [];
    ghost var bs: seq<Block> := [];
    AfterNothing(Blocks(buf[start..], limits));
    while true
      invariant pos <= |buf| && Reads(buf, start, pos, limits, bs, body, frames)
      decreases |buf| - pos
    {
      if pos < |buf| && buf[pos] == TRAILER {
        BlockAt(buf, pos, limits);
        AfterAll(bs);
        return Ok((body, frames));
      }
      var copied := CopyBlock(buf, pos, limits);
      if copied.Err? { return Err(copied.error); }
      ReadsOn(buf, start, pos, limits, bs, body, frames, copied.value);
      bs := bs + [buf[pos..copied.value.end]];
      body := body + copied.value.written;
      frames := if copied.value.image then frames + 1 else frames;
      pos := copied.value.end;
    }
  }

  /** `walk_gif`: for every byte string, the result of the specification. */
  method WalkGif(buf: seq<byte>, limits: Limits) returns (r: Result<(seq<byte>, nat)>)
    ensures r == Walk(buf, limits)
  {
    if |buf| < 13 { return Err(Decode); }
    var start := 13 + ColorTableLen(buf[10]);
    if start > |buf| { return Err(Decode); }
    var copied := CopyBlocks(buf, start, limits);
    r := match copied
      case Err(e) => Err(e)
      case Ok((body, frames)) => Ok((buf[..start] + body + [TRAILER], frames));
  }
}
