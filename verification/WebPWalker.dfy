/** `walk_webp` and its helpers as they run: a cursor over the input and a growing output. */
module WebPWalker {
  import opened Arithmetic
  import opened Sequences
  import opened Bytes
  import opened WebP

  /** The position after a chunk and its pad byte, which the last chunk may lack. */
  function NextPos(pos: nat, size: nat, end: nat): (r: nat)
    requires pos + 8 + size <= end
    ensures pos + 8 <= r <= end
  {
    if pos + 8 + size + size % 2 < end then pos + 8 + size + size % 2 else end
  }

  /** What the chunk list of a region is, read at position `pos`. */
  lemma RiffAt(buf: seq<byte>, pos: nat, end: nat)
    requires pos < end <= |buf|
    ensures pos + 8 > end ==> RiffChunks(buf[pos..end]) == Err(Decode)
    ensures pos + 8 <= end ==>
      var size := LeU32(buf[pos + 4..pos + 8]);
      (pos + 8 + size > end ==> RiffChunks(buf[pos..end]) == Err(Decode)) &&
      (pos + 8 + size <= end ==>
        RiffChunks(buf[pos..end])
          == After([Chunk(buf[pos..pos + 4], buf[pos + 8..pos + 8 + size])],
                   RiffChunks(buf[NextPos(pos, size, end)..end])))
  {
    var b := buf[pos..end];
    if pos + 8 <= end {
      SliceOfSlice(buf, pos, end, 4, 8);
      var size := LeU32(buf[pos + 4..pos + 8]);
      if pos + 8 + size <= end {
        RegionSlices(buf, pos, end, size);
        RiffUnfold(b, size);
      }
    }
  }

  lemma RiffUnfold(b: seq<byte>, size: nat)
    requires |b| >= 8 && LeU32(b[4..8]) == size && 8 + size <= |b|
    ensures RiffChunks(b) == After([Chunk(b[..4], b[8..8 + size])], RiffChunks(b[NextAt(b, size)..]))
  {
  }

  lemma RegionSlices(buf: seq<byte>, pos: nat, end: nat, size: nat)
    requires pos + 8 + size <= end <= |buf|
    ensures var b := buf[pos..end];
      b[..4] == buf[pos..pos + 4] && b[8..8 + size] == buf[pos + 8..pos + 8 + size] &&
      b[NextAt(b, size)..] == buf[NextPos(pos, size, end)..end]
  {
    var b := buf[pos..end];
    SliceOfSlice(buf, pos, end, 0, 4);
    SliceOfSlice(buf, pos, end, 8, 8 + size);
    SliceOfSlice(buf, pos, end, NextAt(b, size), |b|);
    assert b[..4] == b[0..4] && b[NextAt(b, size)..] == b[NextAt(b, size)..|b|];
    assert pos + NextAt(b, size) == NextPos(pos, size, end);
  }

  /** `riff_chunks`. */
  method SplitChunks(buf: seq<byte>, start: nat, end: nat) returns (r: Result<seq<Chunk>>)
    requires start <= end <= |buf|
    ensures r == RiffChunks(buf[start..end])
  {
    var chunks: seq<Chunk> := [];
    var pos := start;
    AfterNothing(RiffChunks(buf[start..end]));
    while pos < end
      invariant start <= pos <= end
      invariant RiffChunks(buf[start..end]) == After(chunks, RiffChunks(buf[pos..end]))
    {
      RiffAt(buf, pos, end);
      var headerEnd := pos + 8;
      if headerEnd > end { return Err(Decode); }
      var size := LeU32(buf[pos + 4..headerEnd]);
      var payloadEnd := headerEnd + size;
      if payloadEnd > end { return Err(Decode); }
      var chunk := Chunk(buf[pos..pos + 4], buf[headerEnd..payloadEnd]);
      var next := NextPos(pos, size, end);
      AfterAssociates(chunks, [chunk], RiffChunks(buf[next..end]));
      chunks := chunks + [chunk];
      pos := next;
    }
    r := Ok(chunks);
    AfterAll(chunks);
  }

  /** `push_riff_chunk`, on the bytes written so far. */
  method PushChunk(out: seq<byte>, c: Chunk) returns (grown: seq<byte>)
    ensures grown == out + Encode(c)
  {
    grown := out + c.fourcc;
    grown := grown + LeBytes(CastU32(|c.payload|));
    grown := grown + c.payload;
    if |c.payload| % 2 == 1 { grown := grown + [0]; }
    SizeFieldIsLeBytes(|c.payload|);
    PushedBytes(out, c.fourcc, LeBytes(CastU32(|c.payload|)), c.payload, PadTo(|c.payload|));
  }

  lemma PushedBytes(out: seq<byte>, code: seq<byte>, size: seq<byte>, payload: seq<byte>, pad: seq<byte>)
    ensures out + code + size + payload + pad == out + (code + size + payload + pad)
    ensures out + code + size + payload + [] == out + code + size + payload
  {
  }

  /** The inner loop of the ANMF arm. */
  method CopyFrameChunks(inner: seq<Chunk>) returns (body: seq<byte>)
    ensures body == EncodeAll(FrameChunks(inner))
  {
    body := [];
    for i := 0 to |inner|
      invariant body == EncodeAll(FrameChunks(inner[..i]))
    {
      FrameStep(inner, i);
      if IsFrameChunk(inner[i]) {
        EncodeSnoc(FrameChunks(inner[..i]), inner[i]);
        body := PushChunk(body, inner[i]);
      }
    }
    assert inner[..|inner|] == inner;
  }

  /** The ANMF arm: the frame header and the frame's own image chunks. */
  method RebuildFrame(payload: seq<byte>) returns (r: Result<seq<byte>>)
    requires |payload| >= 16
    ensures r ==
      match RiffChunks(payload[16..])
      case Err(e) => Err(e)
      case Ok(inner) => Ok(payload[..16] + EncodeAll(FrameChunks(inner)))
  {
    var split := SplitChunks(payload, 16, |payload|);
    assert payload[16..|payload|] == payload[16..];
    if split.Err? { return Err(split.error); }
    var body := CopyFrameChunks(split.value);
    r := Ok(payload[..16] + body);
  }

  lemma FrameStep(inner: seq<Chunk>, i: nat)
    requires i < |inner|
    ensures IsFrameChunk(inner[i]) ==> FrameChunks(inner[..i + 1]) == FrameChunks(inner[..i]) + [inner[i]]
    ensures !IsFrameChunk(inner[i]) ==> FrameChunks(inner[..i + 1]) == FrameChunks(inner[..i])
  {
    assert inner[..i + 1][..i] == inner[..i];
  }

  lemma EncodeSnoc(cs: seq<Chunk>, c: Chunk)
    ensures EncodeAll(cs + [c]) == EncodeAll(cs) + Encode(c)
  {
    assert (cs + [c])[..|cs|] == cs;
  }

  /** One arm of the match: the chunk to write, if any. */
  method CleanOne(c: Chunk, width: nat, height: nat) returns (r: Result<Option<Chunk>>)
    ensures r == CleanChunk(c, width, height)
  {
    match KindIn(c) {
      case VP8X =>
        if |c.payload| < 10 { return Err(Decode); }
        r := Ok(Some(Chunk(c.fourcc, c.payload[0 := ClearMetadataBits(c.payload[0])])));
      case ANMF =>
        if |c.payload| < 16 || !InsideCanvas(c.payload, width, height) { return Err(Decode); }
        var frame := RebuildFrame(c.payload);
        r := match frame case Err(e) => Err(e) case Ok(bytes) => Ok(Some(Chunk(c.fourcc, bytes)));
      case Unknown => r := Ok(None);
      case _ => r := Ok(Some(c));
    }
  }

  /** A refusal by any prefix is the refusal of the whole list. */
  lemma {:induction false} CleanFailsEarly(cs: seq<Chunk>, i: nat, width: nat, height: nat)
    requires i <= |cs| && CleanAll(cs[..i], width, height).Err?
    ensures CleanAll(cs, width, height) == CleanAll(cs[..i], width, height)
  {
    if i < |cs| {
      assert cs[..|cs| - 1][..i] == cs[..i];
      CleanFailsEarly(cs[..|cs| - 1], i, width, height);
    } else {
      assert cs[..i] == cs;
    }
  }

  lemma AnimatedStep(cs: seq<Chunk>, i: nat)
    requires i < |cs|
    ensures Animated(cs[..i + 1]) <==> Animated(cs[..i]) || Animates(cs[i])
  {
    assert cs[..i + 1] == cs[..i] + [cs[i]];
  }

  /** `walk_webp`: for every byte string, the result of the specification. */
  method WalkWebP(buf: seq<byte>, width: nat, height: nat) returns (r: Result<(seq<byte>, bool)>)
    ensures r == Walk(buf, width, height)
  {
    if |buf| < 12 { return Err(Decode); }
    var riffEnd := 8 + LeU32(buf[4..8]);
    if riffEnd > |buf| || riffEnd < 12 { return Err(Decode); }
    var split := SplitChunks(buf, 12, riffEnd);
    if split.Err? { return Err(split.error); }
    var cs := split.value;

    var body: seq<byte> := [];
    var animated := false;
    ghost var kept: seq<Chunk> := [];
    for i := 0 to |cs|
      invariant CleanAll(cs[..i], width, height) == Ok(kept)
      invariant body == EncodeAll(kept)
      invariant animated <==> Animated(cs[..i])
    {
      assert cs[..i + 1][..i] == cs[..i];
      AnimatedStep(cs, i);
      var clean := CleanOne(cs[i], width, height);
      if clean.Err? {
        CleanFailsEarly(cs, i + 1, width, height);
        return Err(clean.error);
      }
      if Animates(cs[i]) { animated := true; }
      if clean.value.Some? {
        EncodeSnoc(kept, clean.value.value);
        body := PushChunk(body, clean.value.value);
        kept := kept + [clean.value.value];
      }
    }
    assert cs[..|cs|] == cs;
    var riffSize := 4 + |body|;
    if riffSize >= TWO_32 { return Err(Decode); }
    SizeFieldIsLeBytes(riffSize);
    r := Ok((RIFF + LeBytes(riffSize) + WEBP + body, animated));
  }
}
