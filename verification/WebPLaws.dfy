/**
What the WebP walk keeps, drops, changes and refuses, over the codes and numbers as they stand in the
file (crates/core/files/src/sanitize.rs:501-616).
*/
module WebPLaws {
  import opened Arithmetic
  import opened Sequences
  import opened Bytes
  import opened WebP

  /** `WEBP_KEPT_CHUNKS`, as written. */
  predicate Listed(code: seq<byte>)
  {
    || code == Ascii("VP8X") || code == Ascii("VP8 ") || code == Ascii("VP8L") || code == Ascii("ALPH")
    || code == Ascii("ANIM") || code == Ascii("ANMF") || code == Ascii("ICCP")
  }

  /** `WEBP_FRAME_CHUNKS`, as written. */
  predicate ListedInFrame(code: seq<byte>)
  {
    code == Ascii("ALPH") || code == Ascii("VP8 ") || code == Ascii("VP8L")
  }

  lemma Codes()
    ensures Ascii("VP8X") == [86, 80, 56, 88] && Ascii("VP8 ") == [86, 80, 56, 32] && Ascii("VP8L") == [86, 80, 56, 76]
    ensures Ascii("ALPH") == [65, 76, 80, 72] && Ascii("ANIM") == [65, 78, 73, 77] && Ascii("ANMF") == [65, 78, 77, 70]
    ensures Ascii("ICCP") == [73, 67, 67, 80] && Ascii("EXIF") == [69, 88, 73, 70] && Ascii("XMP ") == [88, 77, 80, 32]
    ensures Ascii("RIFF") == [82, 73, 70, 70] && Ascii("WEBP") == [87, 69, 66, 80]
  {
  }

  /** The walker's kinds are the codes. */
  lemma KindsAreCodes(code: seq<byte>)
    ensures Listed(code) <==> !KindOf(code).Unknown?
    ensures ListedInFrame(code) <==> KindOf(code).ALPH? || KindOf(code).VP8? || KindOf(code).VP8L?
    ensures code == Ascii("VP8X") <==> KindOf(code).VP8X?
    ensures code == Ascii("ANMF") <==> KindOf(code).ANMF?
    ensures code == Ascii("ANIM") <==> KindOf(code).ANIM?
    ensures code == Ascii("EXIF") || code == Ascii("XMP ") ==> KindOf(code).Unknown?
  {
    Codes();
    if |code| == 4 { assert code == [code[0], code[1], code[2], code[3]]; }
  }

  /** Bits 2 and 3 are cleared, the other six are as they were. */
  predicate MetadataBitsCleared(was: byte, now: byte)
  {
    now % 4 == was % 4 && now / 4 % 4 == 0 && now / 16 == was / 16
  }

  function FrameList(cs: seq<Chunk>): seq<Chunk> { Filter(cs, (c: Chunk) => ListedInFrame(c.fourcc)) }

  function KeptList(cs: seq<Chunk>): seq<Chunk> { Filter(cs, (c: Chunk) => Listed(c.fourcc)) }

  /** What becomes of a listed chunk. */
  ghost predicate Becomes(c: Chunk, r: Chunk)
  {
    r.fourcc == c.fourcc &&
    if c.fourcc == Ascii("VP8X") then
      |r.payload| == |c.payload| > 0 && r.payload[1..] == c.payload[1..] &&
      MetadataBitsCleared(c.payload[0], r.payload[0])
    else if c.fourcc == Ascii("ANMF") then
      |c.payload| >= 16 && |r.payload| >= 16 && r.payload[..16] == c.payload[..16] &&
      RiffChunks(c.payload[16..]).Ok? &&
      RiffChunks(r.payload[16..]) == Ok(FrameList(RiffChunks(c.payload[16..]).value))
    else r == c
  }

  lemma ListsAgree(cs: seq<Chunk>)
    ensures Filter(cs, c => WebP.IsKept(c)) == KeptList(cs) && FrameChunks(cs) == FrameList(cs)
  {
    forall c: Chunk ensures IsKept(c) == Listed(c.fourcc) && IsFrameChunk(c) == ListedInFrame(c.fourcc) {
      KindsAreCodes(c.fourcc);
    }
    FilterSame(cs, c => WebP.IsKept(c), (c: Chunk) => Listed(c.fourcc));
    FilterSame(cs, c => IsFrameChunk(c), (c: Chunk) => ListedInFrame(c.fourcc));
  }

  lemma ReducesMeans(c: Chunk, r: Chunk)
    requires Reduces(c, r)
    ensures Becomes(c, r)
  {
    KindsAreCodes(c.fourcc);
    if KindIn(c).ANMF? { ListsAgree(RiffChunks(c.payload[16..]).value); }
  }

  /** An `ANIM` chunk, or bit 1 of the `VP8X` flags. */
  ghost predicate SaysAnimated(c: Chunk)
  {
    c.fourcc == Ascii("ANIM") || (c.fourcc == Ascii("VP8X") && |c.payload| > 0 && c.payload[0] / 2 % 2 == 1)
  }

  /** `rs` holds, in order, exactly the chunks of `cs` with a listed code: no `EXIF`, no `XMP `, nothing unknown. */
  ghost predicate HoldsListed(cs: seq<Chunk>, rs: seq<Chunk>)
  {
    && |rs| == |KeptList(cs)| && (forall i :: 0 <= i < |rs| ==> Becomes(KeptList(cs)[i], rs[i]))
    && (forall r :: r in rs ==> Listed(r.fourcc) && r.fourcc != Ascii("EXIF") && r.fourcc != Ascii("XMP "))
  }

  lemma CleanedMeans(cs: seq<Chunk>, rs: seq<Chunk>)
    requires Cleaned(cs, rs)
    ensures HoldsListed(cs, rs)
  {
    ListsAgree(cs);
    PairsBecome(KeptList(cs), rs);
    OnlyListed(KeptList(cs), rs);
  }

  lemma PairsBecome(kept: seq<Chunk>, rs: seq<Chunk>)
    requires |rs| == |kept| && forall i :: 0 <= i < |rs| ==> Reduces(kept[i], rs[i])
    ensures forall i :: 0 <= i < |rs| ==> Becomes(kept[i], rs[i])
  {
    forall i | 0 <= i < |rs| ensures Becomes(kept[i], rs[i]) { ReducesMeans(kept[i], rs[i]); }
  }

  lemma OnlyListed(kept: seq<Chunk>, rs: seq<Chunk>)
    requires |rs| == |kept| && forall i :: 0 <= i < |rs| ==> rs[i].fourcc == kept[i].fourcc
    requires forall c :: c in kept ==> Listed(c.fourcc)
    ensures forall r :: r in rs ==> Listed(r.fourcc) && r.fourcc != Ascii("EXIF") && r.fourcc != Ascii("XMP ")
  {
    forall r | r in rs ensures Listed(r.fourcc) && r.fourcc != Ascii("EXIF") && r.fourcc != Ascii("XMP ") {
      var i :| 0 <= i < |rs| && rs[i] == r;
      assert kept[i] in kept;
      KindsAreCodes(r.fourcc);
    }
  }

  lemma AnimatedMeans(cs: seq<Chunk>)
    ensures Animated(cs) <==> exists c :: c in cs && SaysAnimated(c)
  {
    forall c: Chunk ensures Animates(c) == SaysAnimated(c) { KindsAreCodes(c.fourcc); }
  }

  /**
  For every accepted input the output is a WebP file that holds exactly the listed chunks of the input, each as
  `Becomes` says, at the top level and inside frames; the flag is what the input's chunks say.
  */
  lemma OutputHoldsListed(buf: seq<byte>, width: nat, height: nat)
    requires Walk(buf, width, height).Ok?
    ensures var (out, animated) := Walk(buf, width, height).value;
      && FileChunks(buf).Ok? && FileChunks(out).Ok? && HoldsListed(FileChunks(buf).value, FileChunks(out).value)
      && |out| >= 12 && out[..4] == Ascii("RIFF") && out[8..12] == Ascii("WEBP")
      && (animated <==> exists c :: c in FileChunks(buf).value && SaysAnimated(c))
  {
    OutputIsCleanedInput(buf, width, height);
    OutputHeader(buf, width, height);
    CleanedMeans(FileChunks(buf).value, FileChunks(Walk(buf, width, height).value.0).value);
    AnimatedMeans(FileChunks(buf).value);
  }

  lemma OutputHeader(buf: seq<byte>, width: nat, height: nat)
    requires Walk(buf, width, height).Ok?
    ensures var out := Walk(buf, width, height).value.0;
      |out| >= 12 && out[..4] == Ascii("RIFF") && out[8..12] == Ascii("WEBP")
  {
    WalkParts(buf, width, height);
    Codes();
    var rs := CleanAll(FileChunks(buf).value, width, height).value;
    HeaderSlices(SizeField(4 + |EncodeAll(rs)|), EncodeAll(rs));
  }

  // ----- how a chunk is written -----

  /** Code, size, payload, and a zero byte behind an odd payload. */
  ghost predicate WrittenAs(c: Chunk, b: seq<byte>)
  {
    var n := |c.payload|;
    && |b| == 8 + n + n % 2 && b[..4] == c.fourcc && LittleEndian(b[4..8]) == n && b[8..8 + n] == c.payload
    && (n % 2 == 1 ==> b[8 + n] == 0)
  }

  lemma EncodeWrites(c: Chunk)
    requires Storable(c)
    ensures WrittenAs(c, Encode(c))
  {
    var b := Encode(c);
    assert b[4..8] == SizeField(|c.payload|);
    LeU32IsPositional(b[4..8]);
  }

  /** The chunks of an accepted walk's output lie behind its header as they are written, one after another. */
  lemma OutputIsWritten(buf: seq<byte>, width: nat, height: nat)
    requires Walk(buf, width, height).Ok?
    ensures var out := Walk(buf, width, height).value.0;
      && |out| >= 12 && FileChunks(out).Ok? && out[12..] == EncodeAll(FileChunks(out).value)
      && forall c :: c in FileChunks(out).value ==> WrittenAs(c, Encode(c))
  {
    WalkParts(buf, width, height);
    var rs := CleanAll(FileChunks(buf).value, width, height).value;
    PrintedFileIsRead(rs);
    HeaderSlices(SizeField(4 + |EncodeAll(rs)|), EncodeAll(rs));
    forall c | c in rs ensures WrittenAs(c, Encode(c)) { EncodeWrites(c); }
  }

  // ----- how a region splits -----

  /** Chunks one after another: a code, a size, little-endian, that many bytes, and a pad byte, optional at the end. */
  ghost predicate Follows(b: seq<byte>, cs: seq<Chunk>)
    decreases |cs|
  {
    if cs == [] then b == []
    else
      var n := |cs[0].payload|;
      && 8 + n <= |b| && cs[0].fourcc == b[..4] && LittleEndian(b[4..8]) == n && cs[0].payload == b[8..8 + n]
      && Follows(b[if 8 + n + n % 2 <= |b| then 8 + n + n % 2 else |b|..], cs[1..])
  }

  /** A region splits as `RiffChunks` says if and only if the chunks follow one another like that. */
  lemma {:induction false} SplitsIff(b: seq<byte>, cs: seq<Chunk>)
    ensures RiffChunks(b) == Ok(cs) <==> Follows(b, cs)
    decreases |b|
  {
    if |b| >= 8 {
      LeU32IsPositional(b[4..8]);
      var size := LeU32(b[4..8]);
      if 8 + size <= |b| {
        if cs != [] { SplitsIff(b[NextAt(b, size)..], cs[1..]); }
        SplitStep(b, cs, size);
        FollowsStep(b, cs, size);
      }
    }
  }

  lemma FollowsStep(b: seq<byte>, cs: seq<Chunk>, size: nat)
    requires 8 <= |b| && size == LittleEndian(b[4..8]) && 8 + size <= |b|
    ensures Follows(b, cs) <==>
      cs != [] && cs[0] == Chunk(b[..4], b[8..8 + size]) && Follows(b[NextAt(b, size)..], cs[1..])
  {
    if cs != [] && |cs[0].payload| == size {
      var n := size;
      assert NextAt(b, n) == if 8 + n + n % 2 <= |b| then 8 + n + n % 2 else |b|;
    }
  }

  lemma SplitStep(b: seq<byte>, cs: seq<Chunk>, size: nat)
    requires 8 <= |b| && size == LeU32(b[4..8]) && 8 + size <= |b|
    ensures RiffChunks(b) == Ok(cs) <==>
      cs != [] && cs[0] == Chunk(b[..4], b[8..8 + size]) && RiffChunks(b[NextAt(b, size)..]) == Ok(cs[1..])
  {
    if cs != [] { assert cs == [cs[0]] + cs[1..]; }
  }

  // ----- what is refused -----

  /** The frame header's x, y, width and height, 24 bits each, the first two halved and the last two less one. */
  ghost predicate FrameFits(payload: seq<byte>, width: nat, height: nat)
  {
    && |payload| >= 16
    && 2 * LittleEndian(payload[0..3]) + LittleEndian(payload[6..9]) + 1 <= width
    && 2 * LittleEndian(payload[3..6]) + LittleEndian(payload[9..12]) + 1 <= height
  }

  ghost predicate Fine(c: Chunk, width: nat, height: nat)
  {
    && (c.fourcc == Ascii("VP8X") ==> |c.payload| >= 10)
    && (c.fourcc == Ascii("ANMF") ==> FrameFits(c.payload, width, height) && RiffChunks(c.payload[16..]).Ok?)
  }

  lemma CleanedIff(c: Chunk, width: nat, height: nat)
    ensures CleanChunk(c, width, height).Ok? <==> Fine(c, width, height)
  {
    KindsAreCodes(c.fourcc);
    if KindIn(c).ANMF? && |c.payload| >= 16 {
      LeU24IsPositional(c.payload[0..3]);
      LeU24IsPositional(c.payload[3..6]);
      LeU24IsPositional(c.payload[6..9]);
      LeU24IsPositional(c.payload[9..12]);
    }
  }

  lemma {:induction false} AllCleanedIff(cs: seq<Chunk>, width: nat, height: nat)
    ensures CleanAll(cs, width, height).Ok? <==> forall c :: c in cs ==> Fine(c, width, height)
  {
    if cs != [] {
      var prefix, last := cs[..|cs| - 1], cs[|cs| - 1];
      AllCleanedIff(prefix, width, height);
      CleanedIff(last, width, height);
      assert cs == prefix + [last];
    }
  }

  /** The announced end of the file lies in it, past the twelve bytes of the header. */
  ghost predicate EndsInside(buf: seq<byte>)
  {
    |buf| >= 12 && 12 <= 8 + LittleEndian(buf[4..8]) <= |buf|
  }

  /**
  A file is accepted if and only if its announced end lies inside it, the bytes up to there split into chunks, no
  `VP8X` is short, every `ANMF` frame fits the canvas and splits into chunks, and what is kept has a 32-bit length.
  */
  lemma AcceptedIff(buf: seq<byte>, width: nat, height: nat)
    ensures Walk(buf, width, height).Ok? <==>
      && EndsInside(buf) && RiffChunks(buf[12..8 + LittleEndian(buf[4..8])]).Ok?
      && var cs := RiffChunks(buf[12..8 + LittleEndian(buf[4..8])]).value;
      && (forall c :: c in cs ==> Fine(c, width, height))
      && CleanAll(cs, width, height).Ok? && 4 + |EncodeAll(CleanAll(cs, width, height).value)| < TWO_32
  {
    if |buf| >= 12 { LeU32IsPositional(buf[4..8]); }
    if FileChunks(buf).Ok? { AllCleanedIff(FileChunks(buf).value, width, height); }
  }

  lemma {:induction false} SplitErrors(b: seq<byte>)
    ensures RiffChunks(b).Err? ==> RiffChunks(b) == Err(Decode)
    decreases |b|
  {
    if |b| >= 8 && 8 + LeU32(b[4..8]) <= |b| { SplitErrors(b[NextAt(b, LeU32(b[4..8]))..]); }
  }

  lemma {:induction false} CleanErrors(cs: seq<Chunk>, width: nat, height: nat)
    ensures CleanAll(cs, width, height).Err? ==> CleanAll(cs, width, height) == Err(Decode)
  {
    if cs != [] {
      var last := cs[|cs| - 1];
      CleanErrors(cs[..|cs| - 1], width, height);
      if |last.payload| >= 16 { SplitErrors(last.payload[16..]); }
    }
  }

  /** Every refusal is the same. */
  lemma RefusedAsUndecodable(buf: seq<byte>, width: nat, height: nat)
    requires Walk(buf, width, height).Err?
    ensures Walk(buf, width, height) == Err(Decode)
  {
    if RiffEnd(buf).Ok? { SplitErrors(buf[12..RiffEnd(buf).value]); }
    if FileChunks(buf).Ok? { CleanErrors(FileChunks(buf).value, width, height); }
  }
}
