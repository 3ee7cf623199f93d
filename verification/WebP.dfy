/**
The WebP walker (crates/core/files/src/sanitize.rs:501-616): RIFF chunks as in
sections 2.3 to 2.7 of RFC 9649, split, cleaned and written back.
*/
module WebP {
  import opened Arithmetic
  import opened Sequences
  import opened Bytes

  datatype Chunk = Chunk(fourcc: seq<byte>, payload: seq<byte>)

  const RIFF: seq<byte> := [82, 73, 70, 70]
  const WEBP: seq<byte> := [87, 69, 66, 80]

  /** The chunks the walker knows by name; every other one is `Unknown`. */
  datatype Kind = VP8X | VP8 | VP8L | ALPH | ANIM | ANMF | ICCP | Unknown

  function KindOf(fourcc: seq<byte>): (k: Kind)
  {
    if fourcc == [86, 80, 56, 88] then VP8X
    else if fourcc == [86, 80, 56, 32] then VP8
    else if fourcc == [86, 80, 56, 76] then VP8L
    else if fourcc == [65, 76, 80, 72] then ALPH
    else if fourcc == [65, 78, 73, 77] then ANIM
    else if fourcc == [65, 78, 77, 70] then ANMF
    else if fourcc == [73, 67, 67, 80] then ICCP
    else Unknown
  }

  function KindIn(c: Chunk): (k: Kind) { KindOf(c.fourcc) }

  /** `WEBP_KEPT_CHUNKS`. */
  predicate IsKept(c: Chunk) { !KindIn(c).Unknown? }

  /** `WEBP_FRAME_CHUNKS`. */
  predicate IsFrameChunk(c: Chunk) { KindIn(c).ALPH? || KindIn(c).VP8? || KindIn(c).VP8L? }

  /** Bit 1 of the VP8X flags, `VP8X_ANIMATION`. */
  predicate AnimationBit(flags: byte) { flags / 2 % 2 == 1 }

  /** Clears bits 2 and 3, `VP8X_XMP | VP8X_EXIF`, and keeps the other six. */
  function ClearMetadataBits(flags: byte): (r: byte)
    ensures r % 4 == flags % 4 && r / 16 == flags / 16 && r / 4 % 4 == 0
  {
    flags / 16 * 16 + flags % 4
  }

  // ----- chunk lists and bytes -----

  /** The length a size takes once padded to even. */
  function Padded(n: nat): (r: nat)
    ensures r == n || r == n + 1
    ensures r % 2 == 0
  {
    n + n % 2
  }

  /** Where the chunk after the first one of `b` starts; the final pad byte may be missing. */
  function NextAt(b: seq<byte>, size: nat): (r: nat)
    requires 8 + size <= |b|
    ensures 8 + size <= r <= |b|
    ensures r < |b| ==> r == 8 + Padded(size)
    ensures 8 + Padded(size) <= r + 1
  {
    if 8 + Padded(size) < |b| then 8 + Padded(size) else |b|
  }

  /** `riff_chunks` on the bytes of its region. */
  function RiffChunks(b: seq<byte>): (r: Result<seq<Chunk>>)
    decreases |b|
  {
    if |b| == 0 then Ok([])
    else if |b| < 8 then Err(Decode)
    else
      var size := LeU32(b[4..8]);
      if 8 + size > |b| then Err(Decode)
      else
        match RiffChunks(b[NextAt(b, size)..])
        case Err(e) => Err(e)
        case Ok(rest) => Ok([Chunk(b[..4], b[8..8 + size])] + rest)
  }

  function PadTo(n: nat): (r: seq<byte>) { if n % 2 == 1 then [0] else [] }

  /** What `push_riff_chunk` appends. */
  ghost function Encode(c: Chunk): (r: seq<byte>)
  {
    c.fourcc + SizeField(|c.payload|) + c.payload + PadTo(|c.payload|)
  }

  ghost function EncodeAll(cs: seq<Chunk>): (r: seq<byte>)
  {
    if cs == [] then [] else EncodeAll(cs[..|cs| - 1]) + Encode(cs[|cs| - 1])
  }

  /** A chunk a RIFF file can hold: a four byte code and a size that fits its field. */
  predicate Storable(c: Chunk) { |c.fourcc| == 4 && |c.payload| < TWO_32 }

  predicate AllStorable(cs: seq<Chunk>) { forall c :: c in cs ==> Storable(c) }

  // ----- the walk -----

  function FrameChunks(inner: seq<Chunk>): (r: seq<Chunk>)
    ensures forall c :: c in r <==> c in inner && IsFrameChunk(c)
  {
    Filter(inner, c => IsFrameChunk(c))
  }

  /** The frame rectangle of an ANMF payload lies inside the canvas. */
  predicate InsideCanvas(payload: seq<byte>, width: nat, height: nat)
    requires |payload| >= 16
  {
    2 * LeU24(payload[0..3]) + LeU24(payload[6..9]) + 1 <= width &&
    2 * LeU24(payload[3..6]) + LeU24(payload[9..12]) + 1 <= height
  }

  /** One top-level chunk: refused, dropped (`None`), or the chunk written in its place. */
  ghost function CleanChunk(c: Chunk, width: nat, height: nat): (r: Result<Option<Chunk>>)
  {
    if KindIn(c).VP8X? then
      if |c.payload| < 10 then Err(Decode)
      else Ok(Some(Chunk(c.fourcc, c.payload[0 := ClearMetadataBits(c.payload[0])])))
    else if KindIn(c).ANMF? then
      if |c.payload| < 16 || !InsideCanvas(c.payload, width, height) then Err(Decode)
      else
        match RiffChunks(c.payload[16..])
        case Err(e) => Err(e)
        case Ok(inner) => Ok(Some(Chunk(c.fourcc, c.payload[..16] + EncodeAll(FrameChunks(inner)))))
    else if IsKept(c) then Ok(Some(c))
    else Ok(None)
  }

  ghost function CleanAll(cs: seq<Chunk>, width: nat, height: nat): (r: Result<seq<Chunk>>)
  {
    if cs == [] then Ok([])
    else
      match CleanAll(cs[..|cs| - 1], width, height)
      case Err(e) => Err(e)
      case Ok(done) =>
        match CleanChunk(cs[|cs| - 1], width, height)
        case Err(e) => Err(e)
        case Ok(None) => Ok(done)
        case Ok(Some(c)) => Ok(done + [c])
  }

  /** An ANIM chunk, or the VP8X flag, says the file is animated. */
  predicate Animates(c: Chunk)
  {
    KindIn(c).ANIM? || (KindIn(c).VP8X? && |c.payload| > 0 && AnimationBit(c.payload[0]))
  }

  predicate Animated(cs: seq<Chunk>) { exists c :: c in cs && Animates(c) }

  ghost function FileBytes(cs: seq<Chunk>): (r: seq<byte>)
    requires 4 + |EncodeAll(cs)| < TWO_32
  {
    RIFF + SizeField(4 + |EncodeAll(cs)|) + WEBP + EncodeAll(cs)
  }

  /** The end of the RIFF region announced by the header, when the file holds all of it. */
  function RiffEnd(buf: seq<byte>): (r: Result<nat>)
    ensures r.Ok? ==> 12 <= r.value <= |buf|
  {
    if |buf| < 12 then Err(Decode)
    else
      var end := 8 + LeU32(buf[4..8]);
      if end > |buf| || end < 12 then Err(Decode) else Ok(end)
  }

  /** The chunks of a file: those between the header and the announced end. */
  function FileChunks(buf: seq<byte>): (r: Result<seq<Chunk>>)
  {
    match RiffEnd(buf)
    case Err(e) => Err(e)
    case Ok(end) => RiffChunks(buf[12..end])
  }

  /** `walk_webp`. */
  ghost function Walk(buf: seq<byte>, width: nat, height: nat): (r: Result<(seq<byte>, bool)>)
  {
    match FileChunks(buf)
    case Err(e) => Err(e)
    case Ok(cs) =>
      match CleanAll(cs, width, height)
      case Err(e) => Err(e)
      case Ok(kept) =>
        if 4 + |EncodeAll(kept)| >= TWO_32 then Err(Decode)
        else Ok((FileBytes(kept), Animated(cs)))
  }

  // ----- printing and parsing -----

  lemma {:induction false} EncodeConcat(a: seq<Chunk>, b: seq<Chunk>)
    ensures EncodeAll(a + b) == EncodeAll(a) + EncodeAll(b)
  {
    if b == [] {
      assert a + b == a;
    } else {
      var prefix, last := b[..|b| - 1], b[|b| - 1];
      assert (a + b)[..|a + b| - 1] == a + prefix;
      EncodeConcat(a, prefix);
      Associative(EncodeAll(a), EncodeAll(prefix), Encode(last));
    }
  }

  lemma EncodeCons(c: Chunk, cs: seq<Chunk>)
    ensures EncodeAll([c] + cs) == Encode(c) + EncodeAll(cs)
  {
    EncodeConcat([c], cs);
    assert [c][..0] == [] && EncodeAll([c]) == [] + Encode(c);
  }

  lemma EncodeLength(c: Chunk)
    requires |c.fourcc| == 4
    ensures |Encode(c)| == 8 + Padded(|c.payload|)
  {
  }

  /** A printed chunk is read back, whatever follows it. */
  lemma ParseOne(c: Chunk, rest: seq<byte>)
    requires Storable(c)
    ensures RiffChunks(Encode(c) + rest) ==
      match RiffChunks(rest) case Err(e) => Err(e) case Ok(cs) => Ok([c] + cs)
  {
    var b := Encode(c) + rest;
    EncodeLength(c);
    assert b[4..8] == SizeField(|c.payload|);
    assert b[..4] == c.fourcc;
    assert b[8..8 + |c.payload|] == c.payload;
    assert b[|Encode(c)|..] == rest;
  }

  /** Printing a chunk list and parsing it returns the list. */
  lemma {:induction false} ParsePrinted(cs: seq<Chunk>)
    requires AllStorable(cs)
    ensures RiffChunks(EncodeAll(cs)) == Ok(cs)
  {
    if cs != [] {
      assert cs == [cs[0]] + cs[1..];
      EncodeCons(cs[0], cs[1..]);
      ParsePrinted(cs[1..]);
      ParseOne(cs[0], EncodeAll(cs[1..]));
    }
  }

  lemma {:induction false} ParsedAreStorable(b: seq<byte>)
    ensures RiffChunks(b).Ok? ==> AllStorable(RiffChunks(b).value)
    decreases |b|
  {
    if |b| >= 8 {
      var size := LeU32(b[4..8]);
      if 8 + size <= |b| {
        ParsedAreStorable(b[NextAt(b, size)..]);
      }
    }
  }

  /** A printed list has even length. */
  lemma {:induction false} EncodedHalf(cs: seq<Chunk>) returns (half: nat)
    requires forall c :: c in cs ==> |c.fourcc| == 4
    ensures |EncodeAll(cs)| == 2 * half
  {
    if cs == [] {
      half := 0;
    } else {
      var last := cs[|cs| - 1];
      half := EncodedHalf(cs[..|cs| - 1]);
      assert last in cs;
      EncodeLength(last);
      half := half + 4 + Padded(|last.payload|) / 2;
    }
  }

  // ----- what the cleaned list is -----

  /** How a kept chunk relates to the chunk written for it. */
  ghost predicate Reduces(c: Chunk, r: Chunk)
  {
    r.fourcc == c.fourcc &&
    if KindIn(c).VP8X? then
      |r.payload| == |c.payload| > 0 && r.payload[1..] == c.payload[1..] &&
      r.payload[0] == ClearMetadataBits(c.payload[0])
    else if KindIn(c).ANMF? then
      |c.payload| >= 16 && |r.payload| >= 16 && r.payload[..16] == c.payload[..16] &&
      RiffChunks(c.payload[16..]).Ok? &&
      RiffChunks(r.payload[16..]) == Ok(FrameChunks(RiffChunks(c.payload[16..]).value))
    else r == c
  }

  /** `rs` is `cs` with the chunks that are not kept left out and every other one reduced, in order. */
  ghost predicate Cleaned(cs: seq<Chunk>, rs: seq<Chunk>)
  {
    var kept := Filter(cs, c => IsKept(c));
    |rs| == |kept| && forall i :: 0 <= i < |rs| ==> Reduces(kept[i], rs[i])
  }

  lemma FrameIsRead(c: Chunk, width: nat, height: nat)
    requires KindIn(c).ANMF? && CleanChunk(c, width, height).Ok?
    ensures var r := CleanChunk(c, width, height).value;
      r.Some? && Reduces(c, r.value)
  {
    var inner := RiffChunks(c.payload[16..]).value;
    var frame := c.payload[..16] + EncodeAll(FrameChunks(inner));
    ParsedAreStorable(c.payload[16..]);
    ParsePrinted(FrameChunks(inner));
    assert frame[16..] == EncodeAll(FrameChunks(inner));
    assert frame[..16] == c.payload[..16];
  }

  /** The chunk written in place of `c` is a reduction of it, and there is one exactly when `c` is kept. */
  lemma CleanReduces(c: Chunk, width: nat, height: nat)
    requires CleanChunk(c, width, height).Ok?
    ensures var r := CleanChunk(c, width, height).value;
      (r.Some? <==> IsKept(c)) && (r.Some? ==> Reduces(c, r.value))
  {
    if KindIn(c).ANMF? { FrameIsRead(c, width, height); }
  }

  lemma {:induction false} CleanAllCleans(cs: seq<Chunk>, width: nat, height: nat)
    requires CleanAll(cs, width, height).Ok?
    ensures Cleaned(cs, CleanAll(cs, width, height).value)
  {
    if cs != [] {
      var prefix, last := cs[..|cs| - 1], cs[|cs| - 1];
      CleanAllCleans(prefix, width, height);
      CleanReduces(last, width, height);
    }
  }

  lemma SameHeaderSameCanvas(p: seq<byte>, q: seq<byte>, width: nat, height: nat)
    requires |p| >= 16 && |q| >= 16 && p[..16] == q[..16]
    ensures InsideCanvas(p, width, height) <==> InsideCanvas(q, width, height)
  {
    forall i, j | 0 <= i <= j <= 16 ensures p[i..j] == q[i..j] {
      assert p[i..j] == p[..16][i..j] && q[i..j] == q[..16][i..j];
    }
  }

  lemma FrameIsStable(c: Chunk, width: nat, height: nat)
    requires KindIn(c).ANMF? && CleanChunk(c, width, height).Ok?
    ensures var r := CleanChunk(c, width, height).value;
      r.Some? && CleanChunk(r.value, width, height) == Ok(Some(r.value))
  {
    FrameIsRead(c, width, height);
    var r := CleanChunk(c, width, height).value.value;
    var kept := FrameChunks(RiffChunks(c.payload[16..]).value);
    FilterOfKept(kept);
    SameHeaderSameCanvas(r.payload, c.payload, width, height);
    assert r.payload == r.payload[..16] + EncodeAll(kept);
  }

  lemma CleanIsStable(c: Chunk, width: nat, height: nat)
    requires CleanChunk(c, width, height).Ok? && CleanChunk(c, width, height).value.Some?
    ensures var r := CleanChunk(c, width, height).value.value;
      CleanChunk(r, width, height) == Ok(Some(r)) && (Animates(r) <==> Animates(c))
  {
    if KindIn(c).VP8X? {
      ClearIsStable(c.payload[0]);
      var r := CleanChunk(c, width, height).value.value;
      assert r.payload[0 := ClearMetadataBits(r.payload[0])] == r.payload;
    } else if KindIn(c).ANMF? {
      FrameIsStable(c, width, height);
    }
  }

  lemma ClearIsStable(flags: byte)
    ensures ClearMetadataBits(ClearMetadataBits(flags)) == ClearMetadataBits(flags)
    ensures AnimationBit(ClearMetadataBits(flags)) <==> AnimationBit(flags)
  {
    var r: int := ClearMetadataBits(flags);
    assert r / 2 % 2 == r % 4 / 2 && flags / 2 % 2 == flags % 4 / 2;
  }

  lemma {:induction false} FilterOfKept(cs: seq<Chunk>)
    requires forall c :: c in cs ==> IsFrameChunk(c)
    ensures FrameChunks(cs) == cs
  {
    if cs != [] {
      FilterOfKept(cs[..|cs| - 1]);
      assert cs == cs[..|cs| - 1] + [cs[|cs| - 1]];
      assert cs[|cs| - 1] in cs;
    }
  }

  /** Cleaning a cleaned list changes nothing, and it says the same about animation. */
  lemma {:induction false} CleanAllIsStable(cs: seq<Chunk>, width: nat, height: nat)
    requires CleanAll(cs, width, height).Ok?
    ensures var rs := CleanAll(cs, width, height).value;
      CleanAll(rs, width, height) == Ok(rs) && (Animated(rs) <==> Animated(cs))
  {
    if cs != [] {
      var prefix, last := cs[..|cs| - 1], cs[|cs| - 1];
      CleanAllIsStable(prefix, width, height);
      var done, rs := CleanAll(prefix, width, height).value, CleanAll(cs, width, height).value;
      assert cs == prefix + [last];
      var r := CleanChunk(last, width, height).value;
      CleanReduces(last, width, height);
      if r.Some? {
        CleanIsStable(last, width, height);
        assert rs == done + [r.value] && rs[..|rs| - 1] == done;
      }
    }
  }

  // ----- lengths -----

  lemma {:induction false} CleanAllLength(cs: seq<Chunk>, width: nat, height: nat)
    requires AllStorable(cs) && CleanAll(cs, width, height).Ok?
    ensures var rs := CleanAll(cs, width, height).value;
      (forall r :: r in rs ==> |r.fourcc| == 4) && |EncodeAll(rs)| <= |EncodeAll(cs)|
  {
    if cs != [] {
      var prefix, last := cs[..|cs| - 1], cs[|cs| - 1];
      assert last in cs;
      CleanAllLength(prefix, width, height);
      var rs := CleanAll(cs, width, height).value;
      if CleanChunk(last, width, height).value.Some? {
        var r := CleanChunk(last, width, height).value.value;
        CleanLength(last, r, width, height);
        EncodeLength(last);
        EncodeLength(r);
        assert rs[..|rs| - 1] == CleanAll(prefix, width, height).value;
      }
    }
  }

  /** The bytes a region parses to, printed with every pad byte, exceed the region by at most one. */
  lemma {:induction false} ParsedLength(b: seq<byte>)
    requires RiffChunks(b).Ok?
    ensures |EncodeAll(RiffChunks(b).value)| <= |b| + 1
    decreases |b|
  {
    if |b| > 0 {
      var size := LeU32(b[4..8]);
      var next := NextAt(b, size);
      var rest := RiffChunks(b[next..]).value;
      ParsedLength(b[next..]);
      FirstParsed(b, rest);
    }
  }

  lemma FirstParsed(b: seq<byte>, rest: seq<Chunk>)
    requires |b| >= 8 && 8 + LeU32(b[4..8]) <= |b|
    requires RiffChunks(b[NextAt(b, LeU32(b[4..8]))..]) == Ok(rest)
    requires |EncodeAll(rest)| <= |b| - NextAt(b, LeU32(b[4..8])) + 1
    ensures RiffChunks(b).Ok? && |EncodeAll(RiffChunks(b).value)| <= |b| + 1
  {
    var size := LeU32(b[4..8]);
    var c := Chunk(b[..4], b[8..8 + size]);
    EncodeCons(c, rest);
    EncodeLength(c);
    if NextAt(b, size) == |b| { assert rest == []; }
  }

  lemma {:induction false} FilterShortens(cs: seq<Chunk>)
    ensures |EncodeAll(FrameChunks(cs))| <= |EncodeAll(cs)|
  {
    if cs != [] {
      FilterShortens(cs[..|cs| - 1]);
      var kept := FrameChunks(cs[..|cs| - 1]);
      if IsFrameChunk(cs[|cs| - 1]) {
        assert FrameChunks(cs) == kept + [cs[|cs| - 1]];
        assert (kept + [cs[|cs| - 1]])[..|kept|] == kept;
      } else {
        assert FrameChunks(cs) == kept;
      }
    }
  }

  /** If `n` is even and at most one more than `m`, it is at most `m` padded. */
  lemma EvenBelow(n: nat, m: nat, half: nat)
    requires n == 2 * half && n <= m + 1
    ensures Padded(n) == n <= Padded(m)
  {
    if n == m + 1 { assert m % 2 == 1; }
  }

  lemma FrameGrowsByOne(payload: seq<byte>, inner: seq<Chunk>)
    requires |payload| >= 16 && RiffChunks(payload[16..]) == Ok(inner)
    ensures 16 + |EncodeAll(FrameChunks(inner))| <= |payload| + 1
  {
    ParsedLength(payload[16..]);
    FilterShortens(inner);
  }

  lemma FrameHalf(payload: seq<byte>, inner: seq<Chunk>) returns (half: nat)
    requires |payload| >= 16 && RiffChunks(payload[16..]) == Ok(inner)
    ensures |EncodeAll(FrameChunks(inner))| == 2 * half
  {
    ParsedAreStorable(payload[16..]);
    half := EncodedHalf(FrameChunks(inner));
  }

  /** A rebuilt frame may gain a pad byte, but only where the original chunk carried one. */
  lemma FrameLength(payload: seq<byte>, inner: seq<Chunk>, frame: seq<byte>)
    requires |payload| >= 16 && RiffChunks(payload[16..]) == Ok(inner)
    requires |frame| == 16 + |EncodeAll(FrameChunks(inner))|
    ensures Padded(|frame|) <= Padded(|payload|)
  {
    FrameGrowsByOne(payload, inner);
    var half := FrameHalf(payload, inner);
    EvenBelow(|frame|, |payload|, 8 + half);
  }

  lemma CleanLength(c: Chunk, r: Chunk, width: nat, height: nat)
    requires Storable(c) && CleanChunk(c, width, height) == Ok(Some(r))
    ensures |r.fourcc| == 4 && Padded(|r.payload|) <= Padded(|c.payload|)
  {
    if KindIn(c).ANMF? {
      FrameLength(c.payload, RiffChunks(c.payload[16..]).value, r.payload);
    } else {
      assert |r.payload| == |c.payload|;
    }
  }

  lemma TwiceIsEven(n: nat, half: nat)
    requires n == 2 * half
    ensures n % 2 == 0
  {
  }

  /** Every payload of a printed list fits in the printed length. */
  lemma {:induction false} PayloadsFit(cs: seq<Chunk>, c: Chunk)
    requires c in cs && forall x :: x in cs ==> |x.fourcc| == 4
    ensures |c.payload| < |EncodeAll(cs)|
  {
    var prefix, last := cs[..|cs| - 1], cs[|cs| - 1];
    assert last in cs;
    EncodeLength(last);
    if c != last {
      assert c in prefix;
      PayloadsFit(prefix, c);
    }
  }

  // ----- the theorems -----

  /** The parts of an accepted walk. */
  lemma WalkParts(buf: seq<byte>, width: nat, height: nat)
    requires Walk(buf, width, height).Ok?
    ensures var cs := FileChunks(buf).value;
      FileChunks(buf).Ok? && CleanAll(cs, width, height).Ok? &&
      var rs := CleanAll(cs, width, height).value;
      4 + |EncodeAll(rs)| < TWO_32 && AllStorable(rs) && AllStorable(cs) &&
      Walk(buf, width, height).value == (FileBytes(rs), Animated(cs))
  {
    var cs := FileChunks(buf).value;
    ParsedAreStorable(buf[12..RiffEnd(buf).value]);
    CleanAllLength(cs, width, height);
    var rs := CleanAll(cs, width, height).value;
    forall r | r in rs ensures Storable(r) { PayloadsFit(rs, r); }
  }

  lemma HeaderSlices(size: seq<byte>, body: seq<byte>)
    requires |size| == 4
    ensures var out := RIFF + size + WEBP + body;
      |out| == 12 + |body| && out[4..8] == size && out[12..|out|] == body
  {
  }

  /** A printed file is read back whole: its size field ends exactly at its last byte. */
  lemma PrintedFileIsRead(rs: seq<Chunk>)
    requires AllStorable(rs) && 4 + |EncodeAll(rs)| < TWO_32
    ensures var out := FileBytes(rs);
      |out| == 12 + |EncodeAll(rs)| && LeU32(out[4..8]) == |out| - 8 && RiffEnd(out) == Ok(|out|) &&
      FileChunks(out) == Ok(rs)
  {
    var body := EncodeAll(rs);
    HeaderSlices(SizeField(4 + |body|), body);
    ParsePrinted(rs);
  }

  /**
  For every accepted input, the chunk list of the output is the input's list with the
  chunks that are not kept removed, the VP8X metadata bits cleared, every ANMF reduced
  to its header and image chunks, and everything else byte for byte, in order.
  */
  lemma OutputIsCleanedInput(buf: seq<byte>, width: nat, height: nat)
    requires Walk(buf, width, height).Ok?
    ensures var (out, animated) := Walk(buf, width, height).value;
      FileChunks(buf).Ok? && FileChunks(out).Ok? && Cleaned(FileChunks(buf).value, FileChunks(out).value) &&
      (animated <==> Animated(FileChunks(buf).value))
  {
    WalkParts(buf, width, height);
    var cs := FileChunks(buf).value;
    var rs := CleanAll(cs, width, height).value;
    PrintedFileIsRead(rs);
    CleanAllCleans(cs, width, height);
  }

  /** Walking the output again returns the same bytes and the same flag. */
  lemma WalkIsIdempotent(buf: seq<byte>, width: nat, height: nat)
    requires Walk(buf, width, height).Ok?
    ensures var (out, animated) := Walk(buf, width, height).value;
      Walk(out, width, height) == Ok((out, animated))
  {
    WalkParts(buf, width, height);
    var cs := FileChunks(buf).value;
    var rs := CleanAll(cs, width, height).value;
    PrintedFileIsRead(rs);
    CleanAllIsStable(cs, width, height);
  }

  /**
  Whenever the walk succeeds, the RIFF size field is the output length less eight, the
  length is even, and it exceeds the input's RIFF region by at most one byte.
  */
  lemma OutputLength(buf: seq<byte>, width: nat, height: nat)
    requires Walk(buf, width, height).Ok?
    ensures var out := Walk(buf, width, height).value.0;
      |out| >= 12 && LeU32(out[4..8]) == |out| - 8 && |out| % 2 == 0 &&
      RiffEnd(buf).Ok? && |out| <= RiffEnd(buf).value + 1
  {
    WalkParts(buf, width, height);
    var cs := FileChunks(buf).value;
    var rs := CleanAll(cs, width, height).value;
    PrintedFileIsRead(rs);
    var half := EncodedHalf(rs);
    CleanAllLength(cs, width, height);
    ParsedLength(buf[12..RiffEnd(buf).value]);
    TwiceIsEven(|FileBytes(rs)|, 6 + half);
  }

  /** A list is cleaned only if every chunk of it is. */
  lemma {:induction false} EachIsCleaned(cs: seq<Chunk>, width: nat, height: nat, c: Chunk)
    requires CleanAll(cs, width, height).Ok? && c in cs
    ensures CleanChunk(c, width, height).Ok?
  {
    var prefix, last := cs[..|cs| - 1], cs[|cs| - 1];
    if c != last {
      assert c in prefix;
      EachIsCleaned(prefix, width, height, c);
    }
  }

  /** The chunks pushed while the frame `c` is rebuilt. */
  function PushedInside(c: Chunk): seq<Chunk>
  {
    if |c.payload| >= 16 && RiffChunks(c.payload[16..]).Ok? then FrameChunks(RiffChunks(c.payload[16..]).value) else []
  }

  /**
  Whenever the walk succeeds, no chunk length was truncated by its cast to 32 bits: neither of a chunk written at
  the top level, rebuilt frames included, nor of a chunk pushed inside a rebuilt frame, all of which were parsed.
  */
  lemma NoLengthTruncated(buf: seq<byte>, width: nat, height: nat)
    requires Walk(buf, width, height).Ok?
    ensures FileChunks(buf).Ok? && CleanAll(FileChunks(buf).value, width, height).Ok?
    ensures forall r :: r in CleanAll(FileChunks(buf).value, width, height).value ==>
      CastU32(|r.payload|) == |r.payload|
    ensures forall c :: c in FileChunks(buf).value && KindIn(c).ANMF? ==>
      |c.payload| >= 16 && RiffChunks(c.payload[16..]).Ok? &&
      forall r :: r in PushedInside(c) ==> CastU32(|r.payload|) == |r.payload|
  {
    WalkParts(buf, width, height);
    forall c | c in FileChunks(buf).value && KindIn(c).ANMF?
      ensures |c.payload| >= 16 && RiffChunks(c.payload[16..]).Ok?
      ensures forall r :: r in PushedInside(c) ==> CastU32(|r.payload|) == |r.payload|
    {
      EachIsCleaned(FileChunks(buf).value, width, height, c);
      ParsedAreStorable(c.payload[16..]);
    }
  }
}
