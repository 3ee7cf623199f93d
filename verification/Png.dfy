/**
The PNG / APNG walker (crates/core/files/src/sanitize.rs:284-383): length-prefixed
chunks as in section 5.3 of the W3C PNG Specification, copied whole or dropped.
*/
module Png {
  import opened Sequences
  import opened Bytes

  const SIGNATURE: seq<byte> := [0x89, 0x50, 0x4e, 0x47, 0x0d, 0x0a, 0x1a, 0x0a]

  /** A chunk as it lies in the file: length, type, data and CRC. */
  type Chunk = seq<byte>

  predicate IsChunk(c: Chunk) { |c| >= 12 && BeU32(c[0..4]) + 12 == |c| }

  datatype Kind = AcTL | FcTL | IDAT | IEND | Kept | Dropped

  /** The chunk types by their four bytes, read big-endian; `Kept` is the rest of `PNG_KEPT_CHUNKS`. */
  function KindOfCode(code: int): (k: Kind)
  {
    if code == 0x6163544C then AcTL
    else if code == 0x6663544C then FcTL
    else if code == 0x49444154 then IDAT
    else if code == 0x49454E44 then IEND
    else if code == 0x49484452 || code == 0x504C5445 || code == 0x74524E53 || code == 0x6348524D // IHDR PLTE tRNS cHRM
         || code == 0x67414D41 || code == 0x69434350 || code == 0x73424954 || code == 0x73524742 // gAMA iCCP sBIT sRGB
         || code == 0x63494350 || code == 0x6D444376 || code == 0x634C4C69 || code == 0x624B4744 // cICP mDCv cLLi bKGD
         || code == 0x70485973 || code == 0x66644154 then Kept // pHYs fdAT
    else Dropped
  }

  function KindOf(c: Chunk): (k: Kind)
  {
    if |c| < 12 then Dropped else KindOfCode(BeU32(c[4..8]))
  }

  function DataOf(c: Chunk): (r: seq<byte>)
  {
    if |c| < 12 then [] else c[8..|c| - 4]
  }

  predicate IsKept(c: Chunk) { !KindOf(c).Dropped? }

  /** The frame rectangle of an `fcTL` lies inside the canvas. */
  predicate InsideCanvas(data: seq<byte>, width: nat, height: nat)
  {
    |data| == 26 &&
    BeU32(data[12..16]) + BeU32(data[4..8]) <= width && BeU32(data[16..20]) + BeU32(data[8..12]) <= height
  }

  /** The chunks up to and including the first IEND. */
  function Chunks(b: seq<byte>): (r: Result<seq<Chunk>>)
    decreases |b|
  {
    if |b| < 8 then Err(Decode)
    else
      var end := 12 + BeU32(b[0..4]);
      if end > |b| then Err(Decode)
      else if KindOf(b[..end]).IEND? then Ok([b[..end]])
      else
        match Chunks(b[end..])
        case Err(e) => Err(e)
        case Ok(rest) => Ok([b[..end]] + rest)
  }

  function Concat(cs: seq<Chunk>): (r: seq<byte>)
  {
    if cs == [] then [] else Concat(cs[..|cs| - 1]) + cs[|cs| - 1]
  }

  predicate AllChunks(cs: seq<Chunk>) { forall c :: c in cs ==> IsChunk(c) }

  /** Whether an IDAT was read. */
  predicate SeenIdat(cs: seq<Chunk>)
  {
    exists c :: c in cs && KindOf(c).IDAT?
  }

  /** What the match refuses: a malformed `acTL` before the image data, an `fcTL` off the canvas. */
  predicate Acceptable(c: Chunk, seenIdat: bool, width: nat, height: nat)
  {
    match KindOf(c)
    case AcTL => seenIdat || |DataOf(c)| == 8
    case FcTL => InsideCanvas(DataOf(c), width, height)
    case _ => true
  }

  predicate Accepted(cs: seq<Chunk>, width: nat, height: nat)
  {
    cs == [] ||
    (Accepted(cs[..|cs| - 1], width, height) &&
     Acceptable(cs[|cs| - 1], SeenIdat(cs[..|cs| - 1]), width, height))
  }

  /** The frame count of the last `acTL` before the first IDAT. */
  function Frames(cs: seq<Chunk>): (r: Option<int>)
  {
    if cs == [] then None
    else
      var prefix, last := cs[..|cs| - 1], cs[|cs| - 1];
      if KindOf(last).AcTL? && !SeenIdat(prefix) && |DataOf(last)| == 8 then Some(BeU32(DataOf(last)[0..4]))
      else Frames(prefix)
  }

  function KeptChunks(cs: seq<Chunk>): (r: seq<Chunk>)
    ensures forall c :: c in r <==> c in cs && IsKept(c)
  {
    Filter(cs, c => IsKept(c))
  }

  /** `walk_png`: the cleaned bytes, and whether the file is animated. */
  function Walk(buf: seq<byte>, width: nat, height: nat): (r: Result<(seq<byte>, bool)>)
  {
    if |buf| < 8 || buf[..8] != SIGNATURE then Err(Decode)
    else
      match Chunks(buf[8..])
      case Err(e) => Err(e)
      case Ok(cs) =>
        if !Accepted(cs, width, height) then Err(Decode)
        else Ok((SIGNATURE + Concat(KeptChunks(cs)), Frames(cs).Some? && Frames(cs).value > 1))
  }

  // ----- parsing -----

  /** Every parsed chunk is whole, and only the last one is an IEND. */
  ghost predicate Ends(cs: seq<Chunk>)
  {
    cs != [] && AllChunks(cs) &&
    forall i :: 0 <= i < |cs| ==> (KindOf(cs[i]).IEND? <==> i == |cs| - 1)
  }

  lemma {:induction false} ChunksAreWhole(b: seq<byte>)
    ensures Chunks(b).Ok? ==> Ends(Chunks(b).value)
    decreases |b|
  {
    if |b| >= 8 {
      var end := 12 + BeU32(b[0..4]);
      if end <= |b| {
        assert b[..end][0..4] == b[0..4];
        if !KindOf(b[..end]).IEND? { ChunksAreWhole(b[end..]); }
      }
    }
  }

  lemma {:induction false} ConcatCons(c: Chunk, cs: seq<Chunk>)
    ensures Concat([c] + cs) == c + Concat(cs)
  {
    var all := [c] + cs;
    if cs == [] {
      assert all == [c] && all[..0] == [] && Concat(all) == [] + c;
    } else {
      var prefix, last := cs[..|cs| - 1], cs[|cs| - 1];
      assert all[..|all| - 1] == [c] + prefix && all[|all| - 1] == last;
      ConcatCons(c, prefix);
      Associative(c, Concat(prefix), last);
    }
  }

  /** A chunk followed by anything is read back as itself. */
  lemma ReadOne(c: Chunk, rest: seq<byte>)
    requires IsChunk(c)
    ensures KindOf(c).IEND? ==> Chunks(c + rest) == Ok([c])
    ensures !KindOf(c).IEND? ==>
      Chunks(c + rest) == match Chunks(rest) case Err(e) => Err(e) case Ok(cs) => Ok([c] + cs)
  {
    var b := c + rest;
    assert b[0..4] == c[0..4] && b[..|c|] == c && b[|c|..] == rest;
  }

  /** Concatenating whole chunks that end in IEND and splitting them again is the identity. */
  lemma {:induction false} ReadPrinted(cs: seq<Chunk>, tail: seq<byte>)
    requires Ends(cs)
    ensures Chunks(Concat(cs) + tail) == Ok(cs)
  {
    var first, rest := cs[0], cs[1..];
    assert cs == [first] + rest;
    ConcatCons(first, rest);
    Associative(first, Concat(rest), tail);
    ReadOne(first, Concat(rest) + tail);
    assert KindOf(cs[0]).IEND? <==> 0 == |cs| - 1;
    if rest != [] {
      forall i | 0 <= i < |rest| ensures KindOf(rest[i]).IEND? <==> i == |rest| - 1 {
        assert rest[i] == cs[i + 1];
      }
      ReadPrinted(rest, tail);
    } else {
      assert cs == [first];
    }
  }

  /** The chunks lie in the file verbatim, one after another, from its start. */
  lemma {:induction false} ChunksAreVerbatim(b: seq<byte>)
    requires Chunks(b).Ok?
    ensures Concat(Chunks(b).value) <= b
    decreases |b|
  {
    var end := 12 + BeU32(b[0..4]);
    var c := b[..end];
    assert b == c + b[end..];
    if KindOf(c).IEND? {
      ConcatCons(c, []);
      assert [c] + [] == [c] && c + [] == c;
    } else {
      ChunksAreVerbatim(b[end..]);
      ConcatCons(c, Chunks(b[end..]).value);
    }
  }

  // ----- filtering -----

  lemma {:induction false} FilterKeepsFacts(cs: seq<Chunk>, width: nat, height: nat)
    ensures SeenIdat(KeptChunks(cs)) <==> SeenIdat(cs)
    ensures Accepted(cs, width, height) ==> Accepted(KeptChunks(cs), width, height)
    ensures Frames(KeptChunks(cs)) == Frames(cs)
    ensures |Concat(KeptChunks(cs))| <= |Concat(cs)|
  {
    if cs != [] {
      var prefix, last := cs[..|cs| - 1], cs[|cs| - 1];
      assert cs == prefix + [last] && last in cs;
      FilterKeepsFacts(prefix, width, height);
      var kept := KeptChunks(prefix);
      if IsKept(last) {
        var all := KeptChunks(cs);
        assert all == kept + [last] && all[..|all| - 1] == kept;
        assert last in all;
      } else {
        assert KeptChunks(cs) == kept;
      }
    }
  }

  lemma {:induction false} FilterKeepsEnd(cs: seq<Chunk>)
    requires Ends(cs)
    ensures Ends(KeptChunks(cs))
  {
    var prefix, last := cs[..|cs| - 1], cs[|cs| - 1];
    var kept := KeptChunks(prefix);
    assert last in cs && cs[|cs| - 1] == last;
    assert KeptChunks(cs) == kept + [last];
    forall c | c in kept ensures IsChunk(c) && !KindOf(c).IEND? {
      assert c in prefix;
      var i :| 0 <= i < |prefix| && prefix[i] == c;
      assert cs[i] == c;
    }
  }

  lemma {:induction false} FilterTwice(cs: seq<Chunk>)
    requires forall c :: c in cs ==> IsKept(c)
    ensures KeptChunks(cs) == cs
  {
    if cs != [] {
      FilterTwice(cs[..|cs| - 1]);
      assert cs == cs[..|cs| - 1] + [cs[|cs| - 1]];
      assert cs[|cs| - 1] in cs;
    }
  }

  // ----- the theorems -----

  /** What an accepted walk is made of. */
  lemma WalkParts(buf: seq<byte>, width: nat, height: nat)
    requires Walk(buf, width, height).Ok?
    ensures |buf| >= 8 && buf[..8] == SIGNATURE && Chunks(buf[8..]).Ok? && Ends(Chunks(buf[8..]).value)
    ensures var cs := Chunks(buf[8..]).value;
      Accepted(cs, width, height) && Walk(buf, width, height).value.0 == SIGNATURE + Concat(KeptChunks(cs))
  {
    ChunksAreWhole(buf[8..]);
  }

  /**
  For every accepted input, the output is the signature and, byte for byte with their
  CRCs, the input's chunks up to its first IEND that are on the kept list, in order; it
  is no longer than the input.
  */
  lemma OutputIsFilteredInput(buf: seq<byte>, width: nat, height: nat)
    requires Walk(buf, width, height).Ok?
    ensures var out := Walk(buf, width, height).value.0;
      |buf| >= 8 && |out| >= 8 && out[..8] == SIGNATURE && Chunks(buf[8..]).Ok? &&
      Chunks(out[8..]) == Ok(KeptChunks(Chunks(buf[8..]).value)) &&
      Concat(Chunks(buf[8..]).value) <= buf[8..] && |out| <= |buf|
  {
    WalkParts(buf, width, height);
    var cs := Chunks(buf[8..]).value;
    var out := Walk(buf, width, height).value.0;
    FilterKeepsEnd(cs);
    ReadPrinted(KeptChunks(cs), []);
    assert out[8..] == Concat(KeptChunks(cs)) + [];
    ChunksAreVerbatim(buf[8..]);
    FilterKeepsFacts(cs, width, height);
  }

  /** Walking the output again returns the same bytes and the same flag. */
  lemma WalkIsIdempotent(buf: seq<byte>, width: nat, height: nat)
    requires Walk(buf, width, height).Ok?
    ensures Walk(Walk(buf, width, height).value.0, width, height) == Walk(buf, width, height)
  {
    WalkParts(buf, width, height);
    OutputIsFilteredInput(buf, width, height);
    var cs := Chunks(buf[8..]).value;
    FilterKeepsFacts(cs, width, height);
    FilterTwice(KeptChunks(cs));
  }

  /** Chunk `i` is the `acTL` that counts: before any IDAT, and no later `acTL` is. */
  ghost predicate Decides(cs: seq<Chunk>, i: int)
  {
    0 <= i < |cs| && KindOf(cs[i]).AcTL? && !SeenIdat(cs[..i]) &&
    forall j :: i < j < |cs| && KindOf(cs[j]).AcTL? ==> SeenIdat(cs[..j])
  }

  lemma {:induction false} FramesDecided(cs: seq<Chunk>, width: nat, height: nat)
    requires Accepted(cs, width, height)
    ensures forall i :: Decides(cs, i) ==> |DataOf(cs[i])| == 8 && Frames(cs) == Some(BeU32(DataOf(cs[i])[0..4]))
    ensures Frames(cs).Some? ==> exists i :: Decides(cs, i)
  {
    if cs != [] {
      var prefix, last := cs[..|cs| - 1], cs[|cs| - 1];
      FramesDecided(prefix, width, height);
      forall i | 0 <= i < |prefix| ensures cs[i] == prefix[i] && cs[..i] == prefix[..i] { }
      var n := |cs| - 1;
      if KindOf(last).AcTL? && !SeenIdat(prefix) {
        assert Decides(cs, n);
        forall i | Decides(cs, i) ensures i == n { }
      } else {
        forall i | Decides(cs, i) ensures i < n && Decides(prefix, i) { }
        if Frames(prefix).Some? {
          var i :| Decides(prefix, i);
          forall j | i < j < |cs| && KindOf(cs[j]).AcTL? ensures SeenIdat(cs[..j]) { }
          assert Decides(cs, i);
        }
      }
    }
  }

  lemma {:induction false} AcceptedFrames(cs: seq<Chunk>, width: nat, height: nat, c: Chunk)
    requires Accepted(cs, width, height) && c in cs && KindOf(c).FcTL?
    ensures InsideCanvas(DataOf(c), width, height)
  {
    var prefix, last := cs[..|cs| - 1], cs[|cs| - 1];
    if c != last {
      assert c in prefix;
      AcceptedFrames(prefix, width, height, c);
    }
  }

  /**
  The animated flag is decided by the last `acTL` before the first IDAT, and every
  frame rectangle in the output lies inside the canvas.
  */
  lemma AnimationIsRead(buf: seq<byte>, width: nat, height: nat)
    requires Walk(buf, width, height).Ok?
    ensures |buf| >= 8 && Chunks(buf[8..]).Ok?
    ensures var cs := Chunks(buf[8..]).value;
      Walk(buf, width, height).value.1 <==>
        exists i :: Decides(cs, i) && |DataOf(cs[i])| == 8 && BeU32(DataOf(cs[i])[0..4]) > 1
    ensures forall c :: c in KeptChunks(Chunks(buf[8..]).value) && KindOf(c).FcTL? ==>
      InsideCanvas(DataOf(c), width, height)
  {
    WalkParts(buf, width, height);
    var cs := Chunks(buf[8..]).value;
    FramesDecided(cs, width, height);
    forall c | c in KeptChunks(cs) && KindOf(c).FcTL? ensures InsideCanvas(DataOf(c), width, height) {
      AcceptedFrames(cs, width, height, c);
    }
  }
}
