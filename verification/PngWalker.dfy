/** `walk_png` as it runs: one pass over the file, copying kept chunks as it goes. */
module PngWalker {
  import opened Sequences
  import opened Bytes
  import opened Png

  /** What `Chunks` makes of the rest of the file, read at position `pos`. */
  lemma ChunkAt(buf: seq<byte>, pos: nat)
    requires pos <= |buf|
    ensures pos + 8 > |buf| ==> Chunks(buf[pos..]) == Err(Decode)
    ensures pos + 8 <= |buf| ==>
      var end := pos + 12 + BeU32(buf[pos..pos + 4]);
      (end > |buf| ==> Chunks(buf[pos..]) == Err(Decode)) &&
      (end <= |buf| ==>
        var c := buf[pos..end];
        (KindOf(c).IEND? ==> Chunks(buf[pos..]) == Ok([c])) &&
        (!KindOf(c).IEND? ==> Chunks(buf[pos..]) == After([c], Chunks(buf[end..]))))
  {
    var b := buf[pos..];
    if pos + 8 <= |buf| {
      assert b[0..4] == buf[pos..pos + 4];
      var end := pos + 12 + BeU32(buf[pos..pos + 4]);
      if end <= |buf| { assert b[..end - pos] == buf[pos..end] && b[end - pos..] == buf[end..]; }
    }
  }

  /** A list refused at some prefix is refused as a whole, whatever follows. */
  lemma {:induction false} RefusedEarly(cs: seq<Chunk>, rest: seq<Chunk>, width: nat, height: nat)
    requires !Accepted(cs, width, height)
    ensures !Accepted(cs + rest, width, height)
    decreases |rest|
  {
    if rest == [] {
      assert cs + rest == cs;
    } else {
      assert (cs + rest)[..|cs + rest| - 1] == cs + rest[..|rest| - 1];
      RefusedEarly(cs, rest[..|rest| - 1], width, height);
    }
  }

  /** Reading one more chunk `c` after `cs`. */
  lemma ReadStep(cs: seq<Chunk>, c: Chunk, width: nat, height: nat)
    ensures var more := cs + [c];
      (SeenIdat(more) <==> SeenIdat(cs) || KindOf(c).IDAT?) &&
      (Accepted(more, width, height) <==> Accepted(cs, width, height) && Acceptable(c, SeenIdat(cs), width, height)) &&
      Frames(more) ==
        (if KindOf(c).AcTL? && !SeenIdat(cs) && |DataOf(c)| == 8 then Some(BeU32(DataOf(c)[0..4])) else Frames(cs)) &&
      Concat(KeptChunks(more)) == Concat(KeptChunks(cs)) + if IsKept(c) then c else []
  {
    var more := cs + [c];
    assert more[..|more| - 1] == cs && c in more;
    var kept := KeptChunks(cs);
    if IsKept(c) {
      assert KeptChunks(more) == kept + [c] && (kept + [c])[..|kept|] == kept;
    } else {
      assert KeptChunks(more) == kept && Concat(kept) + [] == Concat(kept);
    }
  }

  lemma KeptBytes(out: seq<byte>, cs: seq<Chunk>, c: Chunk)
    requires out == SIGNATURE + Concat(KeptChunks(cs))
    ensures (if IsKept(c) then out + c else out) == SIGNATURE + Concat(KeptChunks(cs + [c]))
  {
    ReadStep(cs, c, 0, 0);
    Associative(SIGNATURE, Concat(KeptChunks(cs)), c);
    if !IsKept(c) { assert Concat(KeptChunks(cs)) + [] == Concat(KeptChunks(cs)); }
  }

  /** The match on the chunk type: whether to go on, and what is now known about animation. */
  method Inspect(chunk: Chunk, seenIdat: bool, frames: Option<int>, width: nat, height: nat)
      returns (ok: bool, seen: bool, count: Option<int>)
    ensures ok <==> Acceptable(chunk, seenIdat, width, height)
    ensures seen <==> seenIdat || KindOf(chunk).IDAT?
    ensures ok ==>
      count ==
        if KindOf(chunk).AcTL? && !seenIdat && |DataOf(chunk)| == 8 then Some(BeU32(DataOf(chunk)[0..4])) else frames
  {
    var data := DataOf(chunk);
    ok, seen, count := true, seenIdat, frames;
    match KindOf(chunk) {
      case AcTL =>
        if !seenIdat {
          if |data| != 8 {
            ok := false;
          } else {
            count := Some(BeU32(data[0..4]));
          }
        }
      case IDAT => seen := true;
      case FcTL => ok := InsideCanvas(data, width, height);
      case _ =>
    }
  }

  /** `walk_png`: for every byte string, the result of the specification. */
  method WalkPng(buf: seq<byte>, width: nat, height: nat) returns (r: Result<(seq<byte>, bool)>)
    ensures r == Walk(buf, width, height)
  {
    if |buf| < 8 || buf[..8] != SIGNATURE { return Err(Decode); }
    var out: seq<byte> := SIGNATURE;
    var seenIdat, frames := false, None;
    var pos := 8;
    ghost var cs: seq<Chunk> := [];
    AfterNothing(Chunks(buf[8..]));
    while true
      invariant 8 <= pos <= |buf|
      invariant Chunks(buf[8..]) == After(cs, Chunks(buf[pos..]))
      invariant Accepted(cs, width, height)
      invariant seenIdat == SeenIdat(cs) && frames == Frames(cs)
      invariant out == SIGNATURE + Concat(KeptChunks(cs))
      decreases |buf| - pos
    {
      ChunkAt(buf, pos);
      if pos + 8 > |buf| { return Err(Decode); }
      var end := pos + 12 + BeU32(buf[pos..pos + 4]);
      if end > |buf| { return Err(Decode); }
      var chunk := buf[pos..end];
      ReadStep(cs, chunk, width, height);
      var ok, seen, count := Inspect(chunk, seenIdat, frames, width, height);
      if !ok {
        Refused(buf, cs, chunk, pos, end, width, height);
        return Err(Decode);
      }
      seenIdat, frames := seen, count;
      KeptBytes(out, cs, chunk);
      if IsKept(chunk) { out := out + chunk; }
      pos := end;
      if KindOf(chunk).IEND? {
        assert Chunks(buf[8..]) == Ok(cs + [chunk]);
        return Ok((out, frames.Some? && frames.value > 1));
      }
      AfterAssociates(cs, [chunk], Chunks(buf[pos..]));
      cs := cs + [chunk];
    }
  }

  /** A refused chunk means refusal, whether or not the rest of the file parses. */
  lemma Refused(buf: seq<byte>, cs: seq<Chunk>, c: Chunk, pos: nat, end: nat, width: nat, height: nat)
    requires 8 <= pos <= end <= |buf| && buf[..8] == SIGNATURE
    requires Chunks(buf[8..]) == After(cs, Chunks(buf[pos..]))
    requires Chunks(buf[pos..]) == After([c], Chunks(buf[end..])) || Chunks(buf[pos..]) == Ok([c])
    requires !Accepted(cs + [c], width, height)
    ensures Walk(buf, width, height) == Err(Decode)
  {
    AfterAssociates(cs, [c], Chunks(buf[end..]));
    ChunkErrors(buf[8..]);
    if Chunks(buf[end..]).Ok? { RefusedEarly(cs + [c], Chunks(buf[end..]).value, width, height); }
  }

  /** A PNG is refused for one reason only. */
  lemma {:induction false} ChunkErrors(b: seq<byte>)
    ensures Chunks(b).Err? ==> Chunks(b) == Err(Decode)
    decreases |b|
  {
    if |b| >= 8 && 12 + BeU32(b[0..4]) <= |b| { ChunkErrors(b[12 + BeU32(b[0..4])..]); }
  }
}
