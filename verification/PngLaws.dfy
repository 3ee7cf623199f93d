/**
What the PNG walk keeps and refuses, over the types and numbers as they stand in the file
(crates/core/files/src/sanitize.rs:284-383).
*/
module PngLaws {
  import opened Sequences
  import opened Bytes
  import opened Png

  /** Types kept for what the pixels are. */
  predicate Plain(code: seq<byte>)
  {
    || code == Ascii("IHDR") || code == Ascii("PLTE") || code == Ascii("tRNS") || code == Ascii("cHRM")
    || code == Ascii("gAMA") || code == Ascii("iCCP") || code == Ascii("sBIT")
  }

  predicate OtherPlain(code: seq<byte>)
  {
    || code == Ascii("sRGB") || code == Ascii("cICP") || code == Ascii("mDCv") || code == Ascii("cLLi")
    || code == Ascii("bKGD") || code == Ascii("pHYs") || code == Ascii("fdAT")
  }

  /** `PNG_KEPT_CHUNKS`, as written. */
  predicate Listed(code: seq<byte>)
  {
    || code == Ascii("acTL") || code == Ascii("fcTL") || code == Ascii("IDAT") || code == Ascii("IEND")
    || Plain(code) || OtherPlain(code)
  }

  /** The four bytes after a chunk's length. */
  function Code(c: Chunk): seq<byte>
  {
    if |c| < 12 then [] else c[4..8]
  }

  lemma BeInjective(a: seq<byte>, b: seq<byte>)
    requires |a| == |b| == 4 && BeU32(a) == BeU32(b)
    ensures a == b
  {
    assert a[0] == b[0] && a[1] == b[1] && a[2] == b[2] && a[3] == b[3];
  }

  lemma CodeIs(code: seq<byte>, s: string, value: int)
    requires |code| == 4 && |s| == 4 && BeU32(Ascii(s)) == value
    ensures BeU32(code) == value <==> code == Ascii(s)
  {
    if BeU32(code) == value { BeInjective(code, Ascii(s)); }
  }

  lemma SpecialCodes(code: seq<byte>)
    requires |code| == 4
    ensures KindOfCode(BeU32(code)).AcTL? <==> code == Ascii("acTL")
    ensures KindOfCode(BeU32(code)).FcTL? <==> code == Ascii("fcTL")
    ensures KindOfCode(BeU32(code)).IDAT? <==> code == Ascii("IDAT")
    ensures KindOfCode(BeU32(code)).IEND? <==> code == Ascii("IEND")
  {
    CodeIs(code, "acTL", 0x6163544C);
    CodeIs(code, "fcTL", 0x6663544C);
    CodeIs(code, "IDAT", 0x49444154);
    CodeIs(code, "IEND", 0x49454E44);
  }

  predicate PlainValue(n: int)
  {
    n in {0x49484452, 0x504C5445, 0x74524E53, 0x6348524D, 0x67414D41, 0x69434350, 0x73424954}
  }

  predicate OtherPlainValue(n: int)
  {
    n in {0x73524742, 0x63494350, 0x6D444376, 0x634C4C69, 0x624B4744, 0x70485973, 0x66644154}
  }

  lemma PlainCodes(code: seq<byte>)
    requires |code| == 4
    ensures Plain(code) <==> PlainValue(BeU32(code))
  {
    CodeIs(code, "IHDR", 0x49484452);
    CodeIs(code, "PLTE", 0x504C5445);
    CodeIs(code, "tRNS", 0x74524E53);
    CodeIs(code, "cHRM", 0x6348524D);
    CodeIs(code, "gAMA", 0x67414D41);
    CodeIs(code, "iCCP", 0x69434350);
    CodeIs(code, "sBIT", 0x73424954);
  }

  lemma OtherPlainCodes(code: seq<byte>)
    requires |code| == 4
    ensures OtherPlain(code) <==> OtherPlainValue(BeU32(code))
  {
    CodeIs(code, "sRGB", 0x73524742);
    CodeIs(code, "cICP", 0x63494350);
    CodeIs(code, "mDCv", 0x6D444376);
    CodeIs(code, "cLLi", 0x634C4C69);
    CodeIs(code, "bKGD", 0x624B4744);
    CodeIs(code, "pHYs", 0x70485973);
    CodeIs(code, "fdAT", 0x66644154);
  }

  lemma KeptValues(n: int)
    ensures KindOfCode(n).Kept? <==> PlainValue(n) || OtherPlainValue(n)
  {
  }

  /** The walker's kinds are the codes. */
  lemma KindsAreCodes(c: Chunk)
    ensures IsKept(c) <==> Listed(Code(c))
    ensures KindOf(c).AcTL? <==> Code(c) == Ascii("acTL")
    ensures KindOf(c).FcTL? <==> Code(c) == Ascii("fcTL")
    ensures KindOf(c).IDAT? <==> Code(c) == Ascii("IDAT")
    ensures KindOf(c).IEND? <==> Code(c) == Ascii("IEND")
  {
    if |c| >= 12 {
      SpecialCodes(c[4..8]);
      PlainCodes(c[4..8]);
      OtherPlainCodes(c[4..8]);
      KeptValues(BeU32(c[4..8]));
    }
  }

  function ListedChunks(cs: seq<Chunk>): seq<Chunk> { Filter(cs, (c: Chunk) => Listed(Code(c))) }

  lemma ListsAgree(cs: seq<Chunk>)
    ensures KeptChunks(cs) == ListedChunks(cs)
  {
    forall c: Chunk ensures IsKept(c) == Listed(Code(c)) { KindsAreCodes(c); }
    FilterSame(cs, c => IsKept(c), (c: Chunk) => Listed(Code(c)));
  }

  lemma SignatureIs()
    ensures SIGNATURE == [0x89] + Ascii("PNG") + [13, 10, 26, 10]
  {
    assert Ascii("PNG") == [80, 78, 71];
    assert SIGNATURE == [0x89] + [80, 78, 71] + [13, 10, 26, 10];
  }

  /** For every accepted input the output is the signature and exactly the chunks of a listed type, byte for byte. */
  lemma OutputHoldsListed(buf: seq<byte>, width: nat, height: nat)
    requires Walk(buf, width, height).Ok?
    ensures var out := Walk(buf, width, height).value.0;
      && |buf| >= 8 && |out| >= 8 && out[..8] == [0x89] + Ascii("PNG") + [13, 10, 26, 10]
      && Chunks(buf[8..]).Ok? && Chunks(out[8..]) == Ok(ListedChunks(Chunks(buf[8..]).value))
  {
    OutputIsFilteredInput(buf, width, height);
    ListsAgree(Chunks(buf[8..]).value);
    SignatureIs();
  }

  // ----- how a file splits -----

  /** The first chunk of `b`: a length, big-endian, a type, that many bytes and a CRC. */
  predicate ChunkOf(b: seq<byte>, n: nat)
  {
    8 <= |b| && n <= |b| && n == 12 + BigEndian(b[0..4])
  }

  /** The chunks of a file up to the first `IEND`, one after another. */
  ghost predicate Follows(b: seq<byte>, cs: seq<Chunk>)
    decreases |cs|
  {
    && cs != [] && ChunkOf(b, |cs[0]|) && cs[0] == b[..|cs[0]|]
    && if cs[0][4..8] == Ascii("IEND") then |cs| == 1 else Follows(b[|cs[0]|..], cs[1..])
  }

  /** A file splits as `Chunks` says if and only if the chunks follow one another like that. */
  lemma {:induction false} SplitsIff(b: seq<byte>, cs: seq<Chunk>)
    ensures Chunks(b) == Ok(cs) <==> Follows(b, cs)
    decreases |b|
  {
    if |b| >= 8 {
      BeU32IsPositional(b[0..4]);
      var end := 12 + BigEndian(b[0..4]);
      if end <= |b| {
        if cs != [] { SplitsIff(b[end..], cs[1..]); }
        SplitStep(b, cs, end);
        FollowsStep(b, cs, end);
        KindsAreCodes(b[..end]);
      }
    }
  }

  lemma SplitStep(b: seq<byte>, cs: seq<Chunk>, end: nat)
    requires 8 <= |b| && end == 12 + BeU32(b[0..4]) <= |b|
    ensures Chunks(b) == Ok(cs) <==>
      && cs != [] && cs[0] == b[..end]
      && if KindOf(b[..end]).IEND? then |cs| == 1 else Chunks(b[end..]) == Ok(cs[1..])
  {
    if cs != [] {
      assert cs == [cs[0]] + cs[1..];
      if |cs| == 1 { assert cs == [cs[0]]; }
    }
  }

  lemma FollowsStep(b: seq<byte>, cs: seq<Chunk>, end: nat)
    requires 8 <= |b| && end == 12 + BigEndian(b[0..4]) <= |b|
    ensures Follows(b, cs) <==>
      && cs != [] && cs[0] == b[..end]
      && if Code(b[..end]) == Ascii("IEND") then |cs| == 1 else Follows(b[end..], cs[1..])
  {
  }

  // ----- what is refused -----

  /** No image data before position `i`. */
  ghost predicate BeforeData(cs: seq<Chunk>, i: int)
  {
    forall j :: 0 <= j < i <= |cs| ==> Code(cs[j]) != Ascii("IDAT")
  }

  /** An `fcTL` is 26 bytes; its width, height, x and y, 32 bits each after the sequence number, stay on the canvas. */
  ghost predicate FrameFits(data: seq<byte>, width: nat, height: nat)
  {
    && |data| == 26
    && BigEndian(data[12..16]) + BigEndian(data[4..8]) <= width
    && BigEndian(data[16..20]) + BigEndian(data[8..12]) <= height
  }

  ghost predicate Fine(cs: seq<Chunk>, i: int, width: nat, height: nat)
    requires 0 <= i < |cs|
  {
    && (Code(cs[i]) == Ascii("acTL") && BeforeData(cs, i) ==> |cs[i]| == 12 + 8)
    && (Code(cs[i]) == Ascii("fcTL") ==> FrameFits(cs[i][8..|cs[i]| - 4], width, height))
  }

  lemma SeenIdatIff(cs: seq<Chunk>, i: nat)
    requires i <= |cs|
    ensures SeenIdat(cs[..i]) <==> !BeforeData(cs, i)
  {
    forall c: Chunk ensures KindOf(c).IDAT? == (Code(c) == Ascii("IDAT")) { KindsAreCodes(c); }
    forall j | 0 <= j < i ensures cs[..i][j] == cs[j] && cs[j] in cs[..i] { }
  }

  lemma FrameFitsIff(data: seq<byte>, width: nat, height: nat)
    ensures InsideCanvas(data, width, height) <==> FrameFits(data, width, height)
  {
    if |data| == 26 {
      BeU32IsPositional(data[4..8]);
      BeU32IsPositional(data[8..12]);
      BeU32IsPositional(data[12..16]);
      BeU32IsPositional(data[16..20]);
    }
  }

  lemma AcceptableIff(cs: seq<Chunk>, i: nat, width: nat, height: nat)
    requires i < |cs|
    ensures Acceptable(cs[i], SeenIdat(cs[..i]), width, height) <==> Fine(cs, i, width, height)
  {
    KindsAreCodes(cs[i]);
    SeenIdatIff(cs, i);
    FrameFitsIff(DataOf(cs[i]), width, height);
  }

  lemma AcceptedStep(cs: seq<Chunk>, n: nat, width: nat, height: nat)
    requires 0 < n <= |cs|
    ensures Accepted(cs[..n], width, height) <==>
      Accepted(cs[..n - 1], width, height) && Acceptable(cs[n - 1], SeenIdat(cs[..n - 1]), width, height)
  {
    assert cs[..n][..n - 1] == cs[..n - 1] && cs[..n][n - 1] == cs[n - 1];
  }

  ghost predicate AllFine(cs: seq<Chunk>, n: int, width: nat, height: nat)
    requires n <= |cs|
  {
    forall i :: 0 <= i < n ==> Fine(cs, i, width, height)
  }

  lemma {:induction false} AcceptedPrefixIff(cs: seq<Chunk>, n: nat, width: nat, height: nat)
    requires n <= |cs|
    ensures Accepted(cs[..n], width, height) <==> AllFine(cs, n, width, height)
  {
    if n > 0 {
      AcceptedPrefixIff(cs, n - 1, width, height);
      AcceptableIff(cs, n - 1, width, height);
      AcceptedStep(cs, n, width, height);
      assert AllFine(cs, n, width, height) <==> AllFine(cs, n - 1, width, height) && Fine(cs, n - 1, width, height);
    }
  }

  /**
  A file is accepted if and only if it starts with the signature, splits into chunks up to an `IEND`, has no
  `acTL` of the wrong length before its image data and no `fcTL` off the canvas.
  */
  lemma AcceptedIff(buf: seq<byte>, width: nat, height: nat)
    ensures Walk(buf, width, height).Ok? <==>
      && |buf| >= 8 && buf[..8] == [0x89] + Ascii("PNG") + [13, 10, 26, 10] && Chunks(buf[8..]).Ok?
      && var cs := Chunks(buf[8..]).value; AllFine(cs, |cs|, width, height)
  {
    SignatureIs();
    if |buf| >= 8 && Chunks(buf[8..]).Ok? {
      var cs := Chunks(buf[8..]).value;
      AcceptedPrefixIff(cs, |cs|, width, height);
      assert cs[..|cs|] == cs;
    }
  }

  /** The `acTL` that counts: before any image data, with none after it that also is. */
  ghost predicate Deciding(cs: seq<Chunk>, i: int)
  {
    && 0 <= i < |cs| && Code(cs[i]) == Ascii("acTL") && BeforeData(cs, i)
    && forall j :: i < j < |cs| && Code(cs[j]) == Ascii("acTL") ==> !BeforeData(cs, j)
  }

  /** The flag says whether that `acTL` announces more than one frame. */
  lemma AnimatedIff(buf: seq<byte>, width: nat, height: nat)
    requires Walk(buf, width, height).Ok?
    ensures |buf| >= 8 && Chunks(buf[8..]).Ok?
    ensures var cs := Chunks(buf[8..]).value;
      Walk(buf, width, height).value.1 <==>
        exists i :: Deciding(cs, i) && |cs[i]| == 20 && BigEndian(cs[i][8..12]) > 1
  {
    AnimationIsRead(buf, width, height);
    var cs := Chunks(buf[8..]).value;
    forall i ensures Decides(cs, i) <==> Deciding(cs, i) { DecidesIff(cs, i); }
    forall i | 0 <= i < |cs| && |cs[i]| == 20
      ensures BeU32(DataOf(cs[i])[0..4]) == BigEndian(cs[i][8..12])
    {
      assert DataOf(cs[i])[0..4] == cs[i][8..12];
      BeU32IsPositional(cs[i][8..12]);
    }
  }

  lemma DecidesIff(cs: seq<Chunk>, i: int)
    ensures Decides(cs, i) <==> Deciding(cs, i)
  {
    forall c: Chunk ensures KindOf(c).AcTL? == (Code(c) == Ascii("acTL")) { KindsAreCodes(c); }
    forall j | 0 <= j < |cs| ensures SeenIdat(cs[..j]) <==> !BeforeData(cs, j) { SeenIdatIff(cs, j); }
  }

  lemma {:induction false} SplitErrors(b: seq<byte>)
    ensures Chunks(b).Err? ==> Chunks(b) == Err(Decode)
    decreases |b|
  {
    if |b| >= 8 && 12 + BeU32(b[0..4]) <= |b| { SplitErrors(b[12 + BeU32(b[0..4])..]); }
  }

  /** Every refusal is the same. */
  lemma RefusedAsUndecodable(buf: seq<byte>, width: nat, height: nat)
    requires Walk(buf, width, height).Err?
    ensures Walk(buf, width, height) == Err(Decode)
  {
    if |buf| >= 8 { SplitErrors(buf[8..]); }
  }
}
