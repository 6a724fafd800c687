/** VideoParser.cpp: the parser's configuration and its three callbacks
    (sequence, decode, display), and the text form of a display entry. */
module VideoParserModel {
  import opened CuvidTypes
  import opened Collaborators

  /** The CUVIDPARSERPARAMS fields the constructor sets (besides the callbacks). */
  datatype ParserParams = ParserParams(codecType: CudaCodec, maxNumDecodeSurfaces: int, maxDisplayDelay: int)

  /** `HandleVideoSequence`: accept the stream format only if codec, coded
      size and chroma format are those the decoder was created with. */
  function HandleVideoSequence(decoder: DecoderConfig, format: VideoFormat): (r: int)
    ensures r == 0 || r == 1
    ensures r == 1 <==> (format.codec, format.codedWidth, format.codedHeight, format.chromaFormat)
                        == (decoder.codec, decoder.frameWidth, decoder.frameHeight, decoder.chromaFormat)
  {
    if format.codec != decoder.codec
       || format.codedWidth != decoder.frameWidth
       || format.codedHeight != decoder.frameHeight
       || format.chromaFormat != decoder.chromaFormat
    then 0
    else 1
  }

  /** The check looks at nothing else: frame rate, display area, progressive
      flag and bitrate may differ freely. */
  lemma SequenceCheckIgnoresOtherFields(decoder: DecoderConfig, f: VideoFormat, g: VideoFormat)
    requires f.codec == g.codec && f.codedWidth == g.codedWidth
    requires f.codedHeight == g.codedHeight && f.chromaFormat == g.chromaFormat
    ensures HandleVideoSequence(decoder, f) == HandleVideoSequence(decoder, g)
  {
  }

  /** Any change of one of the four checked fields away from an accepted
      format is rejected. */
  lemma SequenceCheckRejectsFormatChange(decoder: DecoderConfig, f: VideoFormat, g: VideoFormat)
    requires HandleVideoSequence(decoder, f) == 1
    requires g.codec != f.codec || g.codedWidth != f.codedWidth
          || g.codedHeight != f.codedHeight || g.chromaFormat != f.chromaFormat
    ensures HandleVideoSequence(decoder, g) == 0
  {
  }

  class VideoParser {
    const decoder: VideoDecoder
    const frameQueue: FrameQueue
    const params: ParserParams

    /** The constructor: both collaborators are non-null (the asserts of the
        source are the non-null reference types here); the parser decodes the
        decoder's codec into at most its number of surfaces and delays display
        by one picture. */
    constructor (decoder: VideoDecoder, frameQueue: FrameQueue)
      ensures this.decoder == decoder && this.frameQueue == frameQueue
      ensures params == ParserParams(decoder.config.codec, decoder.config.maxDecodeSurfaces, 1)
    {
      this.frameQueue := frameQueue;
      this.decoder := decoder;
      params := ParserParams(decoder.config.codec, decoder.config.maxDecodeSurfaces, 1);
    }

    /** `HandlePictureDecode`: wait for the target surface; decode into it
        only if the wait succeeded. */
    method HandlePictureDecode(pic: PicParams) returns (r: int)
      modifies frameQueue`waited, decoder`decoded
      ensures frameQueue.waited == old(frameQueue.waited) + [pic.currPicIdx]
      ensures r == 1 <==> pic.currPicIdx in frameQueue.available
      ensures r == 0 || r == 1
      ensures decoder.decoded == if r == 1 then old(decoder.decoded) + [pic.currPicIdx] else old(decoder.decoded)
    {
      var frameAvailable := frameQueue.WaitUntilFrameAvailable(pic.currPicIdx);
      if !frameAvailable {
        return 0;
      }
      decoder.DecodePicture(pic);
      return 1;
    }

    /** `HandlePictureDisplay` as this fork has it: map the picture's first
        field, unmap the same pointer, and enqueue nothing. */
    method HandlePictureDisplay(info: DispInfo) returns (r: int)
      modifies decoder`mapped, decoder`unmapped
      ensures r == 1
      ensures decoder.mapped == old(decoder.mapped) +
        [MapCall(info.pictureIndex,
                 ProcParams(info.progressiveFrame, 0, info.topFieldFirst,
                            if info.progressiveFrame == 1 then 1 else 0))]
      ensures decoder.unmapped == old(decoder.unmapped) + [|old(decoder.mapped)|]
      ensures frameQueue.ready == old(frameQueue.ready)
    {
      var procParams := ProcParams(0, 0, 0, 0);
      procParams := procParams.(progressiveFrame := info.progressiveFrame);
      procParams := procParams.(secondField := 0);
      procParams := procParams.(topFieldFirst := info.topFieldFirst);
      procParams := procParams.(unpairedField := if info.progressiveFrame == 1 then 1 else 0);
      var src := decoder.MapFrame(info.pictureIndex, procParams);
      decoder.UnmapFrame(src);
      return 1;
    }
  }

  // ---------------------------------------------------------------------
  // operator<< for CUVIDPARSERDISPINFO
  // ---------------------------------------------------------------------

  predicate IsDigit(c: char) { '0' <= c <= '9' }

  /** Decimal digits of a natural number, as a stream prints it. */
  function NatDecimal(n: nat): (s: string)
    ensures |s| > 0 && forall i :: 0 <= i < |s| ==> IsDigit(s[i])
  {
    var last := [('0' as int + n % 10) as char];
    if n < 10 then last else NatDecimal(n / 10) + last
  }

  /** How a stream prints an integer: a minus sign for negative values. */
  function IntDecimal(n: int): (s: string)
    ensures '\n' !in s
  {
    if n < 0 then "-" + NatDecimal(-n) else NatDecimal(n)
  }

  /** Reading digits back, most significant first. */
  function ParseNat(s: string): nat
    requires forall i :: 0 <= i < |s| ==> IsDigit(s[i])
  {
    if s == [] then 0
    else
      assert IsDigit(s[|s| - 1]);
      ParseNat(s[..|s| - 1]) * 10 + (s[|s| - 1] as int - '0' as int)
  }

  function ParseInt(s: string): int
    requires |s| > 0
    requires s[0] == '-' ==> forall i :: 1 <= i < |s| ==> IsDigit(s[i])
    requires s[0] != '-' ==> forall i :: 0 <= i < |s| ==> IsDigit(s[i])
  {
    if s[0] == '-' then -(ParseNat(s[1..]) as int) else ParseNat(s)
  }

  lemma {:induction false} NatDecimalRoundTrip(n: nat)
    ensures ParseNat(NatDecimal(n)) == n
  {
    var s := NatDecimal(n);
    if n >= 10 {
      NatDecimalRoundTrip(n / 10);
      assert s[..|s| - 1] == NatDecimal(n / 10);
    }
  }

  /** The printed form of an integer determines it. */
  lemma IntDecimalRoundTrip(n: int)
    ensures |IntDecimal(n)| > 0 && ParseInt(IntDecimal(n)) == n
  {
    if n < 0 {
      NatDecimalRoundTrip(-n);
      assert IntDecimal(n)[1..] == NatDecimal(-n);
    } else {
      NatDecimalRoundTrip(n);
    }
  }

  function FlagText(flag: int): string {
    if flag != 0 then "true\n" else "false\n"
  }

  /** A labelled line holding a value. */
  function Line(caption: string, value: string): string {
    caption + value + "\n"
  }

  /** A labelled line holding the truth of a flag. */
  function FlagLine(caption: string, flag: int): string {
    caption + FlagText(flag)
  }

  /** The text `operator<<` writes for a display entry. */
  function DescribeDisplayInfo(info: DispInfo): string {
    Line("Picture Index: ", IntDecimal(info.pictureIndex)) +
    (FlagLine("Progressive frame: ", info.progressiveFrame) +
    (FlagLine("Top field first: ", info.topFieldFirst) +
    (FlagLine("Repeat first field: ", info.repeatFirstField) +
     Line("Time stamp: ", IntDecimal(info.timestamp)))))
  }

  lemma PrefixCancel(p: string, x: string, y: string)
    requires p + x == p + y
    ensures x == y
  {
    assert x == (p + x)[|p|..];
  }

  /** Two lines with the same caption and newline-free values, each followed by
      more text, split the same way. */
  lemma LineCancel(caption: string, u: string, v: string, x: string, y: string)
    requires '\n' !in u && '\n' !in v
    requires Line(caption, u) + x == Line(caption, v) + y
    ensures u == v && x == y
  {
    var s := Line(caption, u) + x;
    assert s == caption + (u + "\n" + x) && s == caption + (v + "\n" + y);
    PrefixCancel(caption, u + "\n" + x, v + "\n" + y);
    var t := u + "\n" + x;
    assert t == v + "\n" + y;
    assert t[|u|] == '\n' && t[|v|] == '\n';
    assert forall i :: 0 <= i < |u| ==> t[i] == u[i];
    assert forall i :: 0 <= i < |v| ==> t[i] == v[i];
    assert |u| == |v|;
    assert u == t[..|u|] == v;
    PrefixCancel(u + "\n", x, y);
  }

  /** Two flag lines with the same caption, each followed by more text, show
      the same truth and split the same way. */
  lemma FlagLineCancel(caption: string, p: int, q: int, x: string, y: string)
    requires FlagLine(caption, p) + x == FlagLine(caption, q) + y
    ensures (p != 0 <==> q != 0) && x == y
  {
    var s := FlagLine(caption, p) + x;
    assert s == caption + (FlagText(p) + x) && s == caption + (FlagText(q) + y);
    PrefixCancel(caption, FlagText(p) + x, FlagText(q) + y);
    assert (FlagText(p) + x)[0] == FlagText(p)[0];
    assert (FlagText(q) + y)[0] == FlagText(q)[0];
    PrefixCancel(FlagText(p), x, y);
  }

  /** The text shows exactly the picture index, the truth of the three flags
      and the timestamp: two entries print alike iff they agree on these. */
  lemma DescribeShowsExactly(a: DispInfo, b: DispInfo)
    ensures DescribeDisplayInfo(a) == DescribeDisplayInfo(b) <==>
      a.pictureIndex == b.pictureIndex &&
      (a.progressiveFrame != 0 <==> b.progressiveFrame != 0) &&
      (a.topFieldFirst != 0 <==> b.topFieldFirst != 0) &&
      (a.repeatFirstField != 0 <==> b.repeatFirstField != 0) &&
      a.timestamp == b.timestamp
  {
    if DescribeDisplayInfo(a) == DescribeDisplayInfo(b) {
      var ta, tb := Line("Time stamp: ", IntDecimal(a.timestamp)), Line("Time stamp: ", IntDecimal(b.timestamp));
      var ra, rb := FlagLine("Repeat first field: ", a.repeatFirstField) + ta,
                    FlagLine("Repeat first field: ", b.repeatFirstField) + tb;
      var fa, fb := FlagLine("Top field first: ", a.topFieldFirst) + ra,
                    FlagLine("Top field first: ", b.topFieldFirst) + rb;
      var pa, pb := FlagLine("Progressive frame: ", a.progressiveFrame) + fa,
                    FlagLine("Progressive frame: ", b.progressiveFrame) + fb;
      LineCancel("Picture Index: ", IntDecimal(a.pictureIndex), IntDecimal(b.pictureIndex), pa, pb);
      FlagLineCancel("Progressive frame: ", a.progressiveFrame, b.progressiveFrame, fa, fb);
      FlagLineCancel("Top field first: ", a.topFieldFirst, b.topFieldFirst, ra, rb);
      FlagLineCancel("Repeat first field: ", a.repeatFirstField, b.repeatFirstField, ta, tb);
      assert ta + [] == tb + [];
      LineCancel("Time stamp: ", IntDecimal(a.timestamp), IntDecimal(b.timestamp), [], []);
      IntDecimalRoundTrip(a.pictureIndex);
      IntDecimalRoundTrip(b.pictureIndex);
      IntDecimalRoundTrip(a.timestamp);
      IntDecimalRoundTrip(b.timestamp);
    }
  }
}
