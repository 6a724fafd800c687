/** VideoSource.cpp: opening the container, deriving the decoder's stream
    format from the codec context, the demux thread that feeds packets to the
    parser, and the latch-guarded packet handler.

    The file's globals (g_stFormat, videoindex, pCodecCtx, h264bsfc) and the
    `oSourceData_` record are fields of the `VideoSource` class: there is one
    source at a time. FFmpeg is represented by the values it returns. */
module VideoSourceModel {
  import opened CuvidTypes
  import opened Collaborators

  // ---------------------------------------------------------------------
  // FFmpeg inputs
  // ---------------------------------------------------------------------

  datatype AvCodecId =
    | AvH263 | AvH264 | AvHevc | AvMjpeg | AvMpeg1Video | AvMpeg2Video | AvMpeg4 | AvVc1
    | AvVp8 | AvVp9 | AvOtherCodec(id: int)

  datatype AvPixelFormat = YUV420P | YUV422P | YUV444P | OtherPixelFormat(id: int)

  datatype AvFieldOrder = FieldUnknown | FieldProgressive | FieldTT | FieldBB | FieldTB | FieldBT

  datatype AvMediaType = MediaVideo | MediaAudio | MediaOther

  datatype Rational = Rational(num: int, den: int)

  /** AV_TIME_BASE, the time base timestamps are rescaled to: microseconds. */
  const AV_TIME_BASE: int := 1000000

  /** The fields of a stream's AVCodecContext that the source reads, and
      whether `avcodec_find_decoder` found a decoder for its codec. */
  datatype CodecContext = CodecContext(
    mediaType: AvMediaType,
    codecId: AvCodecId,
    decoderFound: bool,
    swPixFmt: AvPixelFormat,
    fieldOrder: AvFieldOrder,
    codedWidth: int,
    codedHeight: int,
    width: int,
    height: int,
    pktTimebase: Rational)

  /** The outcome of `avformat_open_input` and `avformat_find_stream_info`. */
  datatype Demux = OpenFailed | NoStreamInfo | Opened(streams: seq<CodecContext>)

  /** The bitstream filter `h264bsfc` holds (null, or one of the two filters). */
  datatype BitstreamFilter = NoFilter | H264Mp4ToAnnexB | HevcMp4ToAnnexB

  // ---------------------------------------------------------------------
  // Stream-format derivation
  // ---------------------------------------------------------------------

  /** Reference table, read from the decoder's side: the container codecs
      that decode with `d`. */
  function ContainerCodecs(d: CudaCodec): set<AvCodecId> {
    match d
    case MPEG1 => {AvMpeg1Video}
    case MPEG2 => {AvMpeg2Video}
    case MPEG4 => {AvH263, AvMpeg4}
    case VC1 => {AvVc1}
    case H264 => {AvH264}
    case JPEG => {AvMjpeg}
    case HEVC => {AvHevc}
    case _ => {}
  }

  /** The codec switch of `init`: None is the `default: return false` arm. */
  function MapCodec(c: AvCodecId): (r: Option<CudaCodec>)
    ensures forall d :: c in ContainerCodecs(d) <==> r == Some(d)
  {
    match c
    case AvH263 => Some(MPEG4)
    case AvH264 => Some(H264)
    case AvHevc => Some(HEVC)
    case AvMjpeg => Some(JPEG)
    case AvMpeg1Video => Some(MPEG1)
    case AvMpeg2Video => Some(MPEG2)
    case AvMpeg4 => Some(MPEG4)
    case AvVc1 => Some(VC1)
    case _ => None
  }

  /** Reference table: the planar pixel format that carries chroma format `c`. */
  function PlanarPixelFormat(c: ChromaFormat): Option<AvPixelFormat> {
    match c
    case Chroma420 => Some(YUV420P)
    case Chroma422 => Some(YUV422P)
    case Chroma444 => Some(YUV444P)
    case Monochrome => None
  }

  /** The pixel-format switch of `init`: total, defaulting to 4:2:0. */
  function MapChroma(p: AvPixelFormat): (r: ChromaFormat)
    ensures PlanarPixelFormat(r) == Some(p)
         || (r == Chroma420 && forall c :: PlanarPixelFormat(c) != Some(p))
  {
    match p
    case YUV420P => Chroma420
    case YUV422P => Chroma422
    case YUV444P => Chroma444
    case OtherPixelFormat(_) => Chroma420
  }

  predicate IsProgressiveFieldOrder(f: AvFieldOrder) {
    f == FieldProgressive || f == FieldUnknown
  }

  /** The record `init` leaves in g_stFormat once the codec is supported:
      it starts from all zeroes and sets codec, chroma format, progressive
      flag, coded size (converted to unsigned int) and display area. */
  function DeriveFormat(ctx: CodecContext, codec: CudaCodec): VideoFormat {
    ZeroFormat.(
      codec := codec,
      chromaFormat := MapChroma(ctx.swPixFmt),
      progressiveSequence := IsProgressiveFieldOrder(ctx.fieldOrder),
      codedWidth := ToUInt32(ctx.codedWidth),
      codedHeight := ToUInt32(ctx.codedHeight),
      displayArea := Rect(0, 0, ctx.width, ctx.height))
  }

  /** `getSourceDimensions`: the coded size. */
  function SourceDimensions(f: VideoFormat): (int, int) {
    (f.codedWidth, f.codedHeight)
  }

  /** `getDisplayDimensions`: the absolute extents of the display area. */
  function DisplayDimensions(f: VideoFormat): (int, int) {
    (Abs(f.displayArea.right - f.displayArea.left), Abs(f.displayArea.bottom - f.displayArea.top))
  }

  /** `getProgressive`: progressive_sequence != 0. */
  function Progressive(f: VideoFormat): bool {
    f.progressiveSequence
  }

  /** What the getters read back from a freshly derived format. */
  lemma FormatGettersReadBack(ctx: CodecContext, codec: CudaCodec)
    ensures SourceDimensions(DeriveFormat(ctx, codec)) == (ToUInt32(ctx.codedWidth), ToUInt32(ctx.codedHeight))
    ensures DisplayDimensions(DeriveFormat(ctx, codec)) == (Abs(ctx.width), Abs(ctx.height))
    ensures Progressive(DeriveFormat(ctx, codec)) <==> ctx.fieldOrder in {FieldProgressive, FieldUnknown}
    ensures 0 <= ctx.width && 0 <= ctx.height ==> DisplayDimensions(DeriveFormat(ctx, codec)) == (ctx.width, ctx.height)
    ensures DeriveFormat(ctx, codec).frameRate == FrameRate(0, 0) && DeriveFormat(ctx, codec).bitrate == 0
  {
  }

  // ---------------------------------------------------------------------
  // C strings and strcmp
  // ---------------------------------------------------------------------

  /** The C string `c_str()` hands to strcmp: everything before the first NUL. */
  function CString(s: string): (r: string)
    ensures r <= s && '\0' !in r
    ensures |r| < |s| ==> s[|r|] == '\0'
  {
    if s == [] || s[0] == '\0' then [] else [s[0]] + CString(s[1..])
  }

  /** The sign of strcmp(a, b): characters compare by code, and the end of a
      string compares below every character. */
  function StrCmp(a: string, b: string): (r: int)
    ensures -1 <= r <= 1
    ensures r == 0 <==> a == b
  {
    if a == [] && b == [] then 0
    else if a == [] then -1
    else if b == [] then 1
    else if a[0] < b[0] then -1
    else if a[0] > b[0] then 1
    else
      var r := StrCmp(a[1..], b[1..]);
      assert r == 0 ==> a == [a[0]] + a[1..] && b == [b[0]] + b[1..];
      r
  }

  /** `a` and `b` agree before position `k`, where `a` has the smaller character. */
  ghost predicate FirstDifferenceLess(a: string, b: string, k: int) {
    0 <= k < |a| && k < |b| && a[..k] == b[..k] && a[k] < b[k]
  }

  /** Lexicographic order, defined independently of StrCmp. */
  ghost predicate LexLess(a: string, b: string) {
    (|a| < |b| && a == b[..|a|]) || (exists k :: FirstDifferenceLess(a, b, k))
  }

  lemma LexLessTailDown(a: string, b: string)
    requires a != [] && b != [] && a[0] == b[0] && LexLess(a, b)
    ensures LexLess(a[1..], b[1..])
  {
    var a', b' := a[1..], b[1..];
    if |a| < |b| && a == b[..|a|] {
      assert a' == b'[..|a'|];
    } else {
      var k :| FirstDifferenceLess(a, b, k);
      assert k != 0;
      assert a'[..k - 1] == a[..k][1..];
      assert b'[..k - 1] == b[..k][1..];
      assert FirstDifferenceLess(a', b', k - 1);
    }
  }

  lemma LexLessTailUp(a: string, b: string)
    requires a != [] && b != [] && a[0] == b[0] && LexLess(a[1..], b[1..])
    ensures LexLess(a, b)
  {
    var a', b' := a[1..], b[1..];
    if |a'| < |b'| && a' == b'[..|a'|] {
      assert a == [a[0]] + a';
      assert b[..|a|] == [b[0]] + b'[..|a'|];
    } else {
      var k :| FirstDifferenceLess(a', b', k);
      assert a[..k + 1] == [a[0]] + a'[..k];
      assert b[..k + 1] == [b[0]] + b'[..k];
      assert FirstDifferenceLess(a, b, k + 1);
    }
  }

  lemma LexLessTail(a: string, b: string)
    requires a != [] && b != [] && a[0] == b[0]
    ensures LexLess(a, b) <==> LexLess(a[1..], b[1..])
  {
    if LexLess(a, b) {
      LexLessTailDown(a, b);
    }
    if LexLess(a[1..], b[1..]) {
      LexLessTailUp(a, b);
    }
  }

  /** strcmp is negative exactly when its first argument sorts first. */
  lemma {:induction false} StrCmpIsLexicographic(a: string, b: string)
    ensures StrCmp(a, b) < 0 <==> LexLess(a, b)
  {
    if a == [] || b == [] {
    } else if a[0] < b[0] {
      assert FirstDifferenceLess(a, b, 0);
    } else if a[0] > b[0] {
      if LexLess(a, b) {
        if |a| < |b| && a == b[..|a|] {
          assert a[0] == b[0];
        } else {
          var k :| FirstDifferenceLess(a, b, k);
          assert k != 0 ==> a[0] == a[..k][0] == b[..k][0] == b[0];
        }
      }
    } else {
      StrCmpIsLexicographic(a[1..], b[1..]);
      LexLessTail(a, b);
    }
  }

  /** A string never sorts after a longer string it is a prefix of. */
  lemma {:induction false} StrCmpPrefixNotAfter(p: string, s: string)
    requires p <= s
    ensures StrCmp(p, s) <= 0
  {
    if p != [] {
      assert p[0] == s[0];
      assert p[1..] <= s[1..];
      StrCmpPrefixNotAfter(p[1..], s[1..]);
    }
  }

  /** The test `strcmp("rtsp", fileName) <= 0` that clears the filter. */
  predicate ClearsFilter(fileName: string) {
    StrCmp("rtsp", CString(fileName)) <= 0
  }

  /** Every rtsp URL clears the filter ... */
  lemma RtspUrlsClearFilter(fileName: string)
    requires "rtsp" <= CString(fileName)
    ensures ClearsFilter(fileName)
  {
    StrCmpPrefixNotAfter("rtsp", CString(fileName));
  }

  /** ... and, beyond those, every name that sorts after "rtsp". */
  lemma ClearsFilterIsLexicographic(fileName: string)
    ensures ClearsFilter(fileName) <==> CString(fileName) == "rtsp" || LexLess("rtsp", CString(fileName))
  {
    StrCmpIsLexicographic("rtsp", CString(fileName));
  }

  /** A plain file name such as "video.mp4" sorts after "rtsp" and so clears
      the filter, although it is no rtsp URL; "clip.mp4" sorts before and
      keeps it. */
  lemma PlainNamesAfterRtspClearFilter()
    ensures ClearsFilter("video.mp4") && !("rtsp" <= "video.mp4")
    ensures !ClearsFilter("clip.mp4")
  {
  }

  // ---------------------------------------------------------------------
  // Locating the video stream (the search loop of init)
  // ---------------------------------------------------------------------

  predicate IsFirstVideoStream(streams: seq<CodecContext>, i: int) {
    0 <= i < |streams| && streams[i].mediaType == MediaVideo &&
    forall j :: 0 <= j < i ==> streams[j].mediaType != MediaVideo
  }

  /** The first stream whose type is video, or -1 when there is none. */
  method FindVideoStream(streams: seq<CodecContext>) returns (index: int)
    ensures index == -1 <==> forall j :: 0 <= j < |streams| ==> streams[j].mediaType != MediaVideo
    ensures index != -1 ==> IsFirstVideoStream(streams, index)
  {
    index := -1;
    var i := 0;
    while i < |streams|
      invariant 0 <= i <= |streams|
      invariant forall j :: 0 <= j < i ==> streams[j].mediaType != MediaVideo
    {
      if streams[i].mediaType == MediaVideo {
        index := i;
        return;
      }
      i := i + 1;
    }
  }

  // ---------------------------------------------------------------------
  // The demux thread (internal_thread_entry, the `#if 1` version)
  // ---------------------------------------------------------------------

  /** One packet `av_read_frame` returns. `pts == None` is AV_NOPTS_VALUE. */
  datatype AvPacket = AvPacket(streamIndex: int, size: int, pts: Option<int>)

  /** Everything the loop consumes: the packets `av_read_frame` returns before
      it fails, the result of the parse call made for each packet (used only
      if the packet is forwarded), the video stream index, the stream's packet
      time base, and `av_rescale_q`. */
  datatype SourceFeed = SourceFeed(
    packets: seq<AvPacket>,
    parseOk: seq<bool>,
    videoIndex: int,
    timebase: Rational,
    rescale: (int, Rational, Rational) -> int)
  {
    predicate Valid() { |parseOk| == |packets| }
  }

  /** One `cuvidParseVideoData` call: the index of the packet it came from,
      the packet record passed, and whether parsing succeeded. */
  datatype Forwarded = Forwarded(index: nat, packet: SourcePacket, parsed: bool)

  /** The calls made and the number of packets read before the loop ended. */
  datatype LoopOutcome = LoopOutcome(forwarded: seq<Forwarded>, read: nat)

  /** How the loop rewrites the reused `cupkt` for a video packet: a
      non-empty packet sets the payload size and, if it has a pts, the
      TIMESTAMP flag and the (possibly rescaled) timestamp; an empty packet
      only sets the ENDOFSTREAM flag. Nothing else is reset. */
  function StampPacket(prev: SourcePacket, p: AvPacket, tb: Rational, rescale: (int, Rational, Rational) -> int): SourcePacket {
    if p.size != 0 then
      var c := prev.(payloadSize := p.size);
      match p.pts
      case None => c
      case Some(pts) =>
        c.(flags := PKT_TIMESTAMP,
           timestamp := if tb.num != 0 && tb.den != 0 then rescale(pts, tb, Rational(1, AV_TIME_BASE)) else pts)
    else
      prev.(flags := PKT_ENDOFSTREAM)
  }

  /** The loop's exit test after a parse call. */
  predicate Terminal(f: Forwarded) {
    HasEndOfStream(f.packet.flags) || !f.parsed
  }

  /** The loop from packet `i` on, with `cupkt` holding `c`. */
  function SourceRun(feed: SourceFeed, i: nat, c: SourcePacket): LoopOutcome
    requires feed.Valid() && i <= |feed.packets|
    decreases |feed.packets| - i
  {
    if i == |feed.packets| then LoopOutcome([], i)
    else if feed.packets[i].streamIndex != feed.videoIndex then SourceRun(feed, i + 1, c)
    else
      var c' := StampPacket(c, feed.packets[i], feed.timebase, feed.rescale);
      var f := Forwarded(i, c', feed.parseOk[i]);
      if Terminal(f) then LoopOutcome([f], i + 1)
      else
        var rest := SourceRun(feed, i + 1, c');
        LoopOutcome([f] + rest.forwarded, rest.read)
  }

  /** Only video packets are forwarded, in stream order, and the loop reads
      no packet beyond the last one it forwards a terminal record for. */
  lemma {:induction false} RunForwardsOnlyVideo(feed: SourceFeed, i: nat, c: SourcePacket)
    requires feed.Valid() && i <= |feed.packets|
    ensures var o := SourceRun(feed, i, c);
      i <= o.read <= |feed.packets| &&
      (forall k :: 0 <= k < |o.forwarded| ==>
        i <= o.forwarded[k].index < o.read &&
        feed.packets[o.forwarded[k].index].streamIndex == feed.videoIndex) &&
      (forall k, l :: 0 <= k < l < |o.forwarded| ==> o.forwarded[k].index < o.forwarded[l].index)
    decreases |feed.packets| - i
  {
    if i < |feed.packets| {
      RunForwardsOnlyVideo(feed, i + 1, if feed.packets[i].streamIndex != feed.videoIndex then c
                                        else StampPacket(c, feed.packets[i], feed.timebase, feed.rescale));
    }
  }

  /** Every video packet read is forwarded. */
  lemma {:induction false} RunForwardsEveryVideoPacket(feed: SourceFeed, i: nat, c: SourcePacket, j: nat)
    requires feed.Valid() && i <= |feed.packets|
    requires i <= j < SourceRun(feed, i, c).read && j < |feed.packets|
    requires feed.packets[j].streamIndex == feed.videoIndex
    ensures exists k :: 0 <= k < |SourceRun(feed, i, c).forwarded| && SourceRun(feed, i, c).forwarded[k].index == j
    decreases |feed.packets| - i
  {
    var o := SourceRun(feed, i, c);
    if feed.packets[i].streamIndex != feed.videoIndex {
      RunForwardsEveryVideoPacket(feed, i + 1, c, j);
    } else if j == i {
      assert o.forwarded[0].index == j;
    } else {
      var c' := StampPacket(c, feed.packets[i], feed.timebase, feed.rescale);
      var rest := SourceRun(feed, i + 1, c');
      RunForwardsEveryVideoPacket(feed, i + 1, c', j);
      var k :| 0 <= k < |rest.forwarded| && rest.forwarded[k].index == j;
      assert o.forwarded[k + 1] == rest.forwarded[k];
    }
  }

  /** The loop stops right after the first terminal parse call (an
      ENDOFSTREAM record or a failed parse); otherwise it reads every packet. */
  lemma {:induction false} RunStopsAtFirstTerminal(feed: SourceFeed, i: nat, c: SourcePacket)
    requires feed.Valid() && i <= |feed.packets|
    ensures var o := SourceRun(feed, i, c);
      (forall k :: 0 <= k < |o.forwarded| - 1 ==> !Terminal(o.forwarded[k])) &&
      (o.read == |feed.packets| ||
        (|o.forwarded| > 0 && Terminal(o.forwarded[|o.forwarded| - 1]) &&
         o.read == o.forwarded[|o.forwarded| - 1].index + 1))
    decreases |feed.packets| - i
  {
    if i < |feed.packets| {
      var c' := if feed.packets[i].streamIndex != feed.videoIndex then c
                else StampPacket(c, feed.packets[i], feed.timebase, feed.rescale);
      RunStopsAtFirstTerminal(feed, i + 1, c');
      RunForwardsOnlyVideo(feed, i + 1, c');
    }
  }

  /** Each forwarded record is the previous one (or `c`) restamped from its
      packet, with that packet's parse result. */
  predicate StampedInOrder(feed: SourceFeed, c: SourcePacket, forwarded: seq<Forwarded>)
    requires feed.Valid()
  {
    forall k :: 0 <= k < |forwarded| ==>
      forwarded[k].index < |feed.packets| &&
      forwarded[k].packet == StampPacket(if k == 0 then c else forwarded[k - 1].packet,
                                         feed.packets[forwarded[k].index], feed.timebase, feed.rescale) &&
      forwarded[k].parsed == feed.parseOk[forwarded[k].index]
  }

  /** Each record passed to the parser is the previous one (or the initial
      content of `cupkt`) restamped from its packet. */
  lemma {:induction false} RunStampsEachRecord(feed: SourceFeed, i: nat, c: SourcePacket)
    requires feed.Valid() && i <= |feed.packets|
    ensures StampedInOrder(feed, c, SourceRun(feed, i, c).forwarded)
    decreases |feed.packets| - i
  {
    RunForwardsOnlyVideo(feed, i, c);
    if i < |feed.packets| {
      if feed.packets[i].streamIndex != feed.videoIndex {
        RunStampsEachRecord(feed, i + 1, c);
        assert SourceRun(feed, i, c) == SourceRun(feed, i + 1, c);
      } else {
        var c' := StampPacket(c, feed.packets[i], feed.timebase, feed.rescale);
        var f := Forwarded(i, c', feed.parseOk[i]);
        if !Terminal(f) {
          var o, rest := SourceRun(feed, i, c), SourceRun(feed, i + 1, c');
          RunStampsEachRecord(feed, i + 1, c');
          RunForwardsOnlyVideo(feed, i + 1, c');
          assert o.forwarded == [f] + rest.forwarded;
          forall k | 1 <= k < |o.forwarded|
            ensures o.forwarded[k].packet == StampPacket(o.forwarded[k - 1].packet,
                      feed.packets[o.forwarded[k].index], feed.timebase, feed.rescale)
          {
            assert o.forwarded[k] == rest.forwarded[k - 1];
            assert k - 1 == 0 ==> o.forwarded[k - 1].packet == c';
            assert k - 1 > 0 ==> o.forwarded[k - 1] == rest.forwarded[k - 2];
          }
        }
      }
    }
  }

  /** The flag and timestamp a record carries: an empty packet gets
      ENDOFSTREAM, a non-empty one with a pts gets TIMESTAMP and the pts,
      rescaled to AV_TIME_BASE only when both parts of the time base are
      non-zero; a non-empty one without a pts keeps the previous flag and
      timestamp. */
  lemma PacketFlagsAndTimestamp(prev: SourcePacket, p: AvPacket, tb: Rational, rescale: (int, Rational, Rational) -> int)
    ensures var r := StampPacket(prev, p, tb, rescale);
      (p.size == 0 ==> r.flags == PKT_ENDOFSTREAM && HasEndOfStream(r.flags) &&
                       r.payloadSize == prev.payloadSize && r.timestamp == prev.timestamp) &&
      (p.size != 0 && p.pts.Some? ==>
         r.flags == PKT_TIMESTAMP && !HasEndOfStream(r.flags) && r.payloadSize == p.size &&
         r.timestamp == (if tb.num != 0 && tb.den != 0 then rescale(p.pts.value, tb, Rational(1, AV_TIME_BASE))
                         else p.pts.value)) &&
      (p.size != 0 && p.pts.None? ==>
         r.flags == prev.flags && r.timestamp == prev.timestamp && r.payloadSize == p.size)
  {
  }

  // ---------------------------------------------------------------------
  // The source object
  // ---------------------------------------------------------------------

  class VideoSource {
    /** oSourceData_.pFrameQueue: null until `init` installs the queue. */
    var frameQueue: FrameQueue?
    /** oSourceData_.hVideoParser: uninitialised until `init` zeroes it. */
    var parserHandle: int
    /** g_stFormat. */
    var format: VideoFormat
    /** videoindex. */
    var videoIndex: int
    /** *pCodecCtx, once a video stream is found. */
    var codecContext: Option<CodecContext>
    /** h264bsfc. */
    var filter: BitstreamFilter

    /** The constructor sets only `hVideoSource_`, which is not modelled; the
        file's globals (format, stream index, codec context, filter) start
        zeroed as static storage. The frame queue is installed, and the parser
        handle zeroed, by `init`. */
    constructor ()
      ensures frameQueue == null
      ensures format == ZeroFormat && videoIndex == 0 && codecContext == None && filter == NoFilter
    {
      frameQueue := null;
      format := ZeroFormat;
      videoIndex := 0;
      codecContext := None;
      filter := NoFilter;
    }

    /** `init`: open the input, find the first video stream and derive the
        format record and bitstream filter from its codec context. */
    method Init(fileName: string, demux: Demux, frameQueue: FrameQueue) returns (ok: bool)
      modifies this
      ensures this.frameQueue == frameQueue && parserHandle == 0
      ensures !demux.Opened? ==>
        !ok && format == old(format) && filter == old(filter) && videoIndex == old(videoIndex) &&
        codecContext == old(codecContext)
      ensures demux.Opened? && (forall j :: 0 <= j < |demux.streams| ==> demux.streams[j].mediaType != MediaVideo) ==>
        !ok && videoIndex == -1 && format == old(format) && filter == old(filter) &&
        codecContext == old(codecContext)
      ensures demux.Opened? ==>
        (videoIndex == -1 <==> forall j :: 0 <= j < |demux.streams| ==> demux.streams[j].mediaType != MediaVideo)
      ensures demux.Opened? && videoIndex != -1 ==>
        IsFirstVideoStream(demux.streams, videoIndex) && codecContext == Some(demux.streams[videoIndex])
      ensures demux.Opened? && videoIndex != -1 && !codecContext.value.decoderFound ==>
        !ok && format == old(format) && filter == old(filter)
      ensures demux.Opened? && videoIndex != -1 && codecContext.value.decoderFound &&
              MapCodec(codecContext.value.codecId).None? ==>
        !ok && format == ZeroFormat && filter == old(filter)
      ensures ok <==> demux.Opened? && videoIndex != -1 &&
                      codecContext.value.decoderFound && MapCodec(codecContext.value.codecId).Some?
      ensures ok ==>
        var ctx := codecContext.value;
        format == DeriveFormat(ctx, MapCodec(ctx.codecId).value) &&
        filter == (if ClearsFilter(fileName) then NoFilter
                   else if ctx.codecId == AvH264 then H264Mp4ToAnnexB
                   else if ctx.codecId == AvHevc then HevcMp4ToAnnexB
                   else old(filter))
    {
      this.frameQueue := frameQueue;
      parserHandle := 0;
      if !demux.Opened? {
        return false;
      }
      var index := FindVideoStream(demux.streams);
      videoIndex := index;
      if index == -1 {
        return false;
      }
      var ctx := demux.streams[index];
      codecContext := Some(ctx);
      if !ctx.decoderFound {
        return false;
      }
      format := ZeroFormat;
      var codec := MapCodec(ctx.codecId);
      if codec.None? {
        return false;
      }
      format := format.(codec := codec.value);
      format := format.(chromaFormat := MapChroma(ctx.swPixFmt));
      format := format.(progressiveSequence := IsProgressiveFieldOrder(ctx.fieldOrder));
      format := format.(codedWidth := ToUInt32(ctx.codedWidth));
      format := format.(codedHeight := ToUInt32(ctx.codedHeight));
      format := format.(displayArea := Rect(0, 0, ctx.width, ctx.height));
      if ctx.codecId == AvH264 || ctx.codecId == AvHevc {
        if ctx.codecId == AvH264 {
          filter := H264Mp4ToAnnexB;
        } else {
          filter := HevcMp4ToAnnexB;
        }
      }
      if StrCmp("rtsp", CString(fileName)) <= 0 {
        filter := NoFilter;
      }
      ok := true;
    }

    /** `internal_thread_entry`: read packets until `av_read_frame` fails,
        forward each video packet to the parser in the reused record `cupkt`
        (whose content before the first packet is `initial`), stop right after
        a terminal parse call, then signal end of decode once. */
    method InternalThreadEntry(packets: seq<AvPacket>, parseOk: seq<bool>,
                               rescale: (int, Rational, Rational) -> int, initial: SourcePacket)
      returns (forwarded: seq<Forwarded>, read: nat)
      requires frameQueue != null && |parseOk| == |packets| && codecContext.Some?
      modifies frameQueue`endOfDecode, frameQueue`endDecodeCalls
      ensures LoopOutcome(forwarded, read) ==
              SourceRun(SourceFeed(packets, parseOk, videoIndex, codecContext.value.pktTimebase, rescale), 0, initial)
      ensures frameQueue.endOfDecode && frameQueue.endDecodeCalls == old(frameQueue.endDecodeCalls) + 1
    {
      var feed := SourceFeed(packets, parseOk, videoIndex, codecContext.value.pktTimebase, rescale);
      var cupkt := initial;
      var i := 0;
      var stop := false;
      forwarded := [];
      while i < |packets| && !stop
        invariant 0 <= i <= |packets|
        invariant !stop ==> SourceRun(feed, 0, initial) ==
                            LoopOutcome(forwarded + SourceRun(feed, i, cupkt).forwarded, SourceRun(feed, i, cupkt).read)
        invariant stop ==> SourceRun(feed, 0, initial) == LoopOutcome(forwarded, i)
        decreases |packets| - i
      {
        var pkt := packets[i];
        if pkt.streamIndex == videoIndex {
          cupkt := StampPacket(cupkt, pkt, feed.timebase, rescale);
          var parsed := parseOk[i];
          forwarded := forwarded + [Forwarded(i, cupkt, parsed)];
          if HasEndOfStream(cupkt.flags) || !parsed {
            stop := true;
          }
        }
        i := i + 1;
      }
      read := i;
      frameQueue.EndDecode();
    }

    /** `HandleVideoData`: while decoding is not finished, parse the packet
        and latch end of decode on ENDOFSTREAM or a failed parse; report
        whether decoding goes on. `parsed` tells whether the parser was called. */
    method HandleVideoData(packet: SourcePacket, parseSucceeds: bool) returns (result: int, parsed: bool)
      requires frameQueue != null
      modifies frameQueue`endOfDecode, frameQueue`endDecodeCalls
      ensures parsed == !old(frameQueue.endOfDecode)
      ensures old(frameQueue.endOfDecode) ==> frameQueue.endOfDecode && result == 0
      ensures frameQueue.endOfDecode ==
              (old(frameQueue.endOfDecode) || HasEndOfStream(packet.flags) || !parseSucceeds)
      ensures result == (if frameQueue.IsDecodeFinished() then 0 else 1)
      ensures frameQueue.endDecodeCalls == old(frameQueue.endDecodeCalls) +
        (if !old(frameQueue.endOfDecode) && (HasEndOfStream(packet.flags) || !parseSucceeds) then 1 else 0)
    {
      parsed := false;
      if !frameQueue.IsDecodeFinished() {
        parsed := true;
        if HasEndOfStream(packet.flags) || !parseSucceeds {
          frameQueue.EndDecode();
        }
      }
      result := if frameQueue.IsDecodeFinished() then 0 else 1;
    }
  }
}
