/** Records of the NVCUVID decode interface that the core reads and fills.
    Field names follow the C structures they model (CUVIDEOFORMAT,
    CUVIDPARSERDISPINFO, CUVIDPROCPARAMS, CUVIDSOURCEDATAPACKET). */
module CuvidTypes {

  datatype Option<+T> = None | Some(value: T)

  /** cudaVideoCodec; the enumerator with value 0 is MPEG1. */
  datatype CudaCodec = MPEG1 | MPEG2 | MPEG4 | VC1 | H264 | JPEG | H264SVC | H264MVC | HEVC | VP8 | VP9

  /** cudaVideoChromaFormat; the enumerator with value 0 is Monochrome. */
  datatype ChromaFormat = Monochrome | Chroma420 | Chroma422 | Chroma444

  const UINT32_MODULUS: int := 0x1_0000_0000

  /** C conversion of a signed value to `unsigned int` (and `unsigned int`
      arithmetic): reduction modulo 2^32. */
  function ToUInt32(x: int): (r: int)
    ensures 0 <= r < UINT32_MODULUS
    ensures 0 <= x < UINT32_MODULUS ==> r == x
    ensures (r - x) % UINT32_MODULUS == 0
  {
    x % UINT32_MODULUS
  }

  function Abs(x: int): int { if x < 0 then -x else x }

  datatype Rect = Rect(left: int, top: int, right: int, bottom: int)

  datatype FrameRate = FrameRate(numerator: int, denominator: int)

  /** CUVIDEOFORMAT, reduced to the fields the core reads or writes. */
  datatype VideoFormat = VideoFormat(
    codec: CudaCodec,
    frameRate: FrameRate,
    progressiveSequence: bool,
    codedWidth: int,       // unsigned int
    codedHeight: int,      // unsigned int
    displayArea: Rect,     // four ints
    chromaFormat: ChromaFormat,
    bitrate: int)

  /** The all-zero format that `memset(&g_stFormat, 0, ...)` produces. */
  const ZeroFormat: VideoFormat :=
    VideoFormat(MPEG1, FrameRate(0, 0), false, 0, 0, Rect(0, 0, 0, 0), Monochrome, 0)

  /** CUVIDPARSERDISPINFO: one picture the parser hands out for display.
      All fields are C `int` except the 64-bit timestamp. */
  datatype DispInfo = DispInfo(
    pictureIndex: int,
    progressiveFrame: int,
    topFieldFirst: int,
    repeatFirstField: int,
    timestamp: int)

  /** CUVIDPROCPARAMS, reduced to the four fields the core sets. */
  datatype ProcParams = ProcParams(
    progressiveFrame: int,
    secondField: int,
    topFieldFirst: int,
    unpairedField: int)

  /** CUVIDPICPARAMS, reduced to the index of the surface to decode into. */
  datatype PicParams = PicParams(currPicIdx: int)

  /** CUVIDSOURCEDATAPACKET. The payload bytes are not modelled, only their size. */
  datatype SourcePacket = SourcePacket(flags: bv64, payloadSize: int, timestamp: int)

  const PKT_ENDOFSTREAM: bv64 := 0x01
  const PKT_TIMESTAMP: bv64 := 0x02

  predicate HasEndOfStream(flags: bv64) { flags & PKT_ENDOFSTREAM != 0 }
}
