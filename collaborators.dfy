/** The two objects the core talks to but whose code is not part of this
    model: the frame queue (FrameQueue.h/.cpp) and the hardware decoder
    (VideoDecoder.h/.cpp). Each keeps only what the core can observe: the
    frame queue's set-once end-of-decode latch, the display entries that
    `dequeue` will hand out, an availability oracle for
    `waitUntilFrameAvailable`, and logs of the calls made on them. */
module Collaborators {
  import opened CuvidTypes

  class FrameQueue {
    /** The end-of-decode latch, set by `endDecode` and never cleared. */
    var endOfDecode: bool
    /** Display entries `dequeue` hands out, oldest first. */
    var ready: seq<DispInfo>
    /** Surface indices `waitUntilFrameAvailable` reports as free (an oracle:
        the blocking wait itself is not modelled). */
    var available: set<int>
    /** Picture indices passed to `waitUntilFrameAvailable`, in call order. */
    var waited: seq<int>
    /** Picture indices passed to `releaseFrame`, in call order. */
    var released: seq<int>
    /** Number of `endDecode` calls. */
    var endDecodeCalls: nat

    constructor (ready: seq<DispInfo>, available: set<int>)
      ensures !endOfDecode && this.ready == ready && this.available == available
      ensures waited == [] && released == [] && endDecodeCalls == 0
    {
      endOfDecode := false;
      this.ready := ready;
      this.available := available;
      waited := [];
      released := [];
      endDecodeCalls := 0;
    }

    function IsDecodeFinished(): bool
      reads this
    {
      endOfDecode
    }

    method EndDecode()
      modifies this`endOfDecode, this`endDecodeCalls
      ensures endOfDecode && endDecodeCalls == old(endDecodeCalls) + 1
    {
      endOfDecode := true;
      endDecodeCalls := endDecodeCalls + 1;
    }

    method Dequeue() returns (entry: Option<DispInfo>)
      modifies this`ready
      ensures old(ready) == [] ==> entry == None && ready == []
      ensures old(ready) != [] ==> entry == Some(old(ready)[0]) && ready == old(ready)[1..]
    {
      if ready == [] {
        entry := None;
      } else {
        entry := Some(ready[0]);
        ready := ready[1..];
      }
    }

    method ReleaseFrame(info: DispInfo)
      modifies this`released
      ensures released == old(released) + [info.pictureIndex]
    {
      released := released + [info.pictureIndex];
    }

    method WaitUntilFrameAvailable(pictureIndex: int) returns (ok: bool)
      modifies this`waited
      ensures ok == (pictureIndex in available)
      ensures waited == old(waited) + [pictureIndex]
    {
      ok := pictureIndex in available;
      waited := waited + [pictureIndex];
    }
  }

  /** What the decoder was created with. */
  datatype DecoderConfig = DecoderConfig(
    codec: CudaCodec,
    frameWidth: int,
    frameHeight: int,
    chromaFormat: ChromaFormat,
    maxDecodeSurfaces: int,
    targetWidth: bv32,
    targetHeight: bv32)

  /** One `mapFrame` call: the picture mapped and the processing parameters. */
  datatype MapCall = MapCall(pictureIndex: int, params: ProcParams)

  class VideoDecoder {
    const config: DecoderConfig
    /** Picture indices passed to `decodePicture`, in call order. */
    var decoded: seq<int>
    /** `mapFrame` calls in order; the n-th call hands out device pointer n. */
    var mapped: seq<MapCall>
    /** Device pointers passed to `unmapFrame`, in call order. */
    var unmapped: seq<nat>

    constructor (config: DecoderConfig)
      ensures this.config == config && decoded == [] && mapped == [] && unmapped == []
    {
      this.config := config;
      decoded := [];
      mapped := [];
      unmapped := [];
    }

    method DecodePicture(params: PicParams)
      modifies this`decoded
      ensures decoded == old(decoded) + [params.currPicIdx]
    {
      decoded := decoded + [params.currPicIdx];
    }

    method MapFrame(pictureIndex: int, params: ProcParams) returns (devicePtr: nat)
      modifies this`mapped
      ensures devicePtr == |old(mapped)|
      ensures mapped == old(mapped) + [MapCall(pictureIndex, params)]
    {
      devicePtr := |mapped|;
      mapped := mapped + [MapCall(pictureIndex, params)];
    }

    method UnmapFrame(devicePtr: nat)
      modifies this`unmapped
      ensures unmapped == old(unmapped) + [devicePtr]
    {
      unmapped := unmapped + [devicePtr];
    }
  }
}
