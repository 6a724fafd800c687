/** videoDecodeGL.cpp: the consumer side of the pipeline. `renderVideoFrame`
    takes the next display entry off the frame queue
    (`copyDecodedFrameToTexture`), maps and releases one surface per field
    pass, counts decoded and presented frames, and draws each frame
    `g_iRepeatFactor` times. */
module VideoDecodeGLModel {
  import opened CuvidTypes
  import opened Collaborators

  // ---------------------------------------------------------------------
  // PAD_ALIGN(x, mask) = (x + mask) & ~mask, on `unsigned int`
  // ---------------------------------------------------------------------

  function PadAlign(x: bv32, mask: bv32): (r: bv32)
    ensures r & mask == 0
  {
    (x + mask) & !mask
  }

  /** A mask of the form 2^k - 1. */
  predicate IsLowBitMask(mask: bv32) { mask & (mask + 1) == 0 }

  /** The result has all mask bits clear: it is a multiple of mask + 1. */
  lemma PadAlignIsMultiple(x: bv32, mask: bv32)
    requires IsLowBitMask(mask)
    ensures PadAlign(x, mask) & mask == 0
  {
  }

  /** Without overflow, the value is rounded up by less than mask + 1. */
  lemma PadAlignRoundsUp(x: bv32, mask: bv32)
    requires IsLowBitMask(mask) && x <= 0xFFFF_FFFF - mask
    ensures x <= PadAlign(x, mask) && PadAlign(x, mask) - x <= mask
  {
  }

  /** ... and to the least multiple of mask + 1 that is not below it. */
  lemma PadAlignIsLeast(x: bv32, mask: bv32, m: bv32)
    requires IsLowBitMask(mask) && x <= 0xFFFF_FFFF - mask
    requires m & mask == 0 && x <= m
    ensures PadAlign(x, mask) <= m
  {
  }

  /** A value in the last mask + 1 values of the range wraps to zero. */
  lemma PadAlignWrapsToZero(x: bv32, mask: bv32)
    requires IsLowBitMask(mask) && x > 0xFFFF_FFFF - mask
    ensures PadAlign(x, mask) == 0
  {
  }

  /** The padded size of a mapped frame: width to a multiple of 64, height
      to a multiple of 16, each at most one step above the target. */
  lemma PaddedFrameSize(width: bv32, height: bv32)
    requires width <= 0xFFFF_FFFF - 0x3F && height <= 0xFFFF_FFFF - 0x0F
    ensures PadAlign(width, 0x3F) % 64 == 0 && width <= PadAlign(width, 0x3F)
    ensures PadAlign(width, 0x3F) - width < 64
    ensures PadAlign(height, 0x0F) % 16 == 0 && height <= PadAlign(height, 0x0F)
    ensures PadAlign(height, 0x0F) - height < 16
  {
  }

  // ---------------------------------------------------------------------
  // The field passes of one display entry
  // ---------------------------------------------------------------------

  /** `num_fields`: one pass for a progressive frame, two fields plus the
      repeated first field for an interlaced one. */
  function NumFields(info: DispInfo): int {
    if info.progressiveFrame != 0 then 1 else 2 + info.repeatFirstField
  }

  /** How often the `for (active_field ...)` loop runs. */
  function PassCount(info: DispInfo): nat {
    if NumFields(info) > 0 then NumFields(info) else 0
  }

  /** The processing parameters of pass `activeField`. */
  function PassParams(info: DispInfo, activeField: int): ProcParams {
    ProcParams(info.progressiveFrame, activeField, info.topFieldFirst,
               if NumFields(info) == 1 then 1 else 0)
  }

  /** The `mapFrame` calls of the first `n` passes. */
  function PassMaps(info: DispInfo, n: nat): seq<MapCall> {
    seq(n, k => MapCall(info.pictureIndex, PassParams(info, k)))
  }

  /** `n` copies of `v`. */
  function Repeat(v: int, n: nat): seq<int> {
    seq(n, _ => v)
  }

  /** The device pointers handed out by `n` consecutive `mapFrame` calls
      starting at `first`. */
  function Pointers(first: nat, n: nat): seq<nat> {
    seq(n, k => first + k)
  }

  /** A progressive frame is one unpaired pass; an interlaced one is two
      fields, or three when the first field is repeated; every pass maps the
      entry's picture and numbers its field by its position. */
  lemma PassesOfEntry(info: DispInfo)
    ensures info.progressiveFrame != 0 ==>
      PassMaps(info, PassCount(info)) == [MapCall(info.pictureIndex, ProcParams(info.progressiveFrame, 0, info.topFieldFirst, 1))]
    ensures info.progressiveFrame == 0 && info.repeatFirstField == 0 ==> PassCount(info) == 2
    ensures info.progressiveFrame == 0 && info.repeatFirstField == 1 ==> PassCount(info) == 3
    ensures forall k :: 0 <= k < PassCount(info) ==>
      PassMaps(info, PassCount(info))[k].pictureIndex == info.pictureIndex &&
      PassMaps(info, PassCount(info))[k].params.secondField == k &&
      (PassMaps(info, PassCount(info))[k].params.unpairedField == 1 <==> PassCount(info) == 1)
  {
  }

  /** `pDecodedFrame`, `pInteropFrame` and `g_pInteropFrame` (and
      `g_bFrameData` on readback) have two slots, indexed by `active_field`. */
  const FieldBufferSlots: int := 2

  /** The array slots the passes index as written: pass `k` uses slot `k`. */
  function AsWrittenFieldSlots(info: DispInfo): seq<int> {
    seq(PassCount(info), k => k)
  }

  /** The as-written indexing stays inside the two-slot arrays. */
  predicate AsWrittenFieldSlotsInBounds(info: DispInfo) {
    var slots := AsWrittenFieldSlots(info);
    forall i :: 0 <= i < |slots| ==> slots[i] < FieldBufferSlots
  }

  /** The slots suffice exactly for progressive frames and for interlaced
      frames without a repeated first field. */
  lemma FieldSlotsInBoundsIff(info: DispInfo)
    ensures AsWrittenFieldSlotsInBounds(info) <==> info.progressiveFrame != 0 || info.repeatFirstField <= 0
  {
    if info.progressiveFrame == 0 && info.repeatFirstField > 0 {
      assert AsWrittenFieldSlots(info)[2] == 2;
    }
  }

  /** An interlaced entry with `repeat_first_field = 1` has a third pass,
      which indexes slot 2 of the two-slot arrays. */
  lemma RepeatedFirstFieldOverrunsFieldSlots()
    ensures var info := DispInfo(0, 0, 1, 1, 0);
      PassCount(info) == 3 && !AsWrittenFieldSlotsInBounds(info)
  {
    var info := DispInfo(0, 0, 1, 1, 0);
    assert AsWrittenFieldSlots(info)[2] == 2;
  }

  // ---------------------------------------------------------------------
  // The presentation loop of renderVideoFrame
  // ---------------------------------------------------------------------

  /** The `drawScene` arguments of `iterations` passes of the
      `while (repeatFactor-- > 0)` loop: field 0 each time, then field 1 for
      an interlaced frame, and nothing unless video is displayed with interop. */
  function PresentationDraws(iterations: int, display: bool, interlaced: bool): seq<int>
    decreases iterations
  {
    if iterations <= 0 then []
    else
      PresentationDraws(iterations - 1, display, interlaced) +
      (if !display then [] else if interlaced then [0, 1] else [0])
  }

  /** The number of `computeFPS` calls in the loop: one per field drawn in
      the last iteration, or one when nothing is drawn. */
  function FpsUpdates(iterations: int, display: bool, interlaced: bool): (n: nat)
    ensures n <= 2
    ensures n == 0 <==> iterations <= 0
  {
    if iterations <= 0 then 0 else if display && interlaced then 2 else 1
  }

  /** Field 0 is drawn once per iteration, field 1 once per iteration of an
      interlaced frame, and nothing else is drawn. */
  lemma {:induction false} PresentationDrawCounts(iterations: int, display: bool, interlaced: bool)
    ensures var draws := PresentationDraws(iterations, display, interlaced);
      multiset(draws)[0] == (if display && iterations > 0 then iterations else 0) &&
      multiset(draws)[1] == (if display && interlaced && iterations > 0 then iterations else 0) &&
      |draws| == multiset(draws)[0] + multiset(draws)[1]
    decreases iterations
  {
    if iterations > 0 {
      PresentationDrawCounts(iterations - 1, display, interlaced);
    }
  }

  /** For an interlaced frame the draws alternate field 0, field 1. */
  lemma {:induction false} InterlacedDrawsAlternate(iterations: nat)
    ensures PresentationDraws(iterations, true, true) == seq(2 * iterations, k => k % 2)
    decreases iterations
  {
    if iterations > 0 {
      InterlacedDrawsAlternate(iterations - 1);
      var prev := PresentationDraws(iterations - 1, true, true);
      var all := PresentationDraws(iterations, true, true);
      assert all == prev + [0, 1];
      forall k | 0 <= k < 2 * iterations
        ensures all[k] == k % 2
      {
        if k < 2 * iterations - 2 {
          assert all[k] == prev[k];
        }
      }
    }
  }

  /** One more pass appends one map call, one device pointer and one
      released picture to the records of the passes before it. */
  lemma PassStep(info: DispInfo, n: nat)
    ensures PassMaps(info, n + 1) == PassMaps(info, n) + [MapCall(info.pictureIndex, PassParams(info, n))]
    ensures forall first: nat {:trigger Pointers(first, n + 1)} :: Pointers(first, n + 1) == Pointers(first, n) + [first + n]
    ensures Repeat(info.pictureIndex, n + 1) == Repeat(info.pictureIndex, n) + [info.pictureIndex]
  {
  }

  /** Counting up by one in `unsigned int` arithmetic. */
  lemma ToUInt32Step(x: int)
    ensures ToUInt32(ToUInt32(x) + 1) == ToUInt32(x + 1)
  {
  }

  // ---------------------------------------------------------------------
  // The application state
  // ---------------------------------------------------------------------

  /** The globals of videoDecodeGL.cpp that the two routines read and write. */
  class Player {
    /** `g_pFrameQueue`, which may be null. */
    var frameQueue: FrameQueue?
    /** `g_pVideoDecoder`. */
    const decoder: VideoDecoder
    /** `g_FrameCount` and `g_DecodeFrameCount` (`unsigned int`). */
    var frameCount: int
    var decodeFrameCount: int
    var deviceLost: bool
    var done: bool
    var running: bool
    var autoQuit: bool
    var frameStep: bool
    var loop: bool
    var useDisplay: bool
    var isProgressive: bool
    /** `g_iRepeatFactor`. */
    var repeatFactor: int
    /** `renderVideoFrame`'s `static unsigned int nRepeatFrame`. */
    var repeatFrame: int
    /** Field numbers passed to `drawScene`, in call order. */
    var drawn: seq<int>
    /** Number of `computeFPS` calls made by `renderVideoFrame`. */
    var fpsUpdates: nat
    /** Number of reloads of the video (`reinitCudaResources` followed by
        `g_pVideoSource->start()`). */
    var reloads: nat

    /** The two counters hold `unsigned int` values. */
    predicate CountersInRange()
      reads this
    {
      0 <= frameCount < UINT32_MODULUS && 0 <= decodeFrameCount < UINT32_MODULUS
    }

    /** `renderVideoFrame` copies the next display entry: there is a frame
        queue holding one, the device is present and playback runs. */
    predicate CopiesNextEntry()
      reads this, frameQueue
    {
      frameQueue != null && !deviceLost && running && frameQueue.ready != []
    }

    /** The initial values of the globals. */
    constructor (frameQueue: FrameQueue?, decoder: VideoDecoder)
      ensures this.frameQueue == frameQueue && this.decoder == decoder
      ensures frameCount == 0 && decodeFrameCount == 0 && repeatFrame == 0
      ensures !deviceLost && !done && !running && !autoQuit && !frameStep && !loop && !useDisplay
      ensures isProgressive && repeatFactor == 1
      ensures drawn == [] && fpsUpdates == 0 && reloads == 0
      ensures CountersInRange()
    {
      this.frameQueue := frameQueue;
      this.decoder := decoder;
      frameCount := 0;
      decodeFrameCount := 0;
      deviceLost := false;
      done := false;
      running := false;
      autoQuit := false;
      frameStep := false;
      loop := false;
      useDisplay := false;
      isProgressive := true;
      repeatFactor := 1;
      repeatFrame := 0;
      drawn := [];
      fpsUpdates := 0;
      reloads := 0;
    }

    /** `copyDecodedFrameToTexture`. On an empty queue nothing changes and the
        result is false. Otherwise the oldest entry is taken off the queue;
        each field pass maps the entry's picture, unmaps the pointer it was
        given, releases the picture and counts one decoded frame; then, if
        decoding has ended, the video is reloaded (loop without auto-quit)
        and/or the application is told it is done (auto-quit). Each pass keeps
        its device pointer in a local, so a third field pass needs no third
        array slot. */
    method CopyDecodedFrameToTexture(repeatsIn: int, useInterop: bool, progressiveIn: int)
      returns (decoded: bool, repeats: int, progressive: int)
      requires frameQueue != null && CountersInRange()
      modifies this`decodeFrameCount, this`frameCount, this`isProgressive, this`done, this`reloads
      modifies frameQueue`ready, frameQueue`released, decoder`mapped, decoder`unmapped
      ensures CountersInRange()
      ensures decoded <==> old(frameQueue.ready) != []
      ensures !decoded ==>
        repeats == repeatsIn && progressive == progressiveIn &&
        frameQueue.ready == old(frameQueue.ready) && frameQueue.released == old(frameQueue.released) &&
        decoder.mapped == old(decoder.mapped) && decoder.unmapped == old(decoder.unmapped) &&
        decodeFrameCount == old(decodeFrameCount) && frameCount == old(frameCount) &&
        isProgressive == old(isProgressive) && done == old(done) && reloads == old(reloads)
      ensures decoded ==>
        var info := old(frameQueue.ready)[0];
        var n := PassCount(info);
        var reload := frameQueue.endOfDecode && loop && !autoQuit;
        frameQueue.ready == old(frameQueue.ready)[1..] &&
        frameQueue.released == old(frameQueue.released) + Repeat(info.pictureIndex, n) &&
        decoder.mapped == old(decoder.mapped) + PassMaps(info, n) &&
        decoder.unmapped == old(decoder.unmapped) + Pointers(|old(decoder.mapped)|, n) &&
        progressive == info.progressiveFrame &&
        isProgressive == (info.progressiveFrame != 0) &&
        repeats == (if n > 0 then ToUInt32(info.repeatFirstField) else repeatsIn) &&
        decodeFrameCount == (if reload then 0 else ToUInt32(old(decodeFrameCount) + n)) &&
        frameCount == (if reload then 0 else old(frameCount)) &&
        reloads == old(reloads) + (if reload then 1 else 0) &&
        done == (old(done) || (frameQueue.endOfDecode && autoQuit))
    {
      var entry := frameQueue.Dequeue();
      if entry.None? {
        return false, repeatsIn, progressiveIn;
      }
      var info := entry.value;
      var numFields := NumFields(info);
      progressive := info.progressiveFrame;
      isProgressive := info.progressiveFrame != 0;
      repeats := repeatsIn;

      ghost var firstPointer := |decoder.mapped|;
      var activeField := 0;
      while activeField < numFields
        invariant 0 <= activeField <= PassCount(info)
        invariant frameQueue.ready == old(frameQueue.ready)[1..]
        invariant frameQueue.released == old(frameQueue.released) + Repeat(info.pictureIndex, activeField)
        invariant decoder.mapped == old(decoder.mapped) + PassMaps(info, activeField)
        invariant decoder.unmapped == old(decoder.unmapped) + Pointers(firstPointer, activeField)
        invariant decodeFrameCount == ToUInt32(old(decodeFrameCount) + activeField)
        invariant repeats == (if activeField > 0 then ToUInt32(info.repeatFirstField) else repeatsIn)
        invariant isProgressive == (info.progressiveFrame != 0) && progressive == info.progressiveFrame
        invariant frameCount == old(frameCount) && reloads == old(reloads) && done == old(done)
      {
        repeats := ToUInt32(info.repeatFirstField);
        PassStep(info, activeField);
        ToUInt32Step(old(decodeFrameCount) + activeField);
        CopyField(info, activeField);
        activeField := activeField + 1;
      }
      assert activeField == PassCount(info);

      HandleDecodeFinished();
      decoded := true;
    }

    /** One pass of the `copyDecodedFrameToTexture` loop: it maps field
        `activeField` of the entry with that pass's processing parameters,
        unmaps the returned pointer, releases the picture back to the queue
        and counts one more decoded frame (an `unsigned int`). */
    method CopyField(info: DispInfo, activeField: int)
      requires frameQueue != null
      modifies decoder`mapped, decoder`unmapped, frameQueue`released, this`decodeFrameCount
      ensures decoder.mapped == old(decoder.mapped) + [MapCall(info.pictureIndex, PassParams(info, activeField))]
      ensures decoder.unmapped == old(decoder.unmapped) + [|old(decoder.mapped)|]
      ensures frameQueue.released == old(frameQueue.released) + [info.pictureIndex]
      ensures decodeFrameCount == ToUInt32(old(decodeFrameCount) + 1)
    {
      var procParams := ProcParams(info.progressiveFrame, activeField, info.topFieldFirst,
                                   if NumFields(info) == 1 then 1 else 0);
      var decodedFrame := decoder.MapFrame(info.pictureIndex, procParams);
      decoder.UnmapFrame(decodedFrame);
      frameQueue.ReleaseFrame(info);
      decodeFrameCount := ToUInt32(decodeFrameCount + 1);
    }

    /** The end of `copyDecodedFrameToTexture`: once decoding has ended, a
        looping player without auto-quit reloads the video and restarts both
        frame counters, and an auto-quitting one is done. */
    method HandleDecodeFinished()
      requires frameQueue != null
      modifies this`frameCount, this`decodeFrameCount, this`reloads, this`done
      ensures var reload := frameQueue.endOfDecode && loop && !autoQuit;
        frameCount == (if reload then 0 else old(frameCount)) &&
        decodeFrameCount == (if reload then 0 else old(decodeFrameCount)) &&
        reloads == old(reloads) + (if reload then 1 else 0)
      ensures done == (old(done) || (frameQueue.endOfDecode && autoQuit))
    {
      if frameQueue.IsDecodeFinished() {
        if loop && !autoQuit {
          frameCount := 0;
          decodeFrameCount := 0;
          reloads := reloads + 1;
        }
        if autoQuit {
          done := true;
        }
      }
    }

    /** The `while (repeatFactor-- > 0)` loop of `renderVideoFrame`. */
    method PresentRepeats(display: bool, interlaced: bool)
      modifies this`drawn, this`fpsUpdates
      ensures drawn == old(drawn) + PresentationDraws(repeatFactor, display, interlaced)
      ensures fpsUpdates == old(fpsUpdates) + FpsUpdates(repeatFactor, display, interlaced)
    {
      var remaining := repeatFactor;
      var fpsComputed := false;
      while remaining > 0
        invariant repeatFactor > 0 ==> 0 <= remaining <= repeatFactor
        invariant repeatFactor <= 0 ==> remaining == repeatFactor
        invariant drawn == old(drawn) +
          PresentationDraws(if repeatFactor > 0 then repeatFactor - remaining else 0, display, interlaced)
        invariant fpsComputed == (display && remaining < repeatFactor)
        invariant fpsUpdates == old(fpsUpdates) +
          (if remaining == 0 then FpsUpdates(repeatFactor, display, interlaced) else 0)
      {
        remaining := remaining - 1;
        if display {
          drawn := drawn + [0];
          if remaining == 0 {
            fpsUpdates := fpsUpdates + 1;
          }
          if interlaced {
            drawn := drawn + [1];
            if remaining == 0 {
              fpsUpdates := fpsUpdates + 1;
            }
          }
          fpsComputed := true;
        }
        if !fpsComputed && remaining == 0 {
          fpsUpdates := fpsUpdates + 1;
        }
      }
    }

    /** The part of `renderVideoFrame` that runs for a copied entry: it
        counts one more presented frame (an `unsigned int`), draws the entry
        `g_iRepeatFactor` times and, in frame-step mode, pauses playback. */
    method PresentDecodedFrame(display: bool, interlaced: bool)
      requires 0 <= frameCount < UINT32_MODULUS
      modifies this`frameCount, this`drawn, this`fpsUpdates, this`running
      ensures frameCount == ToUInt32(old(frameCount) + 1)
      ensures frameCount == (if old(frameCount) == UINT32_MODULUS - 1 then 0 else old(frameCount) + 1)
      ensures drawn == old(drawn) + PresentationDraws(repeatFactor, display, interlaced)
      ensures fpsUpdates == old(fpsUpdates) + FpsUpdates(repeatFactor, display, interlaced)
      ensures running == (old(running) && !frameStep)
    {
      frameCount := ToUInt32(frameCount + 1);
      PresentRepeats(display, interlaced);
      if frameStep {
        if running {
          running := false;
        }
      }
    }

    /** `renderVideoFrame` once a frame queue is installed: when the device
        is present and playback is running it copies the next entry; for a
        copied entry it counts one presented frame, draws it `g_iRepeatFactor`
        times and, in frame-step mode, pauses playback. It quits once decoding
        has ended. Of the queue only the ready and released entries change. */
    method RenderQueuedFrame(useInterop: bool) returns (quit: bool)
      requires frameQueue != null && CountersInRange()
      modifies this`decodeFrameCount, this`frameCount, this`isProgressive, this`done, this`reloads
      modifies this`repeatFrame, this`running, this`drawn, this`fpsUpdates
      modifies frameQueue`ready, frameQueue`released, decoder`mapped, decoder`unmapped
      ensures CountersInRange()
      ensures quit == frameQueue.endOfDecode
      ensures !old(CopiesNextEntry()) ==>
        frameQueue.ready == old(frameQueue.ready) && frameQueue.released == old(frameQueue.released) &&
        decoder.mapped == old(decoder.mapped) && decoder.unmapped == old(decoder.unmapped)
      ensures !old(CopiesNextEntry()) ==>
        frameCount == old(frameCount) && decodeFrameCount == old(decodeFrameCount) &&
        drawn == old(drawn) && fpsUpdates == old(fpsUpdates) && running == old(running) &&
        repeatFrame == old(repeatFrame) && isProgressive == old(isProgressive) && done == old(done) &&
        reloads == old(reloads)
      ensures old(CopiesNextEntry()) ==>
        var info := old(frameQueue.ready)[0];
        frameQueue.ready == old(frameQueue.ready)[1..] &&
        frameQueue.released == old(frameQueue.released) + Repeat(info.pictureIndex, PassCount(info)) &&
        decoder.mapped == old(decoder.mapped) + PassMaps(info, PassCount(info)) &&
        decoder.unmapped == old(decoder.unmapped) + Pointers(|old(decoder.mapped)|, PassCount(info))
      ensures old(CopiesNextEntry()) ==>
        var info := old(frameQueue.ready)[0];
        var reload := frameQueue.endOfDecode && loop && !autoQuit;
        isProgressive == (info.progressiveFrame != 0) &&
        repeatFrame == (if PassCount(info) > 0 then ToUInt32(info.repeatFirstField) else old(repeatFrame)) &&
        decodeFrameCount == (if reload then 0 else ToUInt32(old(decodeFrameCount) + PassCount(info))) &&
        frameCount == ToUInt32((if reload then 0 else old(frameCount)) + 1) &&
        reloads == old(reloads) + (if reload then 1 else 0) &&
        done == (old(done) || (frameQueue.endOfDecode && autoQuit))
      ensures old(CopiesNextEntry()) ==>
        var info := old(frameQueue.ready)[0];
        drawn == old(drawn) + PresentationDraws(repeatFactor, useDisplay && useInterop, info.progressiveFrame == 0) &&
        fpsUpdates == old(fpsUpdates) + FpsUpdates(repeatFactor, useDisplay && useInterop, info.progressiveFrame == 0) &&
        running == !frameStep
    {
      // A frame is decoded only when the copy runs, so the presentation
      // and the frame-step pause sit inside that branch.
      if !deviceLost && running {
        var framesDecoded, progressive;
        framesDecoded, repeatFrame, progressive := CopyDecodedFrameToTexture(repeatFrame, useInterop, 1);
        if framesDecoded {
          PresentDecodedFrame(useDisplay && useInterop, progressive == 0);
        }
      }
      quit := frameQueue.IsDecodeFinished();
    }

    /** `renderVideoFrame`. With no frame queue it quits at once and changes
        nothing; otherwise it renders from the queue as `RenderQueuedFrame`
        states. */
    method RenderVideoFrame(useInterop: bool) returns (quit: bool)
      requires CountersInRange()
      modifies this`decodeFrameCount, this`frameCount, this`isProgressive, this`done, this`reloads
      modifies this`repeatFrame, this`running, this`drawn, this`fpsUpdates
      modifies frameQueue, decoder`mapped, decoder`unmapped
      ensures CountersInRange()
      // Of the frame queue only `ready` and `released` change (a field frame
      // on the nullable `frameQueue` is not expressible, so this is stated here).
      ensures frameQueue != null ==>
        frameQueue.endOfDecode == old(frameQueue.endOfDecode) &&
        frameQueue.available == old(frameQueue.available) && frameQueue.waited == old(frameQueue.waited) &&
        frameQueue.endDecodeCalls == old(frameQueue.endDecodeCalls)
      ensures frameQueue == null ==>
        quit && frameCount == old(frameCount) && decodeFrameCount == old(decodeFrameCount) &&
        drawn == old(drawn) && fpsUpdates == old(fpsUpdates) && running == old(running) &&
        repeatFrame == old(repeatFrame) && isProgressive == old(isProgressive) && done == old(done) &&
        reloads == old(reloads) && decoder.mapped == old(decoder.mapped) && decoder.unmapped == old(decoder.unmapped)
      ensures frameQueue != null ==> quit == frameQueue.endOfDecode
      ensures frameQueue != null && !old(CopiesNextEntry()) ==>
        frameQueue.ready == old(frameQueue.ready) && frameQueue.released == old(frameQueue.released) &&
        decoder.mapped == old(decoder.mapped) && decoder.unmapped == old(decoder.unmapped)
      ensures frameQueue != null && !old(CopiesNextEntry()) ==>
        frameCount == old(frameCount) && decodeFrameCount == old(decodeFrameCount) &&
        drawn == old(drawn) && fpsUpdates == old(fpsUpdates) && running == old(running) &&
        repeatFrame == old(repeatFrame) && isProgressive == old(isProgressive) && done == old(done) &&
        reloads == old(reloads)
      ensures old(CopiesNextEntry()) ==>
        var info := old(frameQueue.ready)[0];
        frameQueue.ready == old(frameQueue.ready)[1..] &&
        frameQueue.released == old(frameQueue.released) + Repeat(info.pictureIndex, PassCount(info)) &&
        decoder.mapped == old(decoder.mapped) + PassMaps(info, PassCount(info)) &&
        decoder.unmapped == old(decoder.unmapped) + Pointers(|old(decoder.mapped)|, PassCount(info))
      ensures old(CopiesNextEntry()) ==>
        var info := old(frameQueue.ready)[0];
        var reload := frameQueue.endOfDecode && loop && !autoQuit;
        isProgressive == (info.progressiveFrame != 0) &&
        repeatFrame == (if PassCount(info) > 0 then ToUInt32(info.repeatFirstField) else old(repeatFrame)) &&
        decodeFrameCount == (if reload then 0 else ToUInt32(old(decodeFrameCount) + PassCount(info))) &&
        frameCount == ToUInt32((if reload then 0 else old(frameCount)) + 1) &&
        reloads == old(reloads) + (if reload then 1 else 0) &&
        done == (old(done) || (frameQueue.endOfDecode && autoQuit))
      ensures old(CopiesNextEntry()) ==>
        var info := old(frameQueue.ready)[0];
        drawn == old(drawn) + PresentationDraws(repeatFactor, useDisplay && useInterop, info.progressiveFrame == 0) &&
        fpsUpdates == old(fpsUpdates) + FpsUpdates(repeatFactor, useDisplay && useInterop, info.progressiveFrame == 0) &&
        running == !frameStep
    {
      if frameQueue == null {
        return true;
      }
      quit := RenderQueuedFrame(useInterop);
    }
  }
}
