# cudadecode in Dafny

This project models the decision logic of a small GPU video player. The
player is built on FFmpeg demuxing and NVCUVID decoding, and it has three
parts:

- **VideoSource.cpp** (`VideoSourceModel`):
  - `init` opens the container and picks the first video stream;
  - from that stream's codec context it derives the decoder's stream format
    (codec, chroma format, progressive flag, coded size, display area) and
    picks the bitstream filter;
  - the demux thread `internal_thread_entry` forwards each video packet to
    the parser, stamped with ENDOFSTREAM when it is empty, with TIMESTAMP when
    it has a pts, and otherwise with the previous record's flags. It stops
    after the end of stream or a failed parse, then latches end of decode on
    the frame queue;
  - `HandleVideoData` is the latch-guarded packet handler;
  - the getters read the format back.
- **VideoParser.cpp** (`VideoParserModel`):
  - the parser's configuration;
  - the sequence callback, which rejects any change of codec, coded size or
    chroma format;
  - the decode callback, which waits for a free surface first;
  - the display callback, which maps and unmaps the picture but does not
    enqueue it;
  - the text a display entry prints as.
- **videoDecodeGL.cpp** (`VideoDecodeGLModel`):
  - `PAD_ALIGN`;
  - the per-entry field passes of `copyDecodedFrameToTexture`: field count,
    processing parameters, map, unmap, release, and the decoded-frame
    counter;
  - the end-of-decode reaction (reload or quit);
  - `renderVideoFrame`:
    - the device and running gates;
    - the presented-frame counter;
    - the `g_iRepeatFactor` presentation loop with its `drawScene` and
      `computeFPS` calls;
    - frame-step pausing;
    - the quit decision.

Three kinds of collaborator are not part of this model. Each is represented
by what the core can observe of it:

- **The frame queue** (FrameQueue.cpp) becomes a `FrameQueue` class
  (`Collaborators`). It keeps a set-once end-of-decode latch, the display
  entries `dequeue` will hand out, an availability oracle for
  `waitUntilFrameAvailable`, and logs of the calls made on it.
- **The hardware decoder** (VideoDecoder.cpp) becomes a `VideoDecoder`
  class. It keeps its configuration and logs of its decode, map and unmap
  calls. The n-th `mapFrame` call hands out device pointer n.
- **FFmpeg and CUDA** become inputs. These are:
  - the demux outcome and the stream list;
  - the packets `av_read_frame` returns;
  - the result of each `cuvidParseVideoData` call;
  - `av_rescale_q`, passed as a function value.

The C globals of each file become the fields of one class: `VideoSource` and
`Player`. `unsigned int` values are reduced modulo 2^32 explicitly (`ToUInt32`).
`PAD_ALIGN` is computed on `bv32`.

## Model

| member | source | states |
|---|---|---|
| CuvidTypes.ToUInt32 | VideoSource.cpp:159-160 | conversion to `unsigned int` gives a value in [0, 2^32) congruent to the input, equal to it when it is already in range |
| VideoSourceModel.MapCodec | VideoSource.cpp:83-125 | the codec switch agrees with the reference table: H263 and MPEG4 to MPEG4, H264, HEVC, MJPEG to JPEG, MPEG1/2 video, VC1; every other codec (VP8 and VP9 included) fails |
| VideoSourceModel.MapChroma | VideoSource.cpp:128-142 | the chroma switch is total: the three planar YUV formats map to their chroma format, every other pixel format to 4:2:0 |
| VideoSourceModel.DeriveFormat | VideoSource.cpp:81-165 | the format `init` derives from the codec context; its meaning is stated by `FormatGettersReadBack` and by `Init`'s success clause |
| VideoSourceModel.SourceDimensions | VideoSource.cpp:413-420 | `getSourceDimensions`; `FormatGettersReadBack` states that it reads back the coded size as `unsigned int` |
| VideoSourceModel.DisplayDimensions | VideoSource.cpp:424-430 | `getDisplayDimensions`; `FormatGettersReadBack` states that it reads back (\|width\|, \|height\|) of the display area |
| VideoSourceModel.Progressive | VideoSource.cpp:433-437 | `getProgressive`; `FormatGettersReadBack` states that it holds iff the field order is PROGRESSIVE or UNKNOWN |
| VideoSourceModel.FormatGettersReadBack | VideoSource.cpp:401-437 | on the derived format, `getSourceDimensions` gives the coded size as unsigned, `getDisplayDimensions` gives (\|width\|, \|height\|), which is (width, height) for non-negative sizes, `getProgressive` holds iff the field order is PROGRESSIVE or UNKNOWN; frame rate and bitrate stay zero |
| VideoSourceModel.CString | VideoSource.cpp:170 | `c_str()` as strcmp sees it: the longest NUL-free prefix |
| VideoSourceModel.StrCmp | VideoSource.cpp:170 | strcmp's sign is in {-1, 0, 1} and is zero iff the strings are equal |
| VideoSourceModel.StrCmpIsLexicographic | VideoSource.cpp:170 | strcmp is negative exactly when the first string sorts before the second lexicographically (independent definition) |
| VideoSourceModel.StrCmpPrefixNotAfter | VideoSource.cpp:170 | a prefix never compares above the string it starts |
| VideoSourceModel.ClearsFilter | VideoSource.cpp:170-173 | the `strcmp("rtsp", name) <= 0` test; its meaning is stated by `RtspUrlsClearFilter`, `ClearsFilterIsLexicographic` and `PlainNamesAfterRtspClearFilter` |
| VideoSourceModel.RtspUrlsClearFilter | VideoSource.cpp:170-173 | every file name starting with "rtsp" clears the bitstream filter |
| VideoSourceModel.ClearsFilterIsLexicographic | VideoSource.cpp:170-173 | the filter is cleared iff the name equals "rtsp" or sorts after it |
| VideoSourceModel.PlainNamesAfterRtspClearFilter | VideoSource.cpp:170-173 | "video.mp4", which is no rtsp URL, clears the filter; "clip.mp4" keeps it |
| VideoSourceModel.FindVideoStream | VideoSource.cpp:53-63 | the result is the index of the first video stream, or -1 iff there is none |
| VideoSourceModel.SourceRun | VideoSource.cpp:262-327 | the demux loop as a function of the packets read; `InternalThreadEntry` is proved equal to it, and `RunForwardsOnlyVideo`, `RunForwardsEveryVideoPacket`, `RunStopsAtFirstTerminal` and `RunStampsEachRecord` state what it forwards |
| VideoSourceModel.StampPacket | VideoSource.cpp:271-315 | how one packet restamps the reused `cupkt`; stated by `PacketFlagsAndTimestamp` |
| VideoSourceModel.RunForwardsOnlyVideo | VideoSource.cpp:262-327 | the loop forwards only video-stream packets, in read order, none past the last packet read |
| VideoSourceModel.RunForwardsEveryVideoPacket | VideoSource.cpp:262-327 | every video packet the loop reads is forwarded |
| VideoSourceModel.RunStopsAtFirstTerminal | VideoSource.cpp:317-322 | no forwarded record before the last is ENDOFSTREAM or failed; the loop reads all packets or stops right after the first such record |
| VideoSourceModel.RunStampsEachRecord | VideoSource.cpp:271-315 | each forwarded record is the previous record (or the initial `cupkt`) restamped from its packet, with the parse result of that packet |
| VideoSourceModel.PacketFlagsAndTimestamp | VideoSource.cpp:271-315 | an empty packet gets ENDOFSTREAM; a non-empty one with a pts gets TIMESTAMP and the pts, rescaled to AV_TIME_BASE only when both time-base parts are non-zero; one without a pts keeps the previous flag and timestamp |
| VideoSourceModel.VideoSource.constructor | VideoSource.cpp:26-30 | the constructor (VideoSource.cpp:339-342) sets only the source handle, which is not modelled; the format, the video stream index, the codec context and the filter are static globals and start zeroed; the frame queue counts as absent until `init` stores one (VideoSource.h, which declares `oSourceData_`, is not part of this model) |
| VideoSourceModel.VideoSource.Init | VideoSource.cpp:32-183 | once the input opens, the video index is -1 iff no stream is video, and otherwise it is the first video stream; each failure path (open, stream info, no video stream, no decoder, unsupported codec) returns false, and the format is unchanged before the memset and zero after it; on success the format is the derived one and the filter is chosen for H264/HEVC unless the name clears it |
| VideoSourceModel.VideoSource.InternalThreadEntry | VideoSource.cpp:255-337 | the loop forwards exactly the records of the specification run, and `endDecode` is called exactly once afterwards |
| VideoSourceModel.VideoSource.HandleVideoData | VideoSource.cpp:467-482 | the parser is called iff decoding was not finished; the latch is set iff it was set, or the packet is ENDOFSTREAM, or parsing failed; the result is `!isDecodeFinished()` after the call |
| VideoParserModel.HandleVideoSequence | VideoParser.cpp:48-64 | returns 1 iff codec, coded width, coded height and chroma format equal the decoder's, else 0 |
| VideoParserModel.SequenceCheckIgnoresOtherFields | VideoParser.cpp:54-57 | formats agreeing on the four checked fields get the same answer whatever their other fields |
| VideoParserModel.SequenceCheckRejectsFormatChange | VideoParser.cpp:54-61 | changing any checked field of an accepted format gets it rejected |
| VideoParserModel.VideoParser.constructor | VideoParser.cpp:27-46 | the parser keeps both collaborators and is configured with the decoder's codec and surface count and display delay 1 |
| VideoParserModel.VideoParser.HandlePictureDecode | VideoParser.cpp:66-80 | waits on exactly `CurrPicIdx`; returns 1 and decodes that picture once iff the surface is available, else returns 0 without decoding |
| VideoParserModel.VideoParser.HandlePictureDisplay | VideoParser.cpp:82-113 | maps `picture_index` with `second_field` 0 and `unpaired_field` = (`progressive_frame` == 1), unmaps the pointer it got, enqueues nothing and returns 1 |
| VideoParserModel.NatDecimal | VideoParser.cpp:118 | an integer prints as a non-empty string of digits |
| VideoParserModel.IntDecimal | VideoParser.cpp:118 | a printed integer holds no line break |
| VideoParserModel.NatDecimalRoundTrip | VideoParser.cpp:118 | reading the digits back gives the number |
| VideoParserModel.IntDecimalRoundTrip | VideoParser.cpp:140 | a printed integer, sign included, determines the integer |
| VideoParserModel.LineCancel | VideoParser.cpp:118 | two printed value lines with the same caption hold the same value |
| VideoParserModel.FlagLineCancel | VideoParser.cpp:119-138 | two printed flag lines with the same caption show the same truth value |
| VideoParserModel.DescribeDisplayInfo | VideoParser.cpp:115-143 | the text a display entry prints as; `DescribeShowsExactly` states what the text determines |
| VideoParserModel.DescribeShowsExactly | VideoParser.cpp:115-143 | two display entries print the same text iff they agree on picture index and timestamp and on whether each of the three flags is non-zero |
| VideoDecodeGLModel.PadAlign | videoDecodeGL.cpp:17 | the mask bits of the result are clear, for every mask; the rounding itself is stated by `PadAlignIsMultiple`, `PadAlignRoundsUp`, `PadAlignIsLeast` and `PadAlignWrapsToZero` |
| VideoDecodeGLModel.PadAlignIsMultiple | videoDecodeGL.cpp:17 | for a mask 2^k-1 the result has the mask bits clear, so it is a multiple of mask+1 |
| VideoDecodeGLModel.PadAlignRoundsUp | videoDecodeGL.cpp:17 | without overflow the result is at least x and exceeds it by at most the mask |
| VideoDecodeGLModel.PadAlignIsLeast | videoDecodeGL.cpp:17 | without overflow the result is not above any multiple of mask+1 that is at least x |
| VideoDecodeGLModel.PadAlignWrapsToZero | videoDecodeGL.cpp:17 | when x + mask overflows 32 bits the result is 0 |
| VideoDecodeGLModel.PaddedFrameSize | videoDecodeGL.cpp:741-742 | the padded width is a multiple of 64 and the padded height a multiple of 16, each at least the target and less than one step above it |
| VideoDecodeGLModel.NumFields | videoDecodeGL.cpp:720 | `num_fields`; `PassesOfEntry` states its value for progressive entries, interlaced ones and ones with a repeated first field |
| VideoDecodeGLModel.PassParams | videoDecodeGL.cpp:730-733 | the processing parameters of one pass; `PassesOfEntry` and `CopyField` state what each pass maps with |
| VideoDecodeGLModel.PassesOfEntry | videoDecodeGL.cpp:720-733 | a progressive entry has one unpaired pass; an interlaced one has 2 passes, or 3 with a repeated first field; pass k maps the entry's picture with `second_field` k and is unpaired iff there is one pass |
| VideoDecodeGLModel.FieldSlotsInBoundsIff | videoDecodeGL.cpp:717-782 | the as-written field-slot indexing stays in the two-slot arrays iff the entry is progressive or has no repeated first field |
| VideoDecodeGLModel.RepeatedFirstFieldOverrunsFieldSlots | videoDecodeGL.cpp:717-782 | an interlaced entry with `repeat_first_field` 1 has three passes, and the third indexes slot 2 |
| VideoDecodeGLModel.PresentationDraws | videoDecodeGL.cpp:949-984 | the `drawScene` calls of the repeat loop; `PresentRepeats` is proved to make exactly these, and `PresentationDrawCounts` and `InterlacedDrawsAlternate` state what they are |
| VideoDecodeGLModel.FpsUpdates | videoDecodeGL.cpp:949-984 | the number of `computeFPS` calls of the repeat loop: at most two per presented frame, and none exactly when the loop does not run; `PresentRepeats` is proved to make exactly these |
| VideoDecodeGLModel.PresentationDrawCounts | videoDecodeGL.cpp:949-984 | with display and interop, `drawScene(0)` runs once per iteration and `drawScene(1)` once per iteration of an interlaced frame; without them nothing is drawn |
| VideoDecodeGLModel.InterlacedDrawsAlternate | videoDecodeGL.cpp:949-984 | for an interlaced frame the draws alternate field 0, field 1 |
| VideoDecodeGLModel.ToUInt32Step | videoDecodeGL.cpp:798 | incrementing an `unsigned int` one step at a time wraps like adding the total |
| VideoDecodeGLModel.Player.constructor | videoDecodeGL.cpp:64-133 | the globals start as declared: not running, progressive, repeat factor 1, counters zero |
| VideoDecodeGLModel.Player.CopyDecodedFrameToTexture | videoDecodeGL.cpp:707-833 | an empty queue gives false and changes nothing; otherwise one entry is dequeued, each of its passes maps it with that pass's parameters, unmaps the pointer it got and releases it, the decode counter grows by the pass count (mod 2^32), and at end of decode the counters reset and the video reloads (loop, no auto-quit) or done is set (auto-quit) |
| VideoDecodeGLModel.Player.CopyField | videoDecodeGL.cpp:724-799 | one field pass maps the entry's picture with that pass's parameters, unmaps exactly the pointer it got, releases the picture once and adds one (mod 2^32) to the decode counter |
| VideoDecodeGLModel.Player.HandleDecodeFinished | videoDecodeGL.cpp:812-830 | at end of decode a looping player without auto-quit resets both counters and reloads once, an auto-quitting one is done; before end of decode nothing changes |
| VideoDecodeGLModel.Player.PresentRepeats | videoDecodeGL.cpp:949-984 | the repeat loop makes the draws of `PresentationDraws` and the `computeFPS` calls of `FpsUpdates` |
| VideoDecodeGLModel.Player.PresentDecodedFrame | videoDecodeGL.cpp:945-993 | a copied entry adds one presented frame (mod 2^32), makes the draws and `computeFPS` calls of the repeat loop, and pauses playback iff frame-step mode is on |
| VideoDecodeGLModel.Player.RenderQueuedFrame | videoDecodeGL.cpp:932-1000 | with a queue installed: when the device is lost, playback is paused or the queue is empty, no counter, log or flag changes; otherwise the head entry is dequeued, its passes are mapped, unmapped and released, and the counters, the progressive flag, the repeat count, the reload count, `done`, the draws, the FPS calls and frame-step pausing all take their new values; only the ready and released entries of the queue change; the result is `isDecodeFinished()` |
| VideoDecodeGLModel.Player.RenderVideoFrame | videoDecodeGL.cpp:925-1000 | quits at once and changes nothing without a frame queue; with one, it has the whole new state of `RenderQueuedFrame`, and the queue's latch, availability oracle and wait and end-decode logs stay as they were |

## Left out

- FrameQueue internals: the slot states, the mutex, the condition variables and the blocking wait. The queue is only what the core observes: the latch, the ready entries, the availability oracle and the call logs. `enqueue` is not called by the core.
- Threads: `start_internal_thread`, the polling `main` loop, and concurrent access to the latch. `InternalThreadEntry` runs as one sequential call.
- FFmpeg, NVCUVID and CUDA calls: `av_register_all` and network init, `av_dump_format`, `av_read_frame` (its packets are an input), `av_free_packet`/`av_free`, `cuvidParseVideoData` (its result per packet is an input), `cuCtxPushCurrent`/`cuCtxPopCurrent` and the context lock, `cudaPostProcessFrame` and its kernel, and `cudaFree`.
- `av_rescale_q` is an input function value; its arithmetic is not modelled.
- The bitstream filter's payload rewriting and the `goto LOOP0` retry on a filter error, which re-runs the same packet without bound. The model forwards each video packet's flags and timestamp but not its bytes. Its `payloadSize` is the packet's own size, which is what VideoSource.cpp:295 sends only when no filter is set: with the H264/HEVC filter set, VideoSource.cpp:275-292 first replaces the size with the filtered output's size, and that size is not modelled.
- `pCodecCtx->thread_safe_callbacks = 1` and the filter's closing after the loop, both FFmpeg state.
- VideoSourceModel.VideoSource.Init: `avcodec_find_decoder` is represented by a flag of the stream's codec context.
- The readback buffers `g_bFrameData` and their `cuMemAllocHost`/`cuMemcpyDtoHAsync` transfers, `g_bFirstFrame`, and the interop pointer copy. Only the slot indices they use are modelled, in `AsWrittenFieldSlots`. Of the padded sizes (videoDecodeGL.cpp:741-742), `nHeight` sizes only these buffers and `nWidth` is not used after it is computed, so `PAD_ALIGN` is modelled by its function and lemmas and not as state of the copy.
- VideoDecodeGLModel.Player.RenderVideoFrame: after a loop reload the model keeps the same `FrameQueue`, whose latch stays set, so it returns quit = true and keeps the entries after the copied one. In the source, `reinitCudaResources` (videoDecodeGL.cpp:365-380) deletes the queue and `loadVideoSource` (videoDecodeGL.cpp:596-611) installs a fresh one with a clear latch. So `isDecodeFinished()` is false there, playback goes on, and the old queue's remaining entries are dropped.
- VideoDecodeGLModel.Player.CopyDecodedFrameToTexture: `reinitCudaResources` is only counted in `reloads`. Its rebuilding of the source, queue and decoder, its reset of `g_bIsProgressive` from the reloaded file, and `g_pVideoSource->start()` are not modelled.
- `drawScene` and `computeFPS` are recorded as calls (`drawn`, `fpsUpdates`). Their OpenGL work, timers, floating-point frame rates and window titles are not modelled.
- `g_iRepeatFactor` is an input. Its floating-point computation from the frame rate is not modelled, nor is the rest of the UI (`keyboard`, `display`, `printStatistics`).
- The OpenCV display block of `HandlePictureDisplay`, with its fixed 1536x720 copy, and `operator<<` for CUVIDEOFORMAT, which prints a floating-point frame rate.
- cudaDecode.cpp and cudaDecode.h: setup and teardown plumbing, not part of this model.
- The `#if 0` copy of `internal_thread_entry`.
- VideoSourceModel.DisplayDimensions: `abs` of the `int` difference is exact here. The C overflow of `abs(INT_MIN)` is not modelled.

## Findings

| source | as written | input that shows it | evidently intended | confidence | as-written member | corrected member |
|---|---|---|---|---|---|---|
| videoDecodeGL.cpp:717-782 | `pDecodedFrame[2]`, `pInteropFrame[2]` (and `g_pInteropFrame[2]`, `g_bFrameData[2]`) are indexed by `active_field`, which runs up to `num_fields - 1` = `1 + repeat_first_field` | an interlaced display entry with `repeat_first_field = 1`: three passes, and the third writes and reads slot 2 of two-slot arrays | every field pass, including the repeated first field, maps, post-processes and unmaps its own frame pointer | not executed | VideoDecodeGLModel.RepeatedFirstFieldOverrunsFieldSlots | VideoDecodeGLModel.Player.CopyDecodedFrameToTexture |
