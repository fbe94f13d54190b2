# A model of the ffmpeg-experiments transcoder and transmuxer

ffmpeg-experiments drives the FFmpeg libraries from two C++ classes:

- `Transcoder::Transcode` (src/AV/src/transcoder.cpp) opens an input container and sets up a
  decoder for its video and audio streams. It creates an output container with a video and an
  audio stream, each either re-encoded or copied. It then reads every packet and routes it by
  stream type: a decoder and encoder for a transcoded type, a rescale and write for a copied
  one. Finally it flushes the video encoder and writes the trailer.
- `Transmuxer::transmux` (src/AV/src/transmuxer.cpp) copies the video, audio and subtitle
  streams of an input into an output without decoding. Other streams are dropped, and the
  kept packets get new stream indices and rescaled timestamps. `cleanUp` releases the contexts
  and turns the last status into an exit status.

This project models the control and bookkeeping logic around the FFmpeg calls. The FFmpeg
engine itself is an oracle (module `Engine`):

- A codec context (`Engine.CodecContext`, i.e. AVCodecContext) carries the configuration
  fields the code assigns. It also carries the queues of answers its `send` and `receive`
  calls will give, and a log of everything submitted to it.
- A format context (`Engine.FormatContext`, i.e. AVFormatContext) carries its streams and the
  packets a demuxer will still read. For a muxer it also carries the verdict of each write,
  the append-only log of the packets written, and the time bases the muxer settles when the
  header is written.

The code's own methods are imperative Dafny methods over these objects:

- `prepareDecoder` fills a `StreamContext` in a `while` loop.
- The drain loops update a `response` variable and the packet's fields.
- `Transcode` reads in a `while` loop.
- `transmux` fills an `array<int>` stream map and copies packets in a `while (true)` loop.
- `Transmuxer` is a class holding the two context members.

Each method is proved to compute a function (modules `Protocol`, `Routing`, `Transmuxing`),
and the properties the code promises are proved about those functions.

The NULL dereferences, uses after free and invalid arithmetic listed below are undefined
behaviour in the C++. No precondition excludes them. Each is an explicit
`Outcomes.Undefined(hazard)` result:

- `NullVideoStream` / `NullAudioStream`: the input lacks such a stream, yet its NULL `AVStream`
  is read during set-up.
- `NullEncoderContext`: no video encoder context exists (copied video, or no encoder of the
  requested name), and `encodeVideo` reaches `avcodec_send_frame` with it.
- `NoSampleFormats`: the audio encoder lists no sample formats.
- `DivisionByZero` / `IntOverflow`: `encodeVideo` computes the packet duration
  `tb.den / tb.num / fr.num * fr.den` in C `int` when the encoder produces a packet
  (transcoder.cpp 254). A zero numerator divides by zero; a quotient or the final product
  outside `int` overflows.
- `NullOutputContext`: `cleanUp` dereferences a NULL output context.
- `UseAfterCleanUp`: a context is used or freed after `cleanUp` freed it.

Several behaviours of the code look unintended. The model reproduces each one as written, and
a contract or lemma states it:

- `audioIndex` is never assigned, so encoded audio packets get stream index 0, the value
  `calloc` leaves (`Streams.PrepareDecoder`, `Transcoder.TranscodePlan`).
- Copied audio packets are rescaled between the two video streams' time bases
  (`Routing.Plan`, `Transcoder.PlanOf`, `Transcoder.Run`).
- The result of `prepareVideoEncoder` is ignored (`Transcoder.PrepareVideoSide`,
  `Transcoder.SidesResult`).
- The video flush runs even when video is copied. It then dereferences the NULL encoder
  context, so a transcode that copies video never succeeds (`Transcoder.Flush`,
  `Transcoder.Run`, `Transcoder.Transcode`).
- The audio codec name is never filled in, so the audio encoder is looked up under "". The
  muxer option test never fails, so the header gets the option "" = ""
  (`Transcoder.TranscodeParams`, `Transcoder.MuxerOptions`).
- `fillStreamInfo`'s NULL checks test the addresses of its out-parameters. A missing decoder
  is therefore caught only when `avcodec_open2` fails (`Streams.FillStreamInfo`).
- The duration formula of `encodeVideo` truncates: 1001/30000 against 30000/1001 gives 0
  (`Protocol.FrameDurationExamples`). It divides by zero for an unknown average frame rate
  (0/1), and overflows `int` for fine time bases: 1/90000 against 1/100000 gives
  9·10^9 (`Protocol.FrameDurationRuleExamples`).
- `transmux` calls `cleanUp` but does not return after a failing `avio_open` or header write.
  The run goes on with a freed output context (`Transmuxing.TransmuxOutcome`).
- `cleanUp`'s NULL test is inverted. A NULL output context is dereferenced, and a live one
  never has its file closed (`Transmuxing.Transmuxer.CleanUp`, `Transmuxing.Transmuxer.Transmux`).
  A second `transmux` on the same object frees the output context again.

Time bases, frame rates and sample rates are not constrained: the engine may report 0/1 or
any other value, and the model follows what the code then does. A rescale between time bases
that `av_rescale_rnd` refuses gives INT64_MIN, and `encodeVideo`'s duration can divide by
zero or overflow.

Streams the demuxer adds while reading (formats without a header, such as MPEG-TS, find
streams as their packets arrive) are `InputFile.late`. The stream count of `transmux`
(transmuxer.cpp 38) and the walk of `prepareDecoder` (transcoder.cpp 73) read `nb_streams`
before any packet is read, so they see only the first streams. The stream lookups inside
the two read loops (transcoder.cpp 468, transmuxer.cpp 106) index the whole array, late
streams included.

## Model

| member | source | states |
|---|---|---|
| Timestamps.Inverse | src/AV/src/transcoder.cpp:147 | av_inv_q: the product of a rational and its inverse is 1, and the inverse is positive iff the rational is |
| Timestamps.HalfUpIsNearest | src/AV/src/transmuxer.cpp:117-119 | the non-negative rounding branch of av_rescale_rnd, (n + c/2) / c, is the nearest integer to n/c, with halves rounded up |
| Timestamps.NearestIsUnique | src/AV/src/transmuxer.cpp:117-119 | round-to-nearest with halves away from zero names exactly one integer |
| Timestamps.RescaleRnd | src/AV/src/transmuxer.cpp:117-118 | av_rescale_rnd returns INT64_MIN when c <= 0 or b < 0; otherwise, with AV_ROUND_PASS_MINMAX, it returns INT64_MIN and INT64_MAX unchanged |
| Timestamps.RescaleRndRounds | src/AV/src/transmuxer.cpp:117-119 | av_rescale_rnd with AV_ROUND_NEAR_INF: any value that is not passed through gives a*b/c rounded to nearest with halves away from zero (INT64_MIN read as -INT64_MAX) |
| Timestamps.RescaleQRnd | src/AV/src/transmuxer.cpp:117-118 | av_rescale_q_rnd gives INT64_MIN between time bases that are not Rescalable (bq.num·cq.den < 0 or cq.num·bq.den <= 0); between rescalable ones it passes INT64_MIN and INT64_MAX through when PASS_MINMAX is set |
| Timestamps.RescaleQRndRounds | src/AV/src/transmuxer.cpp:117-118 | av_rescale_q_rnd between rescalable time bases: any other value, a count of bq ticks, comes back re-counted in cq ticks, rounded to nearest |
| Timestamps.RescaleQRounds | src/AV/src/transmuxer.cpp:119 | av_rescale_q between rescalable time bases: the same rounding for every int64 value, without pass-through |
| Timestamps.RescaleQ | src/AV/src/transmuxer.cpp:119 | av_rescale_q gives INT64_MIN between time bases that are not rescalable |
| Timestamps.SourceIsRescalable | src/AV/src/transmuxer.cpp:117-119 | a non-negative time base with a positive denominator can be rescaled to any positive one |
| Timestamps.RescaleSameBaseIsIdentity | src/AV/src/transmuxer.cpp:117-119 | rescaling between equal positive time bases returns the value unchanged |
| Timestamps.NearestIsMonotone | src/AV/src/transmuxer.cpp:117-119 | rounding to nearest never reorders two values |
| Timestamps.RescaleIsMonotone | src/AV/src/transmuxer.cpp:117-119 | rescaling never reorders two timestamps |
| Timestamps.RescaleFromZeroBase | src/AV/src/transcoder.cpp:352 | from a 0/1 time base, which an audio decoder context keeps from avcodec_alloc_context3 unless its decoder sets one, every audio packet time but the passed-through ones rescales to 0 |
| Media.PullCode | src/AV/src/transcoder.cpp:241-250 | the status of a receive call: 0 iff a unit was produced, a sentinel iff EAGAIN or EOF, negative otherwise |
| Media.RescaleTs | src/AV/src/transcoder.cpp:202 | av_packet_rescale_ts keeps stream index and position, keeps AV_NOPTS_VALUE timestamps and non-positive durations |
| Media.RescaleTsSameBase | src/AV/src/transcoder.cpp:202 | rescaling a packet between equal positive time bases leaves it unchanged |
| Media.RescaleTsKeepsDtsOrder | src/AV/src/transcoder.cpp:202 | rescaling keeps the decode order of two packets that carry a dts |
| Engine.SendOn | src/AV/src/transcoder.cpp:237 | a submission is always logged; it returns a status, and AVERROR(EINVAL) from a context that was never opened |
| Engine.PullOn | src/AV/src/transcoder.cpp:241 | a pull takes the next scripted result; an empty queue needs more input; a closed context fails with AVERROR(EINVAL) |
| Engine.WriteOn | src/AV/src/transmuxer.cpp:125 | av_interleaved_write_frame appends the packet to the log exactly when its status is 0 |
| Engine.Retimed | src/AV/src/transmuxer.cpp:88 | the header gives every stream the time base the muxer settles and changes nothing else |
| Engine.RetimedFrom | src/AV/src/transmuxer.cpp:88 | the same for the streams from a given index on |
| Engine.CodecContext.constructor | src/AV/src/transcoder.cpp:49 | avcodec_alloc_context3: a closed context for the codec, of the codec's media type, with nothing sent and time base 0/1 |
| Engine.CodecContext.CopyParameters | src/AV/src/transcoder.cpp:55 | avcodec_parameters_to_context: the context holds the stream's parameters |
| Engine.CodecContext.Parameters | src/AV/src/transcoder.cpp:154 | avcodec_parameters_from_context: the media type, the codec's id, the sample format for audio and the pixel format otherwise, and the picture and audio fields; CopyParameters is its inverse up to the codec id |
| Engine.CodecContext.Open | src/AV/src/transcoder.cpp:59 | avcodec_open2 succeeds iff the context has a codec whose script opens; then it loads the answer queues and settles the time base |
| Engine.CodecContext.Send | src/AV/src/transcoder.cpp:273 | avcodec_send_packet / avcodec_send_frame compute SendOn on the context |
| Engine.CodecContext.Receive | src/AV/src/transcoder.cpp:280 | avcodec_receive_frame / avcodec_receive_packet compute PullOn on the context |
| Engine.FormatContext.OpenInput | src/AV/src/transcoder.cpp:23-27 | an opened input holds the file's streams, the streams the demuxer will add while reading, and the unread packets |
| Engine.FormatContext.AllocOutput | src/AV/src/transcoder.cpp:400 | avformat_alloc_output_context2: an empty muxer with no file, header, trailer or written packet |
| Engine.FormatContext.NewStream | src/AV/src/transmuxer.cpp:57 | avformat_new_stream appends a stream with blank parameters, the default 1/90000 time base and no average frame rate, and returns its index |
| Engine.FormatContext.SetTimeBase | src/AV/src/transcoder.cpp:148 | assigns one stream's time base and nothing else |
| Engine.FormatContext.SetParameters | src/AV/src/transmuxer.cpp:65 | avcodec_parameters_copy into one stream, nothing else |
| Engine.FormatContext.Read | src/AV/src/transmuxer.cpp:99-104 | av_read_frame returns 0 and the next packet, or the end code once none is left |
| Engine.FormatContext.OpenFile | src/AV/src/transmuxer.cpp:78 | avio_open returns 0 iff the file opens |
| Engine.FormatContext.WriteHeader | src/AV/src/transmuxer.cpp:88 | avformat_write_header returns the scripted status, records the options, and on success retimes the streams |
| Engine.FormatContext.WriteInterleaved | src/AV/src/transmuxer.cpp:125 | av_interleaved_write_frame computes WriteOn on the muxer |
| Engine.FormatContext.WriteTrailer | src/AV/src/transmuxer.cpp:135 | av_write_trailer marks the trailer written |
| Streams.StreamContext.constructor | src/AV/src/transcoder.cpp:390-394 | calloc and the file name: every pointer NULL, both indices 0 |
| Streams.Lookup | src/AV/src/transcoder.cpp:43 | an encoder or decoder lookup finds a codec iff the registry has the key, and then that codec |
| Streams.LastOfType | src/AV/src/transcoder.cpp:73-92 | the index of a stream of the given type with none after it, or None when there is none |
| Streams.LastOfTypeExtend | src/AV/src/transcoder.cpp:73-92 | one more stream of the type makes it the last; any other stream changes nothing |
| Streams.FillStreamInfo | src/AV/src/transcoder.cpp:34-64 | returns 0 or -1; 0 iff a decoder exists and opens; then the context is an open decoder holding the stream's parameters |
| Streams.TakeVideo | src/AV/src/transcoder.cpp:74-80 | records the video stream and its index i, and fills its decoder |
| Streams.TakeAudio | src/AV/src/transcoder.cpp:82-87 | records the audio stream and fills its decoder; audioIndex is not written |
| Streams.PrepareStream | src/AV/src/transcoder.cpp:74-91 | one pass takes a video or audio stream as the last of its type, with an open decoder, and skips any other; -1 only when the decoder does not open, which fails the whole walk |
| Streams.PrepareDecoder | src/AV/src/transcoder.cpp:66-94 | 0 iff every audio and video stream has a decoder that opens, else -1; on success the last video and last audio streams are taken with open decoders, videoIndex is the last video stream's index, other streams are skipped |
| Streams.VideoPrivOptions | src/AV/src/transcoder.cpp:124-127 | the encoder options are exactly the preset "fast" and the caller's key/value, the caller's value winning |
| Streams.ConfigureVideo | src/AV/src/transcoder.cpp:124-147 | width, height and aspect ratio from the decoder; the first pixel format the encoder lists, else the decoder's; the four rate constants; time base 1/frame rate |
| Streams.OpenEncoder | src/AV/src/transcoder.cpp:148-155 | the stream gets the encoder's time base; the encoder opens (0) or not (-1); its parameters reach the stream only when it opened |
| Streams.PrepareVideoEncoder | src/AV/src/transcoder.cpp:96-156 | one stream is appended; no encoder of that name gives -1 before any configuration; otherwise a fresh context configured from the decoder, with encoder and stream time bases 1/frame rate |
| Streams.NewVideoEncoder | src/AV/src/transcoder.cpp:118-155 | allocation, configuration and opening of a video encoder for the new stream; an opened one gives the stream the encoder's media type and, for video, the chosen pixel format |
| Streams.ConfigureAudio | src/AV/src/transcoder.cpp:172-183 | two channels, stereo layout, the sample rate, the first sample format (undefined when none is listed), 196000 bit/s, time base 1/sampleRate |
| Streams.PrepareAudioEncoder | src/AV/src/transcoder.cpp:158-196 | one stream is appended; no encoder gives -1; otherwise the audio configuration, with encoder and stream time bases 1/sampleRate, and 0 iff the encoder opens |
| Streams.NewAudioEncoder | src/AV/src/transcoder.cpp:166-193 | allocation, configuration and opening of an audio encoder for the new stream; an opened one gives the stream the encoder's media type and, for audio, its first sample format |
| Streams.PrepareCopy | src/AV/src/transcoder.cpp:210-217 | appends a stream with the decoder's parameters and always returns 0 |
| Protocol.CDiv | src/AV/src/transcoder.cpp:254 | C division truncates toward zero: the floor quotient for non-negative operands, never negative when the signs agree |
| Protocol.FrameDurationBounds | src/AV/src/transcoder.cpp:254 | with positive time bases the duration lies between 0 and tb.den * fr.den |
| Protocol.FrameDurationExamples | src/AV/src/transcoder.cpp:254 | 1/25 against 25/1 gives 1; 1001/30000 against 30000/1001 gives 0 |
| Protocol.FrameDurationRule | src/AV/src/transcoder.cpp:254 | encodeVideo's int duration: a zero tb.num, or a zero fr.num, divides by zero; a step outside int overflows; otherwise it is FrameDuration and fits an int; never the encoder's own duration |
| Protocol.FrameDurationOfValidBases | src/AV/src/transcoder.cpp:254 | for a valid output time base and a frame rate with a positive int denominator: division by zero iff fr.num is 0; otherwise an overflow or a duration in [0, INT_MAX], and FrameDuration whenever tb.den·fr.den fits an int |
| Protocol.FrameDurationRuleExamples | src/AV/src/transcoder.cpp:254 | 1/90000 against 30000/1001 gives 3003; 1/90000 against 1/100000 overflows; a 0/1 frame rate divides by zero |
| Protocol.Fixed | src/AV/src/transcoder.cpp:253-256 | an encoded packet gets the stream index of the fix and keeps its position |
| Protocol.FixedSameBase | src/AV/src/transcoder.cpp:253-256 | between equal positive time bases only the stream index and the duration change |
| Protocol.FixAll | src/AV/src/transcoder.cpp:253-256 | fixes every packet of a run, one for one |
| Protocol.ProducedItems | src/AV/src/transcoder.cpp:239-250 | the units produced before the first non-produced result, which follows them |
| Protocol.Drain | src/AV/src/transcoder.cpp:239-263 | the drain loop returns 0 or -1, or is undefined exactly when the duration cannot be computed and the open encoder's first pull produces a packet; it changes only the encoder's result queue and the muxer, and an encoder that produced nothing still produces nothing |
| Protocol.Encode | src/AV/src/transcoder.cpp:237-268 | encodeVideo / encodeAudio return 0 or -1 and log the submission, NULL flush included; undefined only when the duration cannot be computed and the encoder produces a packet |
| Protocol.ClearPictureType | src/AV/src/transcoder.cpp:228 | a frame's picture-type hint is reset and its payload kept; a NULL frame stays NULL |
| Protocol.HandedAll | src/AV/src/transcoder.cpp:290-293 | one submission per decoded frame |
| Protocol.DecodeLoop | src/AV/src/transcoder.cpp:278-296 | the decode loop returns a non-positive code, or is undefined with the duration's hazard when an encoder that produces packets meets a duration that cannot be computed; it does not touch the decoder's submissions |
| Protocol.TranscodePacket | src/AV/src/transcoder.cpp:271-298 | transcodeVideo / transcodeAudio submit the packet once and return a non-positive code, or are undefined only as DecodeLoop is |
| Protocol.DrainStep | src/AV/src/transcoder.cpp:252-261 | with a computable duration, a produced packet is written with its fields set, and the drain goes on only if the write succeeded |
| Protocol.DrainUndefinedStep | src/AV/src/transcoder.cpp:252-254 | with a duration that cannot be computed, the first produced packet ends the drain undefined, before any write |
| Protocol.DrainStop | src/AV/src/transcoder.cpp:241-250 | anything but a produced packet ends the drain without a write, with 0 iff it was a sentinel |
| Protocol.DrainWritesProducedPrefix | src/AV/src/transcoder.cpp:239-263 | whatever the outcome, the log gains exactly a fixed prefix of the produced run |
| Protocol.ProducedInInt64 | src/AV/src/transcoder.cpp:241 | produced packets carry int64 timestamps |
| Protocol.DrainSucceedsIff | src/AV/src/transcoder.cpp:239-263 | the drain returns 0 iff the produced run ends in a sentinel (or the queue ends), every write of it succeeds, and the run is empty or the duration computable |
| Protocol.DrainSuccessWritesAll | src/AV/src/transcoder.cpp:239-263 | a successful drain writes every produced packet, fixed, in order |
| Protocol.DrainSuccessConsumesRun | src/AV/src/transcoder.cpp:239-263 | a successful drain consumes the run and the sentinel after it |
| Protocol.EncodeRejectedIsSilent | src/AV/src/transcoder.cpp:237-239 | a rejected frame submission skips the drain: nothing pulled, nothing written, and 0 returned |
| Protocol.EncodeIntoClosedContext | src/AV/src/transcoder.cpp:237-239 | encoding into a context that never opened writes nothing and returns 0 |
| Protocol.EncodeAcceptedDrains | src/AV/src/transcoder.cpp:237-263 | after an accepted submission, 0 iff the drain succeeds, and then every produced packet is written |
| Protocol.TranscodeRejectedPacket | src/AV/src/transcoder.cpp:273-277 | a rejected packet returns its code before any frame is pulled, with encoder and muxer untouched |
| Protocol.DecodeStep | src/AV/src/transcoder.cpp:290-295 | a decoded frame is handed to the encoder, and the loop goes on only if that succeeded (-1 otherwise) |
| Protocol.DecodeLoopHandsFrames | src/AV/src/transcoder.cpp:278-296 | the encoder is handed a prefix of the decoded frames, in order, one submission each, never the NULL flush |
| Protocol.HandsPrefixNext | src/AV/src/transcoder.cpp:290-295 | a frame whose encoding succeeded extends what the rest of the loop hands |
| Protocol.HandsPrefixFail | src/AV/src/transcoder.cpp:292 | a frame whose encoding failed is the last handed |
| Protocol.DecodeStop | src/AV/src/transcoder.cpp:280-288 | anything but a decoded frame ends the loop with the encoder and muxer untouched |
| Protocol.DecodeLoopSuccessHandsAll | src/AV/src/transcoder.cpp:278-297 | a successful loop stopped at a sentinel and handed every decoded frame |
| Protocol.DecodeLoopCodes | src/AV/src/transcoder.cpp:278-297 | the loop returns only 0, -1 (encoder failure) or the code of a fatal decoder result |
| Protocol.HandedAllAreFrames | src/AV/src/transcoder.cpp:292 | decoded frames are handed as frames, never as NULL |
| Protocol.TranscodePacketFeedsFrames | src/AV/src/transcoder.cpp:271-298 | transcoding a packet never hands the encoder the NULL flush |
| Protocol.TranscodeWithoutEncoder | src/AV/src/transcoder.cpp:271-298 | with a NULL video encoder context the run is undefined iff a frame is decoded |
| Protocol.RemuxOn | src/AV/src/transcoder.cpp:198-208 | remux returns 0 iff the write succeeds, and then the log gains the rescaled packet |
| Codecs.EncodeFrame | src/AV/src/transcoder.cpp:237-268 | the imperative drain loop computes Encode |
| Codecs.EncodeVideo | src/AV/src/transcoder.cpp:219-269 | encodeVideo: undefined with NullEncoderContext iff the context is NULL; otherwise Encode of the frame with its hint reset, which is itself undefined when a packet is produced under a failing duration |
| Codecs.DecodePacket | src/AV/src/transcoder.cpp:271-325 | the imperative transcodeVideo / transcodeAudio loop computes TranscodePacket |
| Codecs.DecodeWithoutEncoder | src/AV/src/transcoder.cpp:271-298 | transcodeVideo with a NULL encoder context computes TranscodeWithoutEncoder |
| Codecs.Remux | src/AV/src/transcoder.cpp:198-208 | the imperative remux computes RemuxOn |
| Routing.Step | src/AV/src/transcoder.cpp:468-492 | one pass returns 0, -1, or undefined only for a transcoded video packet: with no video encoder context, or with a video encoder that produces a packet whose duration cannot be computed; it keeps whether the video encoder exists and whether it has produced nothing; with both types copied it writes the rescaled audio or video packet or nothing |
| Routing.RouteAll | src/AV/src/transcoder.cpp:465-493 | the loop reads at least one packet unless it succeeds, and then reads them all; it keeps whether the video encoder exists and whether it has produced nothing |
| Routing.ResumeEnd | src/AV/src/transcoder.cpp:465 | an exhausted input ends the loop |
| Routing.ResumeAfter | src/AV/src/transcoder.cpp:465-493 | after a pass the loop ends on its failure or goes on with the next packet |
| Routing.AdvancedAtEnd | src/AV/src/transcoder.cpp:465 | a pass that finds the input exhausted ends the loop with success, consuming nothing |
| Routing.AdvancedByStep | src/AV/src/transcoder.cpp:465-492 | a pass that routes the next packet consumes it and ends the loop exactly when its path fails |
| Routing.Submissions | src/AV/src/transcoder.cpp:468-484 | the packets of one type, in order |
| Routing.Remuxed | src/AV/src/transcoder.cpp:475-486 | the audio and video packets of a run, rescaled |
| Routing.RouteAllSubmits | src/AV/src/transcoder.cpp:465-493 | each decoder is handed exactly the packets of its type read so far, in order, or none when that type is copied |
| Routing.SubmitsReadNext | src/AV/src/transcoder.cpp:468-492 | one successful pass extends those submissions by the packet when it is of the type |
| Routing.SubmitsReadFail | src/AV/src/transcoder.cpp:470-487 | a failing pass ends them with the failing packet |
| Routing.RouteAllCopies | src/AV/src/transcoder.cpp:474-489 | with both types copied the log gains the rescaled audio and video packets read, except a last refused one |
| Routing.CopiesReadNext | src/AV/src/transcoder.cpp:474-489 | one successful copying pass extends that log |
| Routing.RouteAllFeedsFrames | src/AV/src/transcoder.cpp:465-493 | the read loop never hands an encoder the NULL flush |
| Routing.StepFeedsFrames | src/AV/src/transcoder.cpp:468-492 | nor does one pass |
| Routing.RouteAllHazard | src/AV/src/transcoder.cpp:468-492 | the only undefined outcomes of the loop are the NULL video encoder context and an uncomputable duration after the video encoder produced a packet; with a video encoder that produces nothing the loop returns |
| Routing.RouteAllFromStart | src/AV/src/transcoder.cpp:465-493 | from unstarted contexts, a loop that reads everything leaves each decoder with the packets of its type and the encoders with frames only; it is undefined only as RouteAllHazard says |
| Transcoder.OpenMedia | src/AV/src/transcoder.cpp:11-32 | 0 iff the input opens and its streams are found, then a fresh context holding them; -1 otherwise |
| Transcoder.PrepareVideoSide | src/AV/src/transcoder.cpp:407-415 | undefined iff the input has no video stream; otherwise one stream is appended, a copy of the decoder's parameters or an encoder per PrepareVideoEncoder whose failure is ignored |
| Transcoder.PrepareAudioSide | src/AV/src/transcoder.cpp:417-427 | undefined without an audio stream; copying appends the decoder's parameters; transcoding returns -1 without an encoder and 0 iff it opens |
| Transcoder.MuxerOptions | src/AV/src/transcoder.cpp:440-444 | the header options are exactly the muxer key and value |
| Transcoder.OpenOutput | src/AV/src/transcoder.cpp:433-449 | 0 iff the file opens (when the muxer needs one) and the header is written, then the streams are retimed; -1 otherwise |
| Transcoder.SidesResult | src/AV/src/transcoder.cpp:407-427 | the outcome of the two stream set-ups |
| Transcoder.SetUpResult | src/AV/src/transcoder.cpp:396-449 | the outcome of the whole set-up |
| Transcoder.OpenInput | src/AV/src/transcoder.cpp:396-397 | 0 iff the input opens and every audio and video stream has a decoder that opens |
| Transcoder.PrepareVideoOutput | src/AV/src/transcoder.cpp:399-415 | the output context and video stream; undefined iff the input has no video stream |
| Transcoder.PrepareAudioOutput | src/AV/src/transcoder.cpp:417-427 | ends as SidesResult says and, on success, both output streams are set up |
| Transcoder.OpenOutputSide | src/AV/src/transcoder.cpp:433-449 | 0 iff the output file and the header succeed, leaving both sides prepared |
| Transcoder.SetUp | src/AV/src/transcoder.cpp:396-449 | ends exactly as SetUpResult says, leaving both sides prepared on success |
| Transcoder.StateOf | src/AV/src/transcoder.cpp:468-489 | a NULL context has no engine state; otherwise its state |
| Transcoder.TypesOf | src/AV/src/transcoder.cpp:468 | the media type of each input stream |
| Transcoder.Dispatch | src/AV/src/transcoder.cpp:468-492 | the imperative body of the read loop, reading the packet's stream type from the input's whole stream array, computes Routing.Step |
| Transcoder.RouteNext | src/AV/src/transcoder.cpp:468-492 | one routed packet advances the resumed routing |
| Transcoder.ReadNext | src/AV/src/transcoder.cpp:465-492 | one read and route advances the resumed routing by the packets consumed |
| Transcoder.ReadLoop | src/AV/src/transcoder.cpp:465-493 | the imperative read loop computes RouteAll and consumes exactly the packets it reports read |
| Transcoder.TranscodePlan | src/AV/src/transcoder.cpp:253-256 | for any time bases: video packets get videoIndex and encodeVideo's duration rule on the output time base and the input frame rate; audio packets get audioIndex and keep their duration; copies are rescaled between the video streams |
| Transcoder.PlanOf | src/AV/src/transcoder.cpp:475-486 | the plan of a prepared transcode remuxes from the input video stream to output stream 0, for audio too, and computes video durations from output stream 0's time base and the input video stream's average frame rate |
| Transcoder.ReadAll | src/AV/src/transcoder.cpp:465-493 | undefined only on the NULL video encoder or an uncomputable duration after a produced packet; a full read routes all packets; with both types copied it remuxes every audio and video packet |
| Transcoder.PreparedCanRead | src/AV/src/transcoder.cpp:449-465 | a prepared transcode meets what the read loop needs |
| Transcoder.Flush | src/AV/src/transcoder.cpp:495-500 | the NULL flush is the video encoder's last submission; a NULL encoder context is undefined; otherwise it is undefined only on an uncomputable duration of a produced packet; the trailer is written iff it succeeds |
| Transcoder.Proceed | src/AV/src/transcoder.cpp:465-500 | the trailer is written iff the run returns 0, which requires a video encoder; then the decoders got their packets and the video encoder frames then the flush; undefined only as RouteAllHazard says |
| Transcoder.Run | src/AV/src/transcoder.cpp:465-500 | the same on the prepared contexts: undefined only on a NULL video encoder or on a duration rule that fails, after the encoder produced a packet; a video encoder that produces nothing returns; with both types copied it is -1 or undefined after remuxing everything |
| Transcoder.SetUpAndRun | src/AV/src/transcoder.cpp:396-528 | a failed set-up decides the outcome; past it the run is undefined only on a NULL video encoder or a failing duration, and returns when the named video encoder produces nothing; copying video never returns 0 |
| Transcoder.Transcode | src/AV/src/transcoder.cpp:368-528 | the whole call: the set-up outcome, or the run's, undefined past the set-up only on a NULL video encoder or a duration that divides by zero or overflows, never with a video encoder that produces nothing; success routes every packet and passes the option "" = "" |
| Transcoder.TranscodeParams | src/AV/src/transcoder.cpp:383-387 | the copy flags, the video codec and the private option key and value come from the arguments; the audio codec, the extension and the muxer option are the empty strings of value-initialisation |
| Transmuxing.KeptCount | src/AV/src/transmuxer.cpp:56 | the number of kept streams, at most the number of streams |
| Transmuxing.StreamMap | src/AV/src/transmuxer.cpp:46-56 | one entry per input stream |
| Transmuxing.OutputStreams | src/AV/src/transmuxer.cpp:57-69 | one output stream per kept stream |
| Transmuxing.StreamMapAt | src/AV/src/transmuxer.cpp:50-56 | a dropped stream maps to -1, a kept one to the number of kept streams before it |
| Transmuxing.StreamMapIsOrdered | src/AV/src/transmuxer.cpp:56 | kept streams are numbered in input order, within the output streams |
| Transmuxing.StreamMapInRange | src/AV/src/transmuxer.cpp:53-56 | -1 exactly for dropped streams; kept ones map to an output stream index |
| Transmuxing.StreamMapIsOnto | src/AV/src/transmuxer.cpp:56 | every output stream index is the number of some kept stream |
| Transmuxing.OutputStreamsAt | src/AV/src/transmuxer.cpp:56-69 | streamsList[i] is the index of the output stream made for input i, which holds its parameters |
| Transmuxing.MapStreams | src/AV/src/transmuxer.cpp:46-71 | the loop fills streamsList with StreamMap and creates exactly OutputStreams |
| Transmuxing.Remapped | src/AV/src/transmuxer.cpp:113-121 | a kept packet gets its mapped, valid output index and pos -1; between rescalable time bases INT64_MIN and INT64_MAX pts and dts pass through, between others every time becomes INT64_MIN |
| Transmuxing.RemappedSameBase | src/AV/src/transmuxer.cpp:113-121 | between equal positive time bases only the index and the position change |
| Transmuxing.RemappedKeepsDtsOrder | src/AV/src/transmuxer.cpp:117-118 | two packets of one stream keep their dts order |
| Transmuxing.Copied | src/AV/src/transmuxer.cpp:106-121 | the packets written when every write succeeds, never more than read |
| Transmuxing.CopyRest | src/AV/src/transmuxer.cpp:95-133 | the loop stops at the end of the input with the read's code, or at a refused write with a negative code, leaving the unread packets |
| Transmuxing.Announced | src/AV/src/transmuxer.cpp:107 | the packets of the streams numStreams covers, in order |
| Transmuxing.CopyRestSkipsLate | src/AV/src/transmuxer.cpp:105-111 | packets of streams added after the map was built (index numStreams or more) are never written: the loop ends with the same status and muxer as on the input without them |
| Transmuxing.CopiedSkipsLate | src/AV/src/transmuxer.cpp:107 | the packets copied from a run are those copied from its packets of announced streams: none with index numStreams or more is ever copied |
| Transmuxing.CopiedAppend | src/AV/src/transmuxer.cpp:95-133 | copying two runs writes what copying each writes |
| Transmuxing.CopiedAreRemapped | src/AV/src/transmuxer.cpp:113-121 | every written packet has a valid output index and pos -1 |
| Transmuxing.CopiedOne | src/AV/src/transmuxer.cpp:107-111 | a discarded packet is never written, a kept one is written remapped |
| Transmuxing.CopyRestFails | src/AV/src/transmuxer.cpp:125-129 | a write ends the loop iff the muxer refuses one of the kept packets |
| Transmuxing.CopyRestWrites | src/AV/src/transmuxer.cpp:95-133 | with no refused write the log gains every kept packet, remapped; otherwise those before the refused kept one |
| Transmuxing.BeforeAfterDiscard | src/AV/src/transmuxer.cpp:107-111 | a discarded packet keeps what is written before a refusal |
| Transmuxing.AllAfterWrite | src/AV/src/transmuxer.cpp:125-131 | an accepted write extends the full log |
| Transmuxing.BeforeAfterWrite | src/AV/src/transmuxer.cpp:125-131 | an accepted write extends the log before a refusal |
| Transmuxing.CopyPackets | src/AV/src/transmuxer.cpp:95-133 | the imperative while (true) loop computes CopyRest |
| Transmuxing.CopyOfValid | src/AV/src/transmuxer.cpp:46-114 | the stream map and output streams meet what the copy loop needs |
| Transmuxing.ExitStatus | src/AV/src/transmuxer.cpp:151-156 | 1 iff the status is negative and not AVERROR_EOF, else 0 |
| Transmuxing.TransmuxOutcome | src/AV/src/transmuxer.cpp:10-137 | a run returns iff input, stream info, output context, file and header all succeed, and then 0 or 1; otherwise undefined |
| Transmuxing.TransmuxCopiesAll | src/AV/src/transmuxer.cpp:95-136 | when the muxer takes every packet the run returns 0 after AVERROR_EOF, 1 after a read error, and the output holds every kept packet, remapped, in order |
| Transmuxing.Transmuxer.constructor | src/AV/src/transmuxer.hpp:22-23 | both context members NULL |
| Transmuxing.Transmuxer.CleanUp | src/AV/src/transmuxer.cpp:139-157 | the input is closed and NULL; a NULL output is dereferenced; a freed one is freed again; a live one is freed with its file left open and the exit status returned |
| Transmuxing.Transmuxer.OpenContexts | src/AV/src/transmuxer.cpp:19-36 | a failure ends the run as TransmuxOutcome says, undefined; otherwise both contexts are fresh |
| Transmuxing.Transmuxer.PrepareOutput | src/AV/src/transmuxer.cpp:38-92 | a failing avio_open or header ends the run undefined; otherwise the stream map and header are ready for copying |
| Transmuxing.Transmuxer.Transmux | src/AV/src/transmuxer.cpp:10-137 | ends as TransmuxOutcome says; a run that returns wrote the trailer and exactly TransmuxWritten, and left its file open |

## Left out

- Logging (`std::cout`, `av_err2str`) and `av_dump_format` print only, so they are not modelled.
- File names are not resolved. An `Environment` (transcoder) or a `Setting` (transmuxer) stands for what opening the named input and output yields.
- Memory allocation never fails in the model. This covers `calloc`, `avformat_alloc_context`, `av_mallocz_array`, `avcodec_alloc_context3`, `av_packet_alloc`, `av_frame_alloc` and `avformat_new_stream`, together with their -1 / AVERROR(ENOMEM) / AVERROR_UNKNOWN paths (transmuxer.cpp 41-44, 58-63; transcoder.cpp 19-22, 119-122, 231-234, 452-462).
- `avcodec_parameters_copy` never fails in the transmuxer (transmuxer.cpp 66-69).
- Freeing and unref'ing are not modelled. The one exception is the `released` flag of a format context, which `cleanUp` sets. The leaks on `Transcode`'s early returns are not represented.
- The global-header flag (transcoder.cpp 429-431) is a bit set on a foreign struct, so it is not modelled.
- `4.7 * 1000 * 1000` is a double in the source. It is modelled as the integer 4700000, without the float conversion.
- `av_guess_frame_rate` is not modelled. The frame rate it reports is a parameter (`Environment.frameRate`).
- The engine's codec and container work are oracles, not derived from code. This covers `avformat_open_input`, `avformat_find_stream_info`, `avcodec_open2`, `avio_open`, the header and trailer writes, `av_interleaved_write_frame`, and the time bases a muxer settles. The verdict of `av_interleaved_write_frame` comes from the muxer's script and does not depend on the packet: FFmpeg refuses a `stream_index` outside the output streams with AVERROR(EINVAL), which the model leaves to the script. The model's contracts hold for every script, including one that refuses such a packet.
- Streams have no identity of their own: an AVStream pointer is an index into its container's streams.
- `Engine.FormatContext.Read`: a read error and the end of the input both end the packet queue. The model does not tell a packet that was never read from one that failed to read. Both loops stop on either.
- `Timestamps.RescaleRnd`, `Timestamps.RescaleRndRounds`, `Timestamps.RescaleQRnd`, `Timestamps.RescaleQRndRounds`, `Timestamps.RescaleQRounds`: the input is required to be an int64 value, but the result is a mathematical integer. The int64 overflow of a very large rescale is not modelled.
- `Timestamps.Rational`: the numerator and denominator are not bounded to `int`. `Protocol.FrameDurationRule` checks the `int` range only of the values it computes.
- `Transmuxing.RemappedKeepsDtsOrder`: excludes the dts values INT64_MIN and INT64_MAX, which AV_ROUND_PASS_MINMAX passes through unchanged and which therefore need not keep their order.
- `Transmuxing.RemappedSameBase`: excludes a duration of INT64_MIN, which av_rescale_q reads as -INT64_MAX.
- `Timestamps.RescaleSameBaseIsIdentity`: excludes INT64_MIN when it is not passed through, for the same reason.
- `Media.RescaleTsKeepsDtsOrder`: covers only packets that carry a dts (not AV_NOPTS_VALUE).
- `Streams.StreamContext.constructor`: `transcode` allocates its `StreamContext` with `calloc` (transcoder.cpp 390-394). It then assigns the input and output names to the `std::string fileName` member (transcoder.hpp 42), though no string was ever constructed there. This is undefined behaviour in C++. The model treats it as a plain assignment: the pointers and both indices are zero, and the name is stored.
- `Transcoder.Transcode`: transcoder.hpp 49 declares defaults for the last two parameters (`copyAudio = true, copyVideo = false`), and main.cpp 16 relies on them. The model takes both flags explicitly, so a call from main.cpp is `Transcode` with `copyAudio` true and `copyVideo` false.
- `Codecs.Remux`: transcoder.hpp 57 declares `remux` with an `AVFormatContext *` parameter. transcoder.cpp 198 defines it with `AVFormatContext **`, so the source as shipped does not compile. The model follows the definition in the .cpp.
- The stale variant under src/AV/transcoder.cpp / .hpp and src/main.cpp's argument handling are not part of this model.
