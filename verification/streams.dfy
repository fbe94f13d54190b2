/** The transcoder's two records, StreamParams and StreamContext, and the steps that set a
    StreamContext up: prepareDecoder (with fillStreamInfo), prepareVideoEncoder,
    prepareAudioEncoder and prepareCopy. */
module Streams {
  import opened Timestamps
  import opened AVError
  import opened Outcomes
  import opened Media
  import opened Engine

  /** StreamParams: what the caller asks for. */
  datatype StreamParams = StreamParams(
    copyVideo: bool, copyAudio: bool, outputExtension: string,
    muxerOptKey: string, muxerOptValue: string,
    videoCodec: string, audioCodec: string,
    codecPrivKey: string, codecPrivValue: string)

  /** StreamContext: one side of the pipeline. A decoder side holds contexts from packets to
      frames (I = Packet, O = Frame), an encoder side the other way round. The AVStream
      pointers are indexes into format.streams; None is NULL. */
  class StreamContext<I, O> {
    var format: FormatContext?
    var videoCodec: Option<Codec<O>>
    var audioCodec: Option<Codec<O>>
    var videoStream: Option<nat>
    var audioStream: Option<nat>
    var videoContext: CodecContext?<I, O>
    var audioContext: CodecContext?<I, O>
    var videoIndex: int
    var audioIndex: int
    const fileName: string

    /** calloc(1, sizeof(StreamContext)) followed by the assignment of fileName. */
    constructor (fileName: string)
      ensures format == null && videoCodec.None? && audioCodec.None?
      ensures videoStream.None? && audioStream.None? && videoContext == null && audioContext == null
      ensures videoIndex == 0 && audioIndex == 0 && this.fileName == fileName
    {
      format, videoCodec, audioCodec := null, None, None;
      videoStream, audioStream, videoContext, audioContext := None, None, null, null;
      videoIndex, audioIndex := 0, 0;
      this.fileName := fileName;
    }
  }

  /** avcodec_find_decoder / avcodec_find_encoder_by_name over the engine's registry. */
  function Lookup<K, V>(registry: map<K, V>, key: K): (r: Option<V>)
    ensures r.Some? <==> key in registry
    ensures r.Some? ==> r.value == registry[key]
  {
    if key in registry then Some(registry[key]) else None
  }

  /** The index of the last stream of type t, if there is one. */
  function LastOfType(streams: seq<Stream>, t: MediaType): (r: Option<nat>)
    ensures r.Some? ==> r.value < |streams| && streams[r.value].codecpar.mediaType == t
    ensures r.Some? ==> forall j | r.value < j < |streams| :: streams[j].codecpar.mediaType != t
    ensures r.None? ==> forall j | 0 <= j < |streams| :: streams[j].codecpar.mediaType != t
  {
    if streams == [] then None
    else if streams[|streams| - 1].codecpar.mediaType == t then Some(|streams| - 1)
    else LastOfType(streams[..|streams| - 1], t)
  }

  lemma LastOfTypeExtend(streams: seq<Stream>, i: nat, t: MediaType)
    requires i < |streams|
    ensures LastOfType(streams[..i + 1], t) ==
      if streams[i].codecpar.mediaType == t then Some(i) else LastOfType(streams[..i], t)
  {
    assert streams[..i + 1][..i] == streams[..i];
  }

  /** The decoder registry offers a decoder for the stream and it opens. */
  predicate DecoderOpens(s: Stream, decoders: map<int, Codec<Frame>>) {
    s.codecpar.codecId in decoders && decoders[s.codecpar.codecId].script.opens
  }

  predicate IsAudioOrVideo(s: Stream) {
    s.codecpar.mediaType == Video || s.codecpar.mediaType == Audio
  }

  /** Every video and audio stream has a decoder that opens. */
  predicate DecodersOpen(streams: seq<Stream>, decoders: map<int, Codec<Frame>>) {
    forall j | 0 <= j < |streams| :: IsAudioOrVideo(streams[j]) ==> DecoderOpens(streams[j], decoders)
  }

  /** ctx is an open decoder for stream s, with the stream's parameters and nothing sent yet. */
  predicate DecoderReady(ctx: CodecContext?<Packet, Frame>, s: Stream, decoders: map<int, Codec<Frame>>)
    reads ctx
  {
    ctx != null && s.codecpar.codecId in decoders &&
    var codec := decoders[s.codecpar.codecId];
    ctx.codec == Some(codec) &&
    ctx.Engine() == EngineState(true, codec.script.sendResults, codec.script.pullResults, []) &&
    ctx.Parameters() == s.codecpar.(codecId := codec.id) &&
    ctx.timeBase == OpenedTimeBase(codec.script, Rational(0, 1))
  }

  /** fillStreamInfo. The two NULL checks test the addresses of the out-parameters, which
      are never NULL, so a missing decoder is not caught there: the context is allocated
      without a codec and avcodec_open2 is what fails. */
  method FillStreamInfo(s: Stream, decoders: map<int, Codec<Frame>>)
    returns (status: int, codec: Option<Codec<Frame>>, ctx: CodecContext<Packet, Frame>)
    ensures fresh(ctx) && codec == Lookup(decoders, s.codecpar.codecId) && ctx.codec == codec
    ensures status == 0 || status == -1
    ensures status == 0 <==> DecoderOpens(s, decoders)
    ensures status == 0 ==> DecoderReady(ctx, s, decoders)
  {
    codec := Lookup(decoders, s.codecpar.codecId);
    ctx := new CodecContext(codec);
    ctx.CopyParameters(s.codecpar);
    var openStatus := ctx.Open();
    if openStatus < 0 {
      return -1, codec, ctx;
    }
    status := 0;
  }

  /** What prepareDecoder leaves in one side (video or audio) of the decoder context, given
      last, the last stream of that type seen so far: that stream, its decoder and an open
      decoder context for it, or what was there before when no such stream was seen. */
  predicate SideHolds(stream: Option<nat>, codec: Option<Codec<Frame>>, ctx: CodecContext?<Packet, Frame>,
                      last: Option<nat>, streams: seq<Stream>, decoders: map<int, Codec<Frame>>,
                      stream0: Option<nat>, codec0: Option<Codec<Frame>>, ctx0: CodecContext?<Packet, Frame>)
    reads ctx
  {
    if last.Some? then
      last.value < |streams| && stream == last &&
      codec == Lookup(decoders, streams[last.value].codecpar.codecId) &&
      DecoderReady(ctx, streams[last.value], decoders)
    else
      stream == stream0 && codec == codec0 && ctx == ctx0
  }

  /** The video branch of prepareDecoder's loop body, for stream i. */
  method TakeVideo(sc: StreamContext<Packet, Frame>, s: Stream, i: nat, decoders: map<int, Codec<Frame>>)
    returns (status: int)
    modifies sc`videoStream, sc`videoIndex, sc`videoCodec, sc`videoContext
    ensures status == 0 || status == -1
    ensures status == 0 <==> DecoderOpens(s, decoders)
    ensures sc.videoStream == Some(i) && sc.videoIndex == i && fresh(sc.videoContext)
    ensures sc.videoCodec == Lookup(decoders, s.codecpar.codecId)
    ensures status == 0 ==> DecoderReady(sc.videoContext, s, decoders)
  {
    sc.videoStream := Some(i);
    sc.videoIndex := i;
    var codec, ctx;
    status, codec, ctx := FillStreamInfo(s, decoders);
    sc.videoCodec, sc.videoContext := codec, ctx;
  }

  /** The audio branch of prepareDecoder's loop body, for stream i. */
  method TakeAudio(sc: StreamContext<Packet, Frame>, s: Stream, i: nat, decoders: map<int, Codec<Frame>>)
    returns (status: int)
    modifies sc`audioStream, sc`audioCodec, sc`audioContext
    ensures status == 0 || status == -1
    ensures status == 0 <==> DecoderOpens(s, decoders)
    ensures sc.audioStream == Some(i) && fresh(sc.audioContext)
    ensures sc.audioCodec == Lookup(decoders, s.codecpar.codecId)
    ensures status == 0 ==> DecoderReady(sc.audioContext, s, decoders)
  {
    sc.audioStream := Some(i);
    var codec, ctx;
    status, codec, ctx := FillStreamInfo(s, decoders);
    sc.audioCodec, sc.audioContext := codec, ctx;
  }

  /** One side (video or audio) of a decoder context: the stream taken, its decoder and
      the decoder context. */
  datatype Side = Side(stream: Option<nat>, codec: Option<Codec<Frame>>, ctx: CodecContext?<Packet, Frame>)

  /** What prepareDecoder's walk holds after the first i streams, starting from the sides
      v0 and a0 and the video index vi0: those streams all have decoders that open, and
      each side holds the last stream of its type among them (v and a), or its start. */
  ghost predicate Walked(sc: StreamContext<Packet, Frame>, streams: seq<Stream>, decoders: map<int, Codec<Frame>>,
                         i: nat, v: Option<nat>, a: Option<nat>, v0: Side, a0: Side, vi0: int)
    reads sc, sc.videoContext, sc.audioContext
  {
    i <= |streams| &&
    (forall j | 0 <= j < i :: IsAudioOrVideo(streams[j]) ==> DecoderOpens(streams[j], decoders)) &&
    v == LastOfType(streams[..i], Video) && a == LastOfType(streams[..i], Audio) &&
    SideHolds(sc.videoStream, sc.videoCodec, sc.videoContext, v, streams, decoders, v0.stream, v0.codec, v0.ctx) &&
    SideHolds(sc.audioStream, sc.audioCodec, sc.audioContext, a, streams, decoders, a0.stream, a0.codec, a0.ctx) &&
    sc.videoIndex == (if v.Some? then v.value else vi0) &&
    (v.Some? && a.Some? ==> sc.videoContext != sc.audioContext)
  }

  /** One pass of prepareDecoder's loop, over stream i: a video or audio stream is taken,
      any other is skipped; -1 when its decoder does not open. */
  method PrepareStream(sc: StreamContext<Packet, Frame>, streams: seq<Stream>, decoders: map<int, Codec<Frame>>,
                       i: nat, ghost v: Option<nat>, ghost a: Option<nat>, ghost v0: Side, ghost a0: Side, ghost vi0: int)
    returns (status: int, ghost v1: Option<nat>, ghost a1: Option<nat>)
    requires i < |streams| && Walked(sc, streams, decoders, i, v, a, v0, a0, vi0)
    modifies sc`videoStream, sc`videoIndex, sc`videoCodec, sc`videoContext
    modifies sc`audioStream, sc`audioCodec, sc`audioContext
    ensures status == 0 || status == -1
    ensures status == -1 ==> !DecodersOpen(streams, decoders)
    ensures status == 0 ==> Walked(sc, streams, decoders, i + 1, v1, a1, v0, a0, vi0)
    ensures sc.videoContext == old(sc.videoContext) || fresh(sc.videoContext)
    ensures sc.audioContext == old(sc.audioContext) || fresh(sc.audioContext)
  {
    LastOfTypeExtend(streams, i, Video);
    LastOfTypeExtend(streams, i, Audio);
    v1, a1 := v, a;
    var t := streams[i].codecpar.mediaType;
    if t == Video {
      status := TakeVideo(sc, streams[i], i, decoders);
      v1 := Some(i);
    } else if t == Audio {
      status := TakeAudio(sc, streams[i], i, decoders);
      a1 := Some(i);
    } else {
      status := 0;
    }
  }

  /** prepareDecoder: walks the input streams; for each video stream it records the stream,
      its index and a decoder, for each audio stream the stream and a decoder; other streams
      are skipped. The first decoder that cannot be opened ends the walk with -1. A later
      stream of the same type replaces an earlier one, so the last one wins; audioIndex is
      never written. */
  method PrepareDecoder(sc: StreamContext<Packet, Frame>, decoders: map<int, Codec<Frame>>) returns (status: int)
    requires sc.format != null
    modifies sc`videoStream, sc`videoIndex, sc`videoCodec, sc`videoContext
    modifies sc`audioStream, sc`audioCodec, sc`audioContext
    ensures status == 0 || status == -1
    ensures status == 0 <==> DecodersOpen(sc.format.streams, decoders)
    ensures sc.videoContext == old(sc.videoContext) || fresh(sc.videoContext)
    ensures sc.audioContext == old(sc.audioContext) || fresh(sc.audioContext)
    ensures status == 0 ==>
      SideHolds(sc.videoStream, sc.videoCodec, sc.videoContext, LastOfType(sc.format.streams, Video),
                sc.format.streams, decoders, old(sc.videoStream), old(sc.videoCodec), old(sc.videoContext))
    ensures status == 0 ==>
      SideHolds(sc.audioStream, sc.audioCodec, sc.audioContext, LastOfType(sc.format.streams, Audio),
                sc.format.streams, decoders, old(sc.audioStream), old(sc.audioCodec), old(sc.audioContext))
    ensures status == 0 ==>
      sc.videoIndex == (if LastOfType(sc.format.streams, Video).Some?
                        then LastOfType(sc.format.streams, Video).value else old(sc.videoIndex))
    ensures status == 0 && LastOfType(sc.format.streams, Video).Some? && LastOfType(sc.format.streams, Audio).Some? ==>
      sc.videoContext != sc.audioContext
  {
    var streams := sc.format.streams;
    ghost var v0 := Side(sc.videoStream, sc.videoCodec, sc.videoContext);
    ghost var a0 := Side(sc.audioStream, sc.audioCodec, sc.audioContext);
    ghost var vi0 := sc.videoIndex;
    var i := 0;
    ghost var v: Option<nat>, a: Option<nat> := None, None;
    while i < |streams|
      invariant Walked(sc, streams, decoders, i, v, a, v0, a0, vi0)
      invariant sc.videoContext == old(sc.videoContext) || fresh(sc.videoContext)
      invariant sc.audioContext == old(sc.audioContext) || fresh(sc.audioContext)
    {
      var filled;
      filled, v, a := PrepareStream(sc, streams, decoders, i, v, a, v0, a0, vi0);
      if filled < 0 {
        return -1;
      }
      i := i + 1;
    }
    assert streams[..i] == streams;
    status := 0;
  }

  // ---------------------------------------------------------------------------------------
  // Encoder configuration

  const VideoBitRate: int := 3 * 1000 * 1000
  const VideoRcBufferSize: int := 6 * 1000 * 1000 + 2 * 100 * 1000
  /** 4.7 * 1000 * 1000, a double in the source, stored into an int64 field. */
  const VideoRcMaxRate: int := 4_700_000
  const VideoRcMinRate: int := 3 * 1000 * 1000
  const VideoPreset: string := "fast"

  const AudioChannels: int := 2
  const AudioBitRate: int := 196000
  /** av_get_default_channel_layout(2) = AV_CH_LAYOUT_STEREO (front left | front right). */
  const StereoLayout: int := 3
  /** FF_COMPLIANCE_EXPERIMENTAL. */
  const ComplianceExperimental: int := -2

  /** The stream avformat_new_stream appends. */
  const NewStreamValue: Stream := NewStreamOf(BlankParameters)

  /** The private options a video encoder gets: the preset, then the caller's key/value (the
      test on the two c_str() pointers is always true, so the pair is always set). */
  function VideoPrivOptions(params: StreamParams): (m: map<string, string>)
    ensures params.codecPrivKey in m && m[params.codecPrivKey] == params.codecPrivValue
    ensures VideoPreset in m && (params.codecPrivKey != VideoPreset ==> m[VideoPreset] == "fast")
    ensures m.Keys == {VideoPreset, params.codecPrivKey}
  {
    map[VideoPreset := "fast"][params.codecPrivKey := params.codecPrivValue]
  }

  /** The configuration prepareVideoEncoder gives a video encoder context before opening it. */
  predicate VideoConfigured(ctx: CodecContext<Frame, Packet>, codec: Codec<Packet>, dec: CodecContext<Packet, Frame>,
                            params: StreamParams)
    reads ctx, dec
  {
    ctx.codec == Some(codec) && ctx.privOptions == VideoPrivOptions(params) &&
    ctx.width == dec.width && ctx.height == dec.height && ctx.sampleAspectRatio == dec.sampleAspectRatio &&
    ctx.pixFmt == (if codec.pixFmts != [] then codec.pixFmts[0] else dec.pixFmt) &&
    ctx.bitRate == VideoBitRate && ctx.rcBufferSize == VideoRcBufferSize &&
    ctx.rcMaxRate == VideoRcMaxRate && ctx.rcMinRate == VideoRcMinRate
  }

  /** An encoder context after avcodec_open2 answered status, given the time base set
      before, and the output stream it describes: the encoder's parameters are copied into
      the stream only when it opened. */
  predicate OpenedAs(ctx: CodecContext<Frame, Packet>, codec: Codec<Packet>, s: Stream, tb: Rational, status: int)
    reads ctx
  {
    s.timeBase == tb && s.avgFrameRate == NewStreamValue.avgFrameRate &&
    (status == 0 <==> codec.script.opens) &&
    (status == 0 ==> ctx.timeBase == OpenedTimeBase(codec.script, tb) &&
                     ctx.Engine() == EngineState(true, codec.script.sendResults, codec.script.pullResults, []) &&
                     s.codecpar == ctx.Parameters()) &&
    (status != 0 ==> ctx.timeBase == tb && ctx.Engine() == EngineState(false, [], [], []) &&
                     s.codecpar == BlankParameters)
  }

  /** The assignments of prepareVideoEncoder between allocation and opening. */
  method ConfigureVideo(ctx: CodecContext<Frame, Packet>, codec: Codec<Packet>, dec: CodecContext<Packet, Frame>,
                        frameRate: Rational, params: StreamParams)
    requires ctx.codec == Some(codec)
    modifies ctx`privOptions, ctx`width, ctx`height, ctx`sampleAspectRatio, ctx`pixFmt
    modifies ctx`bitRate, ctx`rcBufferSize, ctx`rcMaxRate, ctx`rcMinRate, ctx`timeBase
    ensures VideoConfigured(ctx, codec, dec, params) && ctx.timeBase == Inverse(frameRate)
  {
    ctx.privOptions := VideoPrivOptions(params);
    ctx.height := dec.height;
    ctx.width := dec.width;
    ctx.sampleAspectRatio := dec.sampleAspectRatio;
    ctx.pixFmt := if codec.pixFmts != [] then codec.pixFmts[0] else dec.pixFmt;
    ctx.bitRate := VideoBitRate;
    ctx.rcBufferSize := VideoRcBufferSize;
    ctx.rcMaxRate := VideoRcMaxRate;
    ctx.rcMinRate := VideoRcMinRate;
    ctx.timeBase := Inverse(frameRate);
  }

  /** Sets the output stream's time base to the encoder's, opens the encoder and, when it
      opens, copies its parameters into the stream. */
  method OpenEncoder(ctx: CodecContext<Frame, Packet>, codec: Codec<Packet>, out: FormatContext, i: nat)
    returns (status: int)
    requires ctx.codec == Some(codec) && i < |out.streams| && out.streams[i] == NewStreamValue
    requires ctx.Engine() == EngineState(false, [], [], [])
    modifies ctx`isOpen, ctx`sendResults, ctx`pullResults, ctx`timeBase, out`streams
    ensures status == 0 || status == -1
    ensures |out.streams| == |old(out.streams)| && out.streams == old(out.streams)[i := out.streams[i]]
    ensures OpenedAs(ctx, codec, out.streams[i], old(ctx.timeBase), status)
  {
    out.SetTimeBase(i, ctx.timeBase);
    var openStatus := ctx.Open();
    if openStatus < 0 {
      return -1;
    }
    out.SetParameters(i, ctx.Parameters());
    status := 0;
  }

  /** prepareVideoEncoder: appends the output video stream, looks the encoder up by name
      (none: -1 before any configuration), configures a context from the decoder context,
      sets the encoder and stream time bases to the inverse of the input frame rate, opens
      the encoder (failure: -1) and copies its parameters into the stream. */
  method PrepareVideoEncoder(sc: StreamContext<Frame, Packet>, dec: CodecContext<Packet, Frame>, frameRate: Rational,
                             params: StreamParams, encoders: map<string, Codec<Packet>>) returns (status: int)
    requires sc.format != null
    modifies sc`videoStream, sc`videoCodec, sc`videoContext, sc.format`streams
    ensures status == 0 || status == -1
    ensures var n := |old(sc.format.streams)|;
      sc.videoStream == Some(n) && |sc.format.streams| == n + 1 &&
      sc.format.streams == old(sc.format.streams) + [sc.format.streams[n]]
    ensures sc.videoCodec == Lookup(encoders, params.videoCodec)
    ensures sc.videoCodec.None? ==>
      status == -1 && sc.videoContext == old(sc.videoContext) &&
      sc.format.streams == old(sc.format.streams) + [NewStreamValue]
    ensures sc.videoCodec.Some? ==>
      fresh(sc.videoContext) && VideoConfigured(sc.videoContext, sc.videoCodec.value, dec, params) &&
      OpenedAs(sc.videoContext, sc.videoCodec.value, sc.format.streams[|old(sc.format.streams)|],
               Inverse(frameRate), status)
  {
    var v := sc.format.NewStream();
    sc.videoStream := Some(v);
    sc.videoCodec := Lookup(encoders, params.videoCodec);
    if sc.videoCodec.None? {
      return -1;
    }
    status, sc.videoContext := NewVideoEncoder(sc.videoCodec.value, dec, frameRate, params, sc.format, v);
  }

  /** The allocation, configuration and opening of a video encoder context for stream i. */
  method NewVideoEncoder(codec: Codec<Packet>, dec: CodecContext<Packet, Frame>, frameRate: Rational,
                         params: StreamParams, out: FormatContext, i: nat)
    returns (status: int, ctx: CodecContext<Frame, Packet>)
    requires i < |out.streams| && out.streams[i] == NewStreamValue
    modifies out`streams
    ensures status == 0 || status == -1
    ensures |out.streams| == |old(out.streams)| && out.streams == old(out.streams)[i := out.streams[i]]
    ensures fresh(ctx) && VideoConfigured(ctx, codec, dec, params)
    ensures OpenedAs(ctx, codec, out.streams[i], Inverse(frameRate), status)
    ensures status == 0 ==>
      out.streams[i].codecpar.mediaType == codec.mediaType &&
      (codec.mediaType != Audio ==> out.streams[i].codecpar.format == ctx.pixFmt)
  {
    ctx := new CodecContext(Some(codec));
    ConfigureVideo(ctx, codec, dec, frameRate, params);
    status := OpenEncoder(ctx, codec, out, i);
  }

  /** The configuration prepareAudioEncoder gives an audio encoder context. */
  predicate AudioConfigured(ctx: CodecContext<Frame, Packet>, codec: Codec<Packet>, sampleRate: int)
    reads ctx
  {
    ctx.codec == Some(codec) && codec.sampleFmts != [] &&
    ctx.channels == AudioChannels && ctx.channelLayout == StereoLayout &&
    ctx.sampleRate == sampleRate && ctx.sampleFmt == codec.sampleFmts[0] &&
    ctx.bitRate == AudioBitRate && ctx.strictStdCompliance == ComplianceExperimental
  }

  /** The assignments of prepareAudioEncoder between allocation and opening; reading the
      first sample format of an encoder that lists none is undefined. */
  method ConfigureAudio(ctx: CodecContext<Frame, Packet>, codec: Codec<Packet>, sampleRate: int)
    returns (o: Outcome)
    requires ctx.codec == Some(codec)
    modifies ctx`channels, ctx`channelLayout, ctx`sampleRate, ctx`sampleFmt
    modifies ctx`bitRate, ctx`timeBase, ctx`strictStdCompliance
    ensures o == Returned(0) || o == Undefined(NoSampleFormats)
    ensures o == Returned(0) <==> codec.sampleFmts != []
    ensures o == Returned(0) ==> AudioConfigured(ctx, codec, sampleRate) && ctx.timeBase == Rational(1, sampleRate)
  {
    ctx.channels := AudioChannels;
    ctx.channelLayout := StereoLayout;
    ctx.sampleRate := sampleRate;
    if codec.sampleFmts == [] {
      return Undefined(NoSampleFormats);
    }
    ctx.sampleFmt := codec.sampleFmts[0];
    ctx.bitRate := AudioBitRate;
    ctx.timeBase := Rational(1, sampleRate);
    ctx.strictStdCompliance := ComplianceExperimental;
    o := Returned(0);
  }

  /** prepareAudioEncoder: appends the output audio stream, looks the encoder up by name
      (none: -1), configures two channels, the stereo layout, the sample rate, the encoder's
      first sample format, 196 kbit/s and experimental compliance; sets the encoder and
      stream time bases to 1/sampleRate; opens the encoder (failure: -1) and copies its
      parameters into the stream. */
  method PrepareAudioEncoder(sc: StreamContext<Frame, Packet>, sampleRate: int, params: StreamParams,
                             encoders: map<string, Codec<Packet>>) returns (o: Outcome)
    requires sc.format != null
    modifies sc`audioStream, sc`audioCodec, sc`audioContext, sc.format`streams
    ensures o == Returned(0) || o == Returned(-1) || o == Undefined(NoSampleFormats)
    ensures var n := |old(sc.format.streams)|;
      sc.audioStream == Some(n) && |sc.format.streams| == n + 1 &&
      sc.format.streams == old(sc.format.streams) + [sc.format.streams[n]]
    ensures sc.audioCodec == Lookup(encoders, params.audioCodec)
    ensures sc.audioCodec.None? ==>
      o == Returned(-1) && sc.audioContext == old(sc.audioContext) &&
      sc.format.streams == old(sc.format.streams) + [NewStreamValue]
    ensures sc.audioCodec.Some? ==>
      fresh(sc.audioContext) && (o == Undefined(NoSampleFormats) <==> sc.audioCodec.value.sampleFmts == [])
    ensures sc.audioCodec.Some? && o.Returned? ==>
      AudioConfigured(sc.audioContext, sc.audioCodec.value, sampleRate) &&
      OpenedAs(sc.audioContext, sc.audioCodec.value, sc.format.streams[|old(sc.format.streams)|],
               Rational(1, sampleRate), o.code)
  {
    var a := sc.format.NewStream();
    sc.audioStream := Some(a);
    sc.audioCodec := Lookup(encoders, params.audioCodec);
    if sc.audioCodec.None? {
      return Returned(-1);
    }
    o, sc.audioContext := NewAudioEncoder(sc.audioCodec.value, sampleRate, sc.format, a);
  }

  /** The allocation, configuration and opening of an audio encoder context for stream i. */
  method NewAudioEncoder(codec: Codec<Packet>, sampleRate: int, out: FormatContext, i: nat)
    returns (o: Outcome, ctx: CodecContext<Frame, Packet>)
    requires i < |out.streams| && out.streams[i] == NewStreamValue
    modifies out`streams
    ensures o == Returned(0) || o == Returned(-1) || o == Undefined(NoSampleFormats)
    ensures o == Undefined(NoSampleFormats) <==> codec.sampleFmts == []
    ensures |out.streams| == |old(out.streams)| && out.streams == old(out.streams)[i := out.streams[i]]
    ensures fresh(ctx)
    ensures o.Returned? ==>
      AudioConfigured(ctx, codec, sampleRate) && OpenedAs(ctx, codec, out.streams[i], Rational(1, sampleRate), o.code)
    ensures o == Returned(0) ==>
      out.streams[i].codecpar.mediaType == codec.mediaType &&
      (codec.mediaType == Audio ==> out.streams[i].codecpar.format == codec.sampleFmts[0])
  {
    ctx := new CodecContext(Some(codec));
    o := ConfigureAudio(ctx, codec, sampleRate);
    if o.Undefined? {
      return;
    }
    var status := OpenEncoder(ctx, codec, out, i);
    o := Returned(status);
  }

  /** prepareCopy: appends an output stream carrying the decoder's parameters; it always
      reports success. */
  method PrepareCopy(out: FormatContext, par: CodecParameters) returns (status: int, stream: nat)
    modifies out`streams
    ensures status == 0 && stream == |old(out.streams)|
    ensures out.streams == old(out.streams) + [NewStreamValue.(codecpar := par)]
  {
    stream := out.NewStream();
    out.SetParameters(stream, par);
    status := 0;
  }
}
