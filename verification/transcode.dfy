/** Transcoder::Transcode: open the input, set up the decoders, the output streams and the
    encoders, write the header, route every packet read (module Routing), flush the video
    encoder and write the trailer. */
module Transcoder {
  import opened Timestamps
  import opened AVError
  import opened Outcomes
  import opened Media
  import opened Engine
  import opened Protocol
  import opened Streams
  import opened Routing
  import opened Codecs

  // ---------------------------------------------------------------------------------------
  // The engine one run of Transcode meets

  /** What the engine will do in one run: the input container (None: avformat_open_input or
      avformat_find_stream_info fails), the decoders by codec id, the encoders by name, the
      output container (None: avformat_alloc_output_context2 finds no muxer for the path)
      and the rate av_guess_frame_rate reports for the input's video stream. */
  datatype Environment = Environment(
    input: Option<InputFile>, decoders: map<int, Codec<Frame>>, encoders: map<string, Codec<Packet>>,
    output: Option<OutputTarget>, frameRate: Rational)

  /** What the demuxer guarantees of a file it opened: av_read_frame ends with a negative
      code, and every packet names one of the streams (those found when the file was
      probed, or one added while reading) and carries int64 timestamps. Time bases and
      frame rates may be anything, zero included. */
  predicate InputValid(file: InputFile) {
    file.readEnd < 0 && PacketsOk(TypesOf(file.AllStreams()), file.packets)
  }

  /** The packets an encoder hands out carry int64 timestamps. */
  predicate EncoderScriptValid(s: Script<Packet>) {
    PacketsInInt64(s.pullResults)
  }

  predicate EnvironmentValid(env: Environment) {
    (env.input.Some? ==> InputValid(env.input.value)) &&
    (forall name | name in env.encoders :: EncoderScriptValid(env.encoders[name].script))
  }

  // ---------------------------------------------------------------------------------------
  // Set-up

  /** openMedia: avformat_open_input, then avformat_find_stream_info; either failing gives -1. */
  method OpenMedia(input: Option<InputFile>) returns (status: int, fc: FormatContext?)
    requires input.Some? ==> input.value.readEnd < 0
    ensures status == 0 || status == -1
    ensures status == 0 <==> input.Some?
    ensures status == 0 ==>
      fc != null && fresh(fc) && fc.streams == input.value.streams && fc.late == input.value.late &&
      fc.pending == input.value.packets && fc.readEnd == input.value.readEnd
  {
    if input.None? {
      return -1, null;
    }
    fc := new FormatContext.OpenInput(input.value);
    status := 0;
  }

  /** The video half of the set-up (transcoder.cpp 407-415). Transcoding: av_guess_frame_rate
      reads the decoder's video stream, NULL when the input has none, and the result of
      prepareVideoEncoder is not checked. Copying: prepareCopy reads that stream's
      parameters, and never fails. */
  method PrepareVideoSide(decoder: StreamContext<Packet, Frame>, encoder: StreamContext<Frame, Packet>,
                          params: StreamParams, env: Environment) returns (o: Outcome)
    requires decoder.format != null && encoder.format != null && decoder.format != encoder.format
    requires decoder.videoStream.Some? ==>
      decoder.videoStream.value < |decoder.format.streams| && decoder.videoContext != null
    modifies encoder`videoStream, encoder`videoCodec, encoder`videoContext, encoder.format`streams
    ensures o == Returned(0) || o == Undefined(NullVideoStream)
    ensures o == Undefined(NullVideoStream) <==> decoder.videoStream.None?
    ensures o == Returned(0) ==>
      encoder.videoStream == Some(|old(encoder.format.streams)|) &&
      |encoder.format.streams| == |old(encoder.format.streams)| + 1 &&
      encoder.format.streams[..|old(encoder.format.streams)|] == old(encoder.format.streams)
    ensures o == Returned(0) && params.copyVideo ==>
      encoder.videoContext == old(encoder.videoContext) &&
      encoder.format.streams[|old(encoder.format.streams)|] ==
        NewStreamValue.(codecpar := decoder.format.streams[decoder.videoStream.value].codecpar)
    ensures o == Returned(0) && !params.copyVideo ==>
      encoder.videoCodec == Lookup(env.encoders, params.videoCodec) &&
      (encoder.videoCodec.None? ==>
        encoder.videoContext == old(encoder.videoContext) &&
        encoder.format.streams[|old(encoder.format.streams)|] == NewStreamValue) &&
      (encoder.videoCodec.Some? ==>
        fresh(encoder.videoContext) &&
        VideoConfigured(encoder.videoContext, encoder.videoCodec.value, decoder.videoContext, params) &&
        OpenedAs(encoder.videoContext, encoder.videoCodec.value, encoder.format.streams[|old(encoder.format.streams)|],
                 Inverse(env.frameRate), if encoder.videoCodec.value.script.opens then 0 else -1))
  {
    if decoder.videoStream.None? {
      return Undefined(NullVideoStream);
    }
    if !params.copyVideo {
      var ignored := PrepareVideoEncoder(encoder, decoder.videoContext, env.frameRate, params, env.encoders);
    } else {
      var _, stream := PrepareCopy(encoder.format, decoder.format.streams[decoder.videoStream.value].codecpar);
      encoder.videoStream := Some(stream);
    }
    o := Returned(0);
  }

  /** The audio half of the set-up (transcoder.cpp 417-427). Transcoding reads the sample
      rate of the decoder's audio context, NULL when the input has no audio stream, and a
      failing prepareAudioEncoder gives -1. Copying reads the audio stream's parameters. */
  method PrepareAudioSide(decoder: StreamContext<Packet, Frame>, encoder: StreamContext<Frame, Packet>,
                          params: StreamParams, env: Environment) returns (o: Outcome)
    requires decoder.format != null && encoder.format != null && decoder.format != encoder.format
    requires decoder.audioStream.Some? <==> decoder.audioContext != null
    requires decoder.audioStream.Some? ==> decoder.audioStream.value < |decoder.format.streams|
    modifies encoder`audioStream, encoder`audioCodec, encoder`audioContext, encoder.format`streams
    ensures o == Returned(0) || o == Returned(-1) || o == Undefined(NullAudioStream) || o == Undefined(NoSampleFormats)
    ensures o == Undefined(NullAudioStream) <==> decoder.audioStream.None?
    ensures params.copyAudio && decoder.audioStream.Some? ==>
      o == Returned(0) && encoder.audioStream == Some(|old(encoder.format.streams)|) &&
      encoder.audioContext == old(encoder.audioContext) &&
      encoder.format.streams ==
        old(encoder.format.streams) + [NewStreamValue.(codecpar := decoder.format.streams[decoder.audioStream.value].codecpar)]
    ensures !params.copyAudio && decoder.audioStream.Some? ==>
      encoder.audioCodec == Lookup(env.encoders, params.audioCodec) &&
      (encoder.audioCodec.None? ==> o == Returned(-1)) &&
      (encoder.audioCodec.Some? ==>
        (o == Undefined(NoSampleFormats) <==> encoder.audioCodec.value.sampleFmts == []) &&
        (o.Returned? ==> (o.code == 0 <==> encoder.audioCodec.value.script.opens)))
    ensures !params.copyAudio && o == Returned(0) ==>
      encoder.audioCodec.Some? && fresh(encoder.audioContext) &&
      encoder.audioStream == Some(|old(encoder.format.streams)|) &&
      |encoder.format.streams| == |old(encoder.format.streams)| + 1 &&
      encoder.format.streams[..|old(encoder.format.streams)|] == old(encoder.format.streams) &&
      AudioConfigured(encoder.audioContext, encoder.audioCodec.value, decoder.audioContext.sampleRate) &&
      OpenedAs(encoder.audioContext, encoder.audioCodec.value, encoder.format.streams[|old(encoder.format.streams)|],
               Rational(1, decoder.audioContext.sampleRate), 0)
  {
    if !params.copyAudio {
      if decoder.audioContext == null {
        return Undefined(NullAudioStream);
      }
      o := PrepareAudioEncoder(encoder, decoder.audioContext.sampleRate, params, env.encoders);
      if o == Returned(-1) {
        return;
      }
    } else {
      if decoder.audioStream.None? {
        return Undefined(NullAudioStream);
      }
      var _, stream := PrepareCopy(encoder.format, decoder.format.streams[decoder.audioStream.value].codecpar);
      encoder.audioStream := Some(stream);
      o := Returned(0);
    }
  }

  /** The options handed to avformat_write_header: the muxer key and value are always set,
      since the test on their two c_str() pointers never fails. */
  function MuxerOptions(params: StreamParams): (m: map<string, string>)
    ensures m.Keys == {params.muxerOptKey} && m[params.muxerOptKey] == params.muxerOptValue
  {
    map[params.muxerOptKey := params.muxerOptValue]
  }

  /** The output file and the header (transcoder.cpp 433-449): avio_open when the muxer needs
      a file, then avformat_write_header; either failing gives -1. */
  method OpenOutput(out: FormatContext, params: StreamParams) returns (status: int)
    modifies out`fileOpen, out`headerWritten, out`headerOptions, out`streams
    ensures status == 0 || status == -1
    ensures status == 0 <==> (!out.needsFile || out.fileOpens) && out.headerResult == 0
    ensures status == 0 ==>
      out.headerWritten && out.headerOptions == MuxerOptions(params) &&
      out.streams == Retimed(old(out.streams), out.retime)
    ensures status != 0 ==> out.streams == old(out.streams)
  {
    if out.needsFile {
      var fileStatus := out.OpenFile();
      if fileStatus < 0 {
        return -1;
      }
    }
    var header := out.WriteHeader(MuxerOptions(params));
    if header < 0 {
      return -1;
    }
    status := 0;
  }

  /** The outcome of preparing the two output streams (transcoder.cpp 407-427): the NULL
      streams read when the input lacks video or audio, then the audio encoder (looked up by
      name, its first sample format read, opened) unless audio is copied. The video encoder's
      failures do not count. */
  function SidesResult(file: InputFile, env: Environment, params: StreamParams): (o: Outcome)
    ensures o == Returned(0) || o == Returned(-1) || o.Undefined?
  {
    if LastOfType(file.streams, Video).None? then Undefined(NullVideoStream)
    else if LastOfType(file.streams, Audio).None? then Undefined(NullAudioStream)
    else if !params.copyAudio && params.audioCodec !in env.encoders then Returned(-1)
    else if !params.copyAudio && env.encoders[params.audioCodec].sampleFmts == [] then Undefined(NoSampleFormats)
    else if !params.copyAudio && !env.encoders[params.audioCodec].script.opens then Returned(-1)
    else Returned(0)
  }

  /** The outcome of the whole set-up (transcoder.cpp 396-449): opening the input, a decoder
      for every audio and video stream, a muxer for the output path, the two output streams,
      the output file when the muxer needs one, and the header. */
  function SetUpResult(env: Environment, params: StreamParams): (o: Outcome)
    ensures o == Returned(0) || o == Returned(-1) || o.Undefined?
  {
    if env.input.None? || !DecodersOpen(env.input.value.streams, env.decoders) || env.output.None? then Returned(-1)
    else if SidesResult(env.input.value, env, params) != Returned(0) then SidesResult(env.input.value, env, params)
    else if env.output.value.needsFile && !env.output.value.fileOpens then Returned(-1)
    else if env.output.value.headerResult != 0 then Returned(-1)
    else Returned(0)
  }

  /** A StreamContext as calloc and the assignment of its file name leave it. */
  predicate Blank<I, O>(sc: StreamContext<I, O>)
    reads sc
  {
    sc.format == null && sc.videoCodec.None? && sc.audioCodec.None? && sc.videoStream.None? &&
    sc.audioStream.None? && sc.videoContext == null && sc.audioContext == null &&
    sc.videoIndex == 0 && sc.audioIndex == 0
  }

  /** The decoder side after openMedia and prepareDecoder succeed: the input is open and
      unread; its last video and last audio streams, where there are any, are taken, each with
      an open decoder context to which nothing was sent yet; audioIndex is still the 0 of
      calloc. */
  predicate DecoderOpened(decoder: StreamContext<Packet, Frame>, file: InputFile, decoders: map<int, Codec<Frame>>)
    reads decoder, decoder.format, decoder.videoContext, decoder.audioContext
  {
    decoder.format != null && decoder.format.streams == file.streams && decoder.format.late == file.late &&
    decoder.format.pending == file.packets && decoder.format.readEnd == file.readEnd &&
    decoder.videoStream == LastOfType(file.streams, Video) && decoder.audioStream == LastOfType(file.streams, Audio) &&
    (decoder.videoStream.Some? ==>
      decoder.videoIndex == decoder.videoStream.value &&
      DecoderReady(decoder.videoContext, file.streams[decoder.videoStream.value], decoders)) &&
    (decoder.videoStream.None? ==> decoder.videoContext == null) &&
    (decoder.audioStream.Some? ==>
      DecoderReady(decoder.audioContext, file.streams[decoder.audioStream.value], decoders)) &&
    (decoder.audioStream.None? ==> decoder.audioContext == null) &&
    (decoder.videoStream.Some? && decoder.audioStream.Some? ==> decoder.videoContext != decoder.audioContext) &&
    decoder.audioIndex == 0
  }

  /** The encoder side once both output streams exist: output stream 0 is the video stream
      and 1 the audio stream; a copied video stream has no encoder context (nor has a video
      codec that was not found); the audio encoder, unless audio is copied, exists; nothing was sent to the encoders or written yet. */
  ghost predicate EncoderSides(encoder: StreamContext<Frame, Packet>, params: StreamParams, target: OutputTarget)
    reads encoder, encoder.format, encoder.videoContext, encoder.audioContext
  {
    encoder.format != null && |encoder.format.streams| == 2 &&
    encoder.format.needsFile == target.needsFile && encoder.format.fileOpens == target.fileOpens &&
    encoder.format.headerResult == target.headerResult &&
    encoder.videoStream == Some(0) && encoder.audioStream == Some(1) &&
    (params.copyVideo ==> encoder.videoContext == null) &&
    (encoder.videoContext != null ==>
      encoder.videoContext.submitted == [] && PacketsInInt64(encoder.videoContext.pullResults)) &&
    (params.copyAudio ==> encoder.audioContext == null) &&
    (!params.copyAudio ==>
      encoder.audioContext != null && encoder.audioContext.submitted == [] &&
      PacketsInInt64(encoder.audioContext.pullResults)) &&
    (encoder.videoContext != null && encoder.audioContext != null ==> encoder.videoContext != encoder.audioContext) &&
    encoder.format.written == [] && !encoder.format.trailerWritten
  }

  /** The video encoder context, unless video is copied, is the one prepareVideoEncoder
      made for the encoder looked up by name, when it was found: it was opened on that
      encoder's script or, failing to open, holds no packets. */
  ghost predicate VideoEncoderTraced(encoder: StreamContext<Frame, Packet>, params: StreamParams,
                                     encoders: map<string, Codec<Packet>>)
    reads encoder, encoder.videoContext
  {
    !params.copyVideo ==>
      encoder.videoCodec == Lookup(encoders, params.videoCodec) &&
      (encoder.videoCodec.Some? ==>
        encoder.videoContext != null &&
        (encoder.videoContext.pullResults == [] ||
         encoder.videoContext.pullResults == encoder.videoCodec.value.script.pullResults))
  }

  /** Both sides after a successful set-up: on top of the above, the input has video and
      audio, and the header is written, which settled the output video stream's time base. */
  ghost predicate Prepared(decoder: StreamContext<Packet, Frame>, encoder: StreamContext<Frame, Packet>,
                     params: StreamParams, env: Environment)
    reads decoder, decoder.format, decoder.videoContext, decoder.audioContext
    reads encoder, encoder.format, encoder.videoContext, encoder.audioContext
  {
    env.input.Some? && InputValid(env.input.value) && env.output.Some? &&
    DecoderOpened(decoder, env.input.value, env.decoders) &&
    decoder.videoStream.Some? && decoder.audioStream.Some? &&
    EncoderSides(encoder, params, env.output.value) && VideoEncoderTraced(encoder, params, env.encoders) &&
    encoder.format.headerWritten && encoder.format.headerOptions == MuxerOptions(params) &&
    decoder.format != encoder.format
  }

  /** openMedia and prepareDecoder on a blank decoder context (transcoder.cpp 396-397). */
  method OpenInput(decoder: StreamContext<Packet, Frame>, env: Environment) returns (status: int)
    requires EnvironmentValid(env) && Blank(decoder)
    modifies decoder
    ensures status == 0 || status == -1
    ensures status == 0 <==> env.input.Some? && DecodersOpen(env.input.value.streams, env.decoders)
    ensures status == 0 ==>
      DecoderOpened(decoder, env.input.value, env.decoders) && fresh(decoder.format) &&
      (decoder.videoContext == null || fresh(decoder.videoContext)) &&
      (decoder.audioContext == null || fresh(decoder.audioContext))
  {
    var fc;
    status, fc := OpenMedia(env.input);
    if status < 0 {
      return;
    }
    decoder.format := fc;
    status := PrepareDecoder(decoder, env.decoders);
  }

  /** The output context with its video stream only, as EncoderSides describes it otherwise. */
  ghost predicate VideoSideReady(encoder: StreamContext<Frame, Packet>, params: StreamParams, target: OutputTarget)
    reads encoder, encoder.format, encoder.videoContext
  {
    encoder.format != null && |encoder.format.streams| == 1 &&
    encoder.format.needsFile == target.needsFile && encoder.format.fileOpens == target.fileOpens &&
    encoder.format.headerResult == target.headerResult &&
    encoder.videoStream == Some(0) && encoder.audioStream.None? && encoder.audioContext == null &&
    (params.copyVideo ==> encoder.videoContext == null) &&
    (encoder.videoContext != null ==>
      encoder.videoContext.submitted == [] && PacketsInInt64(encoder.videoContext.pullResults)) &&
    encoder.format.written == [] && !encoder.format.trailerWritten
  }

  /** The output context and its video stream (transcoder.cpp 399-415), on an open input. */
  method PrepareVideoOutput(decoder: StreamContext<Packet, Frame>, encoder: StreamContext<Frame, Packet>,
                            params: StreamParams, file: InputFile, env: Environment) returns (o: Outcome)
    requires EnvironmentValid(env) && env.input == Some(file) && env.output.Some?
    requires DecoderOpened(decoder, file, env.decoders) && Blank(encoder)
    modifies encoder
    ensures o == Returned(0) || o == Undefined(NullVideoStream)
    ensures o == Undefined(NullVideoStream) <==> LastOfType(file.streams, Video).None?
    ensures o == Returned(0) ==>
      VideoSideReady(encoder, params, env.output.value) && VideoEncoderTraced(encoder, params, env.encoders) &&
      fresh(encoder.format) &&
      (encoder.videoContext == null || fresh(encoder.videoContext))
  {
    encoder.format := new FormatContext.AllocOutput(env.output.value);
    o := PrepareVideoSide(decoder, encoder, params, env);
  }

  /** The output audio stream (transcoder.cpp 417-427), after the video stream. */
  method PrepareAudioOutput(decoder: StreamContext<Packet, Frame>, encoder: StreamContext<Frame, Packet>,
                            params: StreamParams, file: InputFile, env: Environment) returns (o: Outcome)
    requires EnvironmentValid(env) && env.input == Some(file) && LastOfType(file.streams, Video).Some?
    requires env.output.Some? && DecoderOpened(decoder, file, env.decoders)
    requires VideoSideReady(encoder, params, env.output.value) && VideoEncoderTraced(encoder, params, env.encoders)
    requires encoder.format != decoder.format
    modifies encoder`audioStream, encoder`audioCodec, encoder`audioContext, encoder.format`streams
    ensures o == SidesResult(file, env, params)
    ensures o == Returned(0) ==>
      EncoderSides(encoder, params, env.output.value) && VideoEncoderTraced(encoder, params, env.encoders) &&
      (encoder.audioContext == null || fresh(encoder.audioContext))
  {
    o := PrepareAudioSide(decoder, encoder, params, env);
  }

  /** The output file and the header (transcoder.cpp 433-449), once both streams exist. */
  method OpenOutputSide(decoder: StreamContext<Packet, Frame>, encoder: StreamContext<Frame, Packet>,
                        params: StreamParams, env: Environment) returns (o: Outcome)
    requires env.input.Some? && InputValid(env.input.value) && env.output.Some?
    requires DecoderOpened(decoder, env.input.value, env.decoders)
    requires decoder.videoStream.Some? && decoder.audioStream.Some?
    requires EncoderSides(encoder, params, env.output.value) && VideoEncoderTraced(encoder, params, env.encoders)
    requires decoder.format != encoder.format
    modifies encoder.format`fileOpen, encoder.format`headerWritten, encoder.format`headerOptions, encoder.format`streams
    ensures o == Returned(0) || o == Returned(-1)
    ensures o == Returned(0) <==>
      (!env.output.value.needsFile || env.output.value.fileOpens) && env.output.value.headerResult == 0
    ensures o == Returned(0) ==> Prepared(decoder, encoder, params, env)
  {
    var status := OpenOutput(encoder.format, params);
    if status < 0 {
      return Returned(-1);
    }
    o := Returned(0);
  }

  /** Transcode's set-up (transcoder.cpp 396-449): it ends as SetUpResult says, and when it
      succeeds it leaves both sides prepared, every context and container newly allocated. */
  method SetUp(decoder: StreamContext<Packet, Frame>, encoder: StreamContext<Frame, Packet>,
               params: StreamParams, env: Environment) returns (o: Outcome)
    requires EnvironmentValid(env) && Blank(decoder) && Blank(encoder)
    modifies decoder, encoder
    ensures o == SetUpResult(env, params)
    ensures o == Returned(0) ==> Prepared(decoder, encoder, params, env)
    ensures o == Returned(0) ==>
      fresh(decoder.format) && fresh(encoder.format) && fresh(decoder.videoContext) && fresh(decoder.audioContext) &&
      (encoder.videoContext == null || fresh(encoder.videoContext)) &&
      (encoder.audioContext == null || fresh(encoder.audioContext))
  {
    var status := OpenInput(decoder, env);
    if status < 0 || env.output.None? {
      return Returned(-1);
    }
    o := PrepareVideoOutput(decoder, encoder, params, env.input.value, env);
    if o != Returned(0) {
      return;
    }
    o := PrepareAudioOutput(decoder, encoder, params, env.input.value, env);
    if o != Returned(0) {
      return;
    }
    assert InputValid(env.input.value);
    o := OpenOutputSide(decoder, encoder, params, env);
  }

  // ---------------------------------------------------------------------------------------
  // The read loop over the live contexts

  /** The engine state of a codec context that may be NULL. */
  function StateOf<I, O>(c: CodecContext?<I, O>): (r: Option<EngineState<I, O>>)
    reads c
    ensures r.Some? <==> c != null
    ensures c != null ==> r.value == c.Engine()
  {
    if c == null then None else Some(c.Engine())
  }

  function WorldOf(dv: CodecContext?<Packet, Frame>, da: CodecContext?<Packet, Frame>,
                   ev: CodecContext?<Frame, Packet>, ea: CodecContext?<Frame, Packet>, out: FormatContext): World
    reads dv, da, ev, ea, out
  {
    World(StateOf(dv), StateOf(da), StateOf(ev), StateOf(ea), out.Sink())
  }

  /** The media type of every input stream, in order. */
  function TypesOf(streams: seq<Stream>): (ts: seq<MediaType>)
    ensures |ts| == |streams|
    ensures forall i | 0 <= i < |streams| :: ts[i] == streams[i].codecpar.mediaType
  {
    seq(|streams|, i requires 0 <= i < |streams| => streams[i].codecpar.mediaType)
  }

  /** Two contexts of one side are distinct objects when both exist. */
  predicate Apart<I, O>(c1: CodecContext?<I, O>, c2: CodecContext?<I, O>) {
    c1 != null && c2 != null ==> c1 != c2
  }

  lemma PacketsOkDrop(types: seq<MediaType>, ps: seq<Packet>, k: nat)
    requires PacketsOk(types, ps) && k <= |ps|
    ensures PacketsOk(types, ps[k..])
  {
    assert forall i | 0 <= i < |ps| - k :: ps[k..][i] == ps[i + k];
  }

  /** The body of the read loop for packet p (transcoder.cpp 468-492): the stream type
      read from the input chooses transcodeVideo, transcodeAudio or remux, or nothing. */
  method Dispatch(input: FormatContext, dv: CodecContext?<Packet, Frame>, da: CodecContext?<Packet, Frame>,
                  ev: CodecContext?<Frame, Packet>, ea: CodecContext?<Frame, Packet>, out: FormatContext,
                  plan: Plan, ghost w: World, p: Packet) returns (o: Outcome)
    requires plan.types == TypesOf(input.AllStreams()) && w == WorldOf(dv, da, ev, ea, out)
    requires PlanValid(plan) && Fits(plan, w) && PacketOk(plan.types, p)
    requires Apart(dv, da) && Apart(ev, ea)
    modifies dv, da, ev, ea, out`writeResults, out`written
    ensures (o, WorldOf(dv, da, ev, ea, out)) == Step(plan, w, p)
  {
    var t := input.AllStreams()[p.streamIndex].codecpar.mediaType;
    if t == Video {
      if !plan.copyVideo {
        if ev == null {
          o := DecodeWithoutEncoder(dv, p);
          if o.Returned? && o.code < 0 {
            o := Returned(-1);
          }
        } else {
          o := DecodePacket(dv, ev, out, p, plan.videoFix, true);
          if o.Returned? && o.code < 0 {
            o := Returned(-1);
          }
        }
      } else {
        var status := Remux(p, out, plan.copySrc, plan.copyDst);
        o := Returned(status);
      }
    } else if t == Audio {
      if !plan.copyAudio {
        o := DecodePacket(da, ea, out, p, plan.audioFix.value, false);
        if o.Returned? && o.code < 0 {
          o := Returned(-1);
        }
      } else {
        var status := Remux(p, out, plan.copySrc, plan.copyDst);
        o := Returned(status);
      }
    } else {
      o := Returned(0);
    }
  }

  /** The routing of a packet read (transcoder.cpp 468-492), as a step of the resumed
      routing of the packets from it on. */
  method RouteNext(input: FormatContext, dv: CodecContext?<Packet, Frame>, da: CodecContext?<Packet, Frame>,
                   ev: CodecContext?<Frame, Packet>, ea: CodecContext?<Frame, Packet>, out: FormatContext,
                   plan: Plan, ghost w: World, ghost rest: seq<Packet>, ghost j: nat, p: Packet) returns (o: Outcome)
    requires plan.types == TypesOf(input.AllStreams()) && w == WorldOf(dv, da, ev, ea, out)
    requires Routable(plan, w, rest) && rest != [] && p == rest[0]
    requires Apart(dv, da) && Apart(ev, ea)
    modifies dv, da, ev, ea, out`writeResults, out`written
    ensures Advanced(plan, w, rest, j, rest[1..], WorldOf(dv, da, ev, ea, out), o != Returned(0), o)
  {
    PacketsOkTail(plan.types, rest);
    o := Dispatch(input, dv, da, ev, ea, out, plan, w, p);
    AdvancedByStep(plan, w, rest, j, o, WorldOf(dv, da, ev, ea, out));
  }

  /** One pass of the read loop (transcoder.cpp 465-492): read a packet and route it.
      done: the input was exhausted (o is Returned(0)) or the path failed (o says how);
      otherwise the packet was routed and the loop goes on. The routing that remains,
      resumed j packets into the input, moves on by exactly the packets consumed. */
  method ReadNext(input: FormatContext, dv: CodecContext?<Packet, Frame>, da: CodecContext?<Packet, Frame>,
                  ev: CodecContext?<Frame, Packet>, ea: CodecContext?<Frame, Packet>, out: FormatContext,
                  plan: Plan, ghost w: World, ghost j: nat) returns (done: bool, o: Outcome)
    requires input != out && input.readEnd < 0 && plan.types == TypesOf(input.AllStreams())
    requires w == WorldOf(dv, da, ev, ea, out) && Routable(plan, w, input.pending)
    requires Apart(dv, da) && Apart(ev, ea)
    modifies input`pending, dv, da, ev, ea, out`writeResults, out`written
    ensures Advanced(plan, w, old(input.pending), j, input.pending, WorldOf(dv, da, ev, ea, out), done, o)
  {
    ghost var rest := input.pending;
    var status, p := input.Read();
    if status < 0 {
      assert rest == [] && WorldOf(dv, da, ev, ea, out) == w;
      AdvancedAtEnd(plan, w, j);
      return true, Returned(0);
    }
    o := RouteNext(input, dv, da, ev, ea, out, plan, w, rest, j, p);
    done := o != Returned(0);
  }

  /** The read loop (transcoder.cpp 465-493): read packets until av_read_frame fails (the
      end of the input, or a read error, which ends the loop alike) and route each; the
      first path failure ends it. It does what RouteAll computes over the pending packets,
      and consumes exactly the packets that RouteAll reports read. */
  method ReadLoop(input: FormatContext, dv: CodecContext?<Packet, Frame>, da: CodecContext?<Packet, Frame>,
                  ev: CodecContext?<Frame, Packet>, ea: CodecContext?<Frame, Packet>, out: FormatContext,
                  plan: Plan) returns (o: Outcome)
    requires input != out && input.readEnd < 0 && plan.types == TypesOf(input.AllStreams())
    requires Routable(plan, WorldOf(dv, da, ev, ea, out), input.pending)
    requires Apart(dv, da) && Apart(ev, ea)
    modifies input`pending, dv, da, ev, ea, out`writeResults, out`written
    ensures o == RouteAll(plan, old(WorldOf(dv, da, ev, ea, out)), old(input.pending)).0
    ensures WorldOf(dv, da, ev, ea, out) == RouteAll(plan, old(WorldOf(dv, da, ev, ea, out)), old(input.pending)).1
    ensures input.pending == old(input.pending)[RouteAll(plan, old(WorldOf(dv, da, ev, ea, out)), old(input.pending)).2..]
  {
    ghost var ps := input.pending;
    ghost var goal := Resume(plan, WorldOf(dv, da, ev, ea, out), ps, 0);
    ghost var j := 0;  // the packets read so far
    var done := false;
    while true
      invariant j <= |ps| && input.pending == ps[j..]
      invariant Routable(plan, WorldOf(dv, da, ev, ea, out), input.pending)
      invariant goal == Resume(plan, WorldOf(dv, da, ev, ea, out), input.pending, j)
      decreases |input.pending|
    {
      done, o := ReadNext(input, dv, da, ev, ea, out, plan, WorldOf(dv, da, ev, ea, out), j);
      if done {
        assert ps[j..][|ps| - j - |input.pending|..] == ps[|ps| - |input.pending|..];
        return;
      }
      j := j + 1;
    }
  }

  // ---------------------------------------------------------------------------------------
  // The run: read loop, flush, trailer

  /** What the read loop and the flush use (transcoder.cpp 253-256, 351-352, 475, 486):
      encoded video packets get the decoder's video stream index, the duration encodeVideo
      computes in int from the output stream's time base and the input's average frame rate
      (which can divide by zero or overflow), and a rescale from
      the input video stream to the output video stream; encoded audio packets get the
      decoder's audioIndex and a rescale between the two audio codec contexts; remuxed
      packets of either type are rescaled between the two video streams. */
  function TranscodePlan(types: seq<MediaType>, params: StreamParams, videoIndex: int, audioIndex: int,
                         input: Stream, output: Stream, audioSrc: Rational, audioDst: Rational): (plan: Plan)
    ensures PlanValid(plan)
    ensures plan.types == types && plan.copyVideo == params.copyVideo && plan.copyAudio == params.copyAudio
    ensures plan.videoFix.streamIndex == videoIndex && !plan.videoFix.duration.KeepDuration?
    ensures plan.videoFix.duration == FrameDurationRule(output.timeBase, input.avgFrameRate)
    ensures plan.videoFix.src == input.timeBase && plan.videoFix.dst == output.timeBase
    ensures plan.audioFix.Some? <==> !params.copyAudio
    ensures plan.audioFix.Some? ==>
      plan.audioFix.value.streamIndex == audioIndex && DurationDefined(plan.audioFix.value) &&
      plan.audioFix.value.src == audioSrc && plan.audioFix.value.dst == audioDst
    ensures plan.copySrc == input.timeBase && plan.copyDst == output.timeBase
  {
    Plan(types, params.copyVideo, params.copyAudio,
         PacketFix(videoIndex, FrameDurationRule(output.timeBase, input.avgFrameRate), input.timeBase, output.timeBase),
         if params.copyAudio then None else Some(PacketFix(audioIndex, KeepDuration, audioSrc, audioDst)),
         input.timeBase, output.timeBase)
  }

  /** The plan of a prepared transcode. */
  function PlanOf(decoder: StreamContext<Packet, Frame>, encoder: StreamContext<Frame, Packet>, params: StreamParams, env: Environment): (plan: Plan)
    reads decoder, decoder.format, decoder.videoContext, decoder.audioContext
    reads encoder, encoder.format, encoder.videoContext, encoder.audioContext
    requires Prepared(decoder, encoder, params, env)
    ensures PlanValid(plan) && plan.types == TypesOf(decoder.format.AllStreams())
    ensures plan.copyVideo == params.copyVideo && plan.copyAudio == params.copyAudio
    ensures plan.copySrc == decoder.format.streams[decoder.videoStream.value].timeBase
    ensures plan.copyDst == encoder.format.streams[0].timeBase
    ensures plan.videoFix.duration ==
      FrameDurationRule(encoder.format.streams[0].timeBase, decoder.format.streams[decoder.videoStream.value].avgFrameRate)
  {
    TranscodePlan(TypesOf(decoder.format.AllStreams()), params, decoder.videoIndex, decoder.audioIndex,
                  decoder.format.streams[decoder.videoStream.value], encoder.format.streams[0],
                  decoder.audioContext.timeBase,
                  if encoder.audioContext == null then Rational(0, 1) else encoder.audioContext.timeBase)
  }

  /** The read loop from its start (transcoder.cpp 465-493): no path is undefined but that
      of a video packet with no encoder context and that of a video packet encoded with a
      duration that cannot be computed, which needs the encoder to produce a packet; when
      every packet is read, the decoders were handed the packets of their types and the
      encoders only frames; with both streams copied it only remuxes. */
  method ReadAll(input: FormatContext, dv: CodecContext?<Packet, Frame>, da: CodecContext?<Packet, Frame>,
                 ev: CodecContext?<Frame, Packet>, ea: CodecContext?<Frame, Packet>, out: FormatContext, plan: Plan)
    returns (o: Outcome)
    requires input != out && input.readEnd < 0 && plan.types == TypesOf(input.AllStreams())
    requires Routable(plan, WorldOf(dv, da, ev, ea, out), input.pending) && Unstarted(WorldOf(dv, da, ev, ea, out))
    requires Apart(dv, da) && Apart(ev, ea)
    modifies input`pending, dv, da, ev, ea, out`writeResults, out`written
    ensures o == Returned(0) || o == Returned(-1) || o.Undefined?
    ensures o.Undefined? ==> Hazardous(plan, old(WorldOf(dv, da, ev, ea, out)), o)
    ensures ev != null ==> PacketsInInt64(ev.pullResults)
    ensures ev != null && NoneProduced(old(ev.pullResults)) ==> NoneProduced(ev.pullResults)
    ensures o == Returned(0) ==> input.pending == [] && RoutedAll(plan, old(input.pending), WorldOf(dv, da, ev, ea, out))
    ensures plan.copyVideo && plan.copyAudio ==> o.Returned?
    ensures plan.copyVideo && plan.copyAudio && o == Returned(0) ==>
      out.written == old(out.written) + Remuxed(plan.types, old(input.pending), plan.copySrc, plan.copyDst)
  {
    ghost var w, ps := WorldOf(dv, da, ev, ea, out), input.pending;
    RouteAllFromStart(plan, w, ps);
    if plan.copyVideo && plan.copyAudio {
      RouteAllCopies(plan, w, ps);
    }
    o := ReadLoop(input, dv, da, ev, ea, out, plan);
  }

  /** Where a successful run leaves a prepared transcode: the input is used up; each decoder
      was handed exactly the packets of its type, in input order (none, for copied audio);
      the video encoder was handed decoded frames and then the NULL flush, the audio encoder
      decoded frames only. */
  predicate Finished(decoder: StreamContext<Packet, Frame>, encoder: StreamContext<Frame, Packet>,
                     params: StreamParams, file: InputFile)
    reads decoder, decoder.format, decoder.videoContext, decoder.audioContext
    reads encoder, encoder.videoContext, encoder.audioContext
  {
    decoder.format != null && decoder.videoContext != null && decoder.audioContext != null &&
    decoder.format.pending == [] &&
    decoder.videoContext.submitted == Submissions(TypesOf(file.AllStreams()), file.packets, Video) &&
    decoder.audioContext.submitted ==
      (if params.copyAudio then [] else Submissions(TypesOf(file.AllStreams()), file.packets, Audio)) &&
    encoder.videoContext != null && |encoder.videoContext.submitted| > 0 &&
    encoder.videoContext.submitted[|encoder.videoContext.submitted| - 1] == None &&
    OnlyFrames(encoder.videoContext.submitted[..|encoder.videoContext.submitted| - 1]) &&
    (encoder.audioContext != null ==> OnlyFrames(encoder.audioContext.submitted))
  }

  /** A prepared transcode meets what the read loop needs under its plan. */
  lemma PreparedCanRead(decoder: StreamContext<Packet, Frame>, encoder: StreamContext<Frame, Packet>,
                        params: StreamParams, env: Environment)
    requires Prepared(decoder, encoder, params, env)
    ensures decoder.format != encoder.format && decoder.format.readEnd < 0
    ensures PlanOf(decoder, encoder, params, env).types == TypesOf(decoder.format.AllStreams())
    ensures Routable(PlanOf(decoder, encoder, params, env),
                     WorldOf(decoder.videoContext, decoder.audioContext, encoder.videoContext, encoder.audioContext, encoder.format),
                     decoder.format.pending)
    ensures Unstarted(WorldOf(decoder.videoContext, decoder.audioContext, encoder.videoContext, encoder.audioContext, encoder.format))
    ensures Apart(decoder.videoContext, decoder.audioContext) && Apart(encoder.videoContext, encoder.audioContext)
  {
    assert InputValid(env.input.value);
  }

  /** The flush of the video encoder and the trailer (transcoder.cpp 495-500): a NULL frame
      through encodeVideo, whose failure returns -1, then av_write_trailer. encodeVideo on a
      NULL context, or producing a packet whose duration it cannot compute, is undefined. */
  method Flush(ev: CodecContext?<Frame, Packet>, out: FormatContext, fix: PacketFix) returns (o: Outcome)
    requires ev != null ==> PacketsInInt64(ev.pullResults) && OnlyFrames(ev.submitted)
    requires FixValid(fix) && !out.trailerWritten
    modifies ev, out`writeResults, out`written, out`trailerWritten
    ensures o == Returned(0) || o == Returned(-1) || o.Undefined?
    ensures ev == null ==> o == Undefined(NullEncoderContext) && out.written == old(out.written)
    ensures ev != null && o.Undefined? ==>
      !DurationDefined(fix) && o == Undefined(fix.duration.hazard) && !NoneProduced(old(ev.pullResults))
    ensures out.trailerWritten <==> o == Returned(0)
    ensures ev != null ==>
      |ev.submitted| > 0 && ev.submitted[|ev.submitted| - 1] == None &&
      OnlyFrames(ev.submitted[..|ev.submitted| - 1])
  {
    ghost var frames := if ev == null then [] else ev.submitted;
    o := EncodeVideo(ev, out, None, fix);
    if o.Undefined? {
      return;
    }
    assert ev.submitted[..|ev.submitted| - 1] == frames;
    if o.code < 0 {
      return Returned(-1);
    }
    out.WriteTrailer();
    o := Returned(0);
  }

  /** The output holds every audio and video packet of the input, in order, rescaled from
      the input video stream's time base to the output video stream's. */
  predicate RemuxedAll(decoder: StreamContext<Packet, Frame>, encoder: StreamContext<Frame, Packet>, file: InputFile)
    reads decoder, decoder.format, encoder, encoder.format
  {
    decoder.format != null && encoder.format != null && decoder.videoStream.Some? &&
    decoder.videoStream.value < |decoder.format.streams| && |encoder.format.streams| > 0 &&
    encoder.format.written == Remuxed(TypesOf(file.AllStreams()), file.packets,
                                      decoder.format.streams[decoder.videoStream.value].timeBase,
                                      encoder.format.streams[0].timeBase)
  }

  /** The read loop, the flush of the video encoder and the trailer (transcoder.cpp 465-500)
      on the live contexts. */
  method Proceed(input: FormatContext, dv: CodecContext?<Packet, Frame>, da: CodecContext?<Packet, Frame>,
                 ev: CodecContext?<Frame, Packet>, ea: CodecContext?<Frame, Packet>, out: FormatContext, plan: Plan)
    returns (o: Outcome)
    requires input != out && input.readEnd < 0 && plan.types == TypesOf(input.AllStreams())
    requires Routable(plan, WorldOf(dv, da, ev, ea, out), input.pending) && Unstarted(WorldOf(dv, da, ev, ea, out))
    requires Apart(dv, da) && Apart(ev, ea) && !out.trailerWritten && (plan.copyVideo ==> ev == null)
    modifies input`pending, dv, da, ev, ea, out`writeResults, out`written, out`trailerWritten
    ensures o == Returned(0) || o == Returned(-1) || o.Undefined?
    ensures o.Undefined? ==> Hazardous(plan, old(WorldOf(dv, da, ev, ea, out)), o)
    ensures out.trailerWritten <==> o == Returned(0)
    ensures ev == null ==> o != Returned(0)
    ensures o == Returned(0) ==>
      input.pending == [] &&
      SubmittedOf(StateOf(dv)) == Submissions(plan.types, old(input.pending), Video) &&
      SubmittedOf(StateOf(da)) == (if plan.copyAudio then [] else Submissions(plan.types, old(input.pending), Audio)) &&
      ev != null && |ev.submitted| > 0 && ev.submitted[|ev.submitted| - 1] == None &&
      OnlyFrames(ev.submitted[..|ev.submitted| - 1]) && OnlyFrames(SubmittedOf(StateOf(ea)))
    ensures plan.copyVideo && plan.copyAudio ==>
      o == Returned(-1) ||
      (o == Undefined(NullEncoderContext) &&
       out.written == old(out.written) + Remuxed(plan.types, old(input.pending), plan.copySrc, plan.copyDst))
  {
    o := ReadAll(input, dv, da, ev, ea, out, plan);
    if o != Returned(0) {
      return;
    }
    o := Flush(ev, out, plan.videoFix);
  }

  /** The run of a prepared transcode. The trailer is written exactly when the run
      succeeds, which it cannot without a video encoder context: the flush dereferences a
      NULL one, as after copying video. The other undefined outcome is encodeVideo's
      duration failing, which needs the video encoder to produce a packet; with an encoder
      that produces none the run returns. With both streams copied the output gets every
      audio and video packet, rescaled between the video streams' time bases, before that. */
  method Run(decoder: StreamContext<Packet, Frame>, encoder: StreamContext<Frame, Packet>,
             params: StreamParams, env: Environment) returns (o: Outcome)
    requires Prepared(decoder, encoder, params, env)
    modifies decoder.format`pending, decoder.videoContext, decoder.audioContext, encoder.videoContext, encoder.audioContext
    modifies encoder.format`writeResults, encoder.format`written, encoder.format`trailerWritten
    ensures o == Returned(0) || o == Returned(-1) || o.Undefined?
    ensures encoder.format.trailerWritten <==> o == Returned(0)
    ensures encoder.videoContext == null ==> o != Returned(0)
    ensures o.Undefined? ==>
      (encoder.videoContext == null && o == Undefined(NullEncoderContext)) ||
      (encoder.videoContext != null && !NoneProduced(old(encoder.videoContext.pullResults)) &&
       FrameDurationRule(encoder.format.streams[0].timeBase,
                         decoder.format.streams[decoder.videoStream.value].avgFrameRate) == DurationFails(o.hazard))
    ensures encoder.videoContext != null && NoneProduced(old(encoder.videoContext.pullResults)) ==> o.Returned?
    ensures o == Returned(0) ==> Finished(decoder, encoder, params, env.input.value)
    ensures params.copyVideo && params.copyAudio ==>
      o == Returned(-1) || (o == Undefined(NullEncoderContext) && RemuxedAll(decoder, encoder, env.input.value))
  {
    var plan := PlanOf(decoder, encoder, params, env);
    PreparedCanRead(decoder, encoder, params, env);
    o := Proceed(decoder.format, decoder.videoContext, decoder.audioContext, encoder.videoContext, encoder.audioContext,
                 encoder.format, plan);
  }

  // ---------------------------------------------------------------------------------------
  // Transcode

  /** The stream parameters Transcode fills in (transcoder.cpp 382-387); the rest keep the
      empty strings of value-initialisation, so the audio encoder is looked up under "" and
      the muxer gets the option "" = "". */
  function TranscodeParams(copyAudio: bool, copyVideo: bool, codec: string, codecPrivKey: string,
                           codecPrivValue: string): (p: StreamParams)
    ensures p.copyAudio == copyAudio && p.copyVideo == copyVideo && p.videoCodec == codec
    ensures p.codecPrivKey == codecPrivKey && p.codecPrivValue == codecPrivValue
    ensures p.audioCodec == "" && p.outputExtension == "" && p.muxerOptKey == "" && p.muxerOptValue == ""
  {
    StreamParams(copyVideo, copyAudio, "", "", "", codec, "", codecPrivKey, codecPrivValue)
  }

  /** encodeVideo's duration, from the output video stream's time base and the input video
      stream's average frame rate, fails with hazard h. */
  ghost predicate DurationHazard(decoder: StreamContext<Packet, Frame>, encoder: StreamContext<Frame, Packet>, h: Hazard)
    reads decoder, decoder.format, encoder, encoder.format
  {
    decoder.format != null && encoder.format != null && decoder.videoStream.Some? &&
    decoder.videoStream.value < |decoder.format.streams| && |encoder.format.streams| > 0 &&
    FrameDurationRule(encoder.format.streams[0].timeBase,
                      decoder.format.streams[decoder.videoStream.value].avgFrameRate) == DurationFails(h)
  }

  /** Transcode's body for given parameters (transcoder.cpp 396-528): set up, then run. */
  method SetUpAndRun(decoder: StreamContext<Packet, Frame>, encoder: StreamContext<Frame, Packet>,
                     params: StreamParams, env: Environment) returns (o: Outcome)
    requires EnvironmentValid(env) && Blank(decoder) && Blank(encoder)
    modifies decoder, encoder
    ensures SetUpResult(env, params) != Returned(0) ==> o == SetUpResult(env, params)
    ensures o == Returned(0) || o == Returned(-1) || o.Undefined?
    ensures SetUpResult(env, params) == Returned(0) ==>
      encoder.format != null && (encoder.format.trailerWritten <==> o == Returned(0))
    ensures SetUpResult(env, params) == Returned(0) && o.Undefined? ==>
      o == Undefined(NullEncoderContext) || DurationHazard(decoder, encoder, o.hazard)
    ensures SetUpResult(env, params) == Returned(0) && !params.copyVideo && params.videoCodec in env.encoders &&
            NoneProduced(env.encoders[params.videoCodec].script.pullResults) ==>
      o.Returned?
    ensures params.copyVideo ==> o != Returned(0)
    ensures o == Returned(0) ==>
      Finished(decoder, encoder, params, env.input.value) &&
      encoder.format != null && encoder.format.headerOptions == MuxerOptions(params)
    ensures SetUpResult(env, params) == Returned(0) && params.copyVideo && params.copyAudio ==>
      o == Returned(-1) || (o == Undefined(NullEncoderContext) && RemuxedAll(decoder, encoder, env.input.value))
  {
    o := SetUp(decoder, encoder, params, env);
    if o != Returned(0) {
      return;
    }
    o := Run(decoder, encoder, params, env);
  }

  /** Transcoder::Transcode (transcoder.cpp 368-528). The set-up decides the outcome unless
      it succeeds; then the run does: -1 on a failing path, the trailer and 0 on success,
      which copying video rules out (the flush dereferences the NULL encoder context). A
      successful transcode has read the whole input, handed each decoder the packets of its
      type in order and the encoders decoded frames (and the video encoder the NULL flush
      last), and passed the muxer the option "" = "". Past the set-up it is undefined only
      on a NULL video encoder context or on a frame duration that divides by zero or
      overflows, and the latter never with a video encoder that produces no packet. With
      both streams copied it remuxes every audio and video packet and then fails undefined. */
  method Transcode(inputFile: string, outputFile: string, codec: string, codecPrivKey: string, codecPrivValue: string,
                   copyAudio: bool, copyVideo: bool, env: Environment)
    returns (o: Outcome, decoder: StreamContext<Packet, Frame>, encoder: StreamContext<Frame, Packet>)
    requires EnvironmentValid(env)
    ensures decoder.fileName == inputFile && encoder.fileName == outputFile
    ensures o == Returned(0) || o == Returned(-1) || o.Undefined?
    ensures SetUpResult(env, TranscodeParams(copyAudio, copyVideo, codec, codecPrivKey, codecPrivValue)) != Returned(0) ==>
      o == SetUpResult(env, TranscodeParams(copyAudio, copyVideo, codec, codecPrivKey, codecPrivValue))
    ensures SetUpResult(env, TranscodeParams(copyAudio, copyVideo, codec, codecPrivKey, codecPrivValue)) == Returned(0) ==>
      encoder.format != null && (encoder.format.trailerWritten <==> o == Returned(0))
    ensures SetUpResult(env, TranscodeParams(copyAudio, copyVideo, codec, codecPrivKey, codecPrivValue)) == Returned(0) &&
            o.Undefined? ==>
      o == Undefined(NullEncoderContext) ||
      ((o.hazard == DivisionByZero || o.hazard == IntOverflow) && DurationHazard(decoder, encoder, o.hazard))
    ensures SetUpResult(env, TranscodeParams(copyAudio, copyVideo, codec, codecPrivKey, codecPrivValue)) == Returned(0) &&
            !copyVideo && codec in env.encoders && NoneProduced(env.encoders[codec].script.pullResults) ==>
      o.Returned?
    ensures copyVideo ==> o != Returned(0)
    ensures o == Returned(0) ==>
      Finished(decoder, encoder, TranscodeParams(copyAudio, copyVideo, codec, codecPrivKey, codecPrivValue), env.input.value) &&
      encoder.format != null && encoder.format.headerOptions == map["" := ""]
    ensures SetUpResult(env, TranscodeParams(copyAudio, copyVideo, codec, codecPrivKey, codecPrivValue)) == Returned(0) &&
            copyVideo && copyAudio ==>
      o == Returned(-1) || (o == Undefined(NullEncoderContext) && RemuxedAll(decoder, encoder, env.input.value))
  {
    var params := TranscodeParams(copyAudio, copyVideo, codec, codecPrivKey, codecPrivValue);
    decoder := new StreamContext(inputFile);
    encoder := new StreamContext(outputFile);
    o := SetUpAndRun(decoder, encoder, params, env);
  }
}
