/** The codec/container engine as the core sees it. Its behaviour is not part of the core,
    so each handle carries the answers the engine will give (an oracle, consumed in order)
    and a log of what the core handed to it.
    - CodecContext is AVCodecContext: the configuration fields the core reads or assigns,
      plus the results its send and receive calls will return.
    - FormatContext is AVFormatContext: the streams, the packets a demuxer will still read,
      and for a muxer the outcome of each write and the append-only log of written packets. */
module Engine {
  import opened Timestamps
  import opened AVError
  import opened Media

  /** How the engine will answer for one codec: whether avcodec_open2 succeeds, the time base
      it negotiates (None: it keeps the one the caller set), and what the send and receive
      calls will return once it is open. */
  datatype Script<O> = Script(
    opens: bool, timeBase: Option<Rational>,
    sendResults: seq<Status>, pullResults: seq<Pull<O>>)

  /** AVCodec: a decoder or encoder the engine offers, with the media type it handles. An
      empty pixFmts or sampleFmts stands for a NULL list. */
  datatype Codec<O> = Codec(id: int, name: string, mediaType: MediaType, pixFmts: seq<int>, sampleFmts: seq<int>,
                            script: Script<O>)

  /** The next status in a queue of engine answers; an exhausted queue answers 0 (success). */
  function Head(s: seq<Status>): (r: Status)
    ensures s != [] ==> r == s[0]
  {
    if s == [] then 0 else s[0]
  }

  function Tail(s: seq<Status>): (r: seq<Status>)
    ensures s != [] ==> r == s[1..]
    ensures |r| <= |s|
  {
    if s == [] then [] else s[1..]
  }

  /** The part of a codec context that the send/receive protocol reads and changes. */
  datatype EngineState<I, O> = EngineState(
    isOpen: bool, sendResults: seq<Status>, pullResults: seq<Pull<O>>, submitted: seq<Option<I>>)

  /** avcodec_send_packet / avcodec_send_frame (None is the NULL flush input): every call is
      logged; a context that was never isOpen answers AVERROR(EINVAL). */
  function SendOn<I, O>(e: EngineState<I, O>, x: Option<I>): (r: (int, EngineState<I, O>))
    ensures r.1.submitted == e.submitted + [x]
    ensures r.1.isOpen == e.isOpen && r.1.pullResults == e.pullResults
    ensures r.0 <= 0
    ensures !e.isOpen ==> r.0 == ErrInvalid
  {
    if !e.isOpen then (ErrInvalid, e.(submitted := e.submitted + [x]))
    else (Head(e.sendResults), e.(sendResults := Tail(e.sendResults), submitted := e.submitted + [x]))
  }

  /** avcodec_receive_frame / avcodec_receive_packet: the next scripted result; nothing left
      means "needs more input"; a context that was never isOpen fails with AVERROR(EINVAL). */
  function PullOn<I, O>(e: EngineState<I, O>): (r: (Pull<O>, EngineState<I, O>))
    ensures r.1.isOpen == e.isOpen && r.1.sendResults == e.sendResults && r.1.submitted == e.submitted
    ensures |r.1.pullResults| <= |e.pullResults|
    ensures r.0.Produced? ==> |r.1.pullResults| < |e.pullResults|
    ensures e.isOpen && e.pullResults != [] ==> r.0 == e.pullResults[0] && r.1.pullResults == e.pullResults[1..]
    ensures e.isOpen && e.pullResults == [] ==> r.0 == NeedsMoreInput && r.1 == e
    ensures !e.isOpen ==> r.0 == Fatal(ErrInvalid) && r.1 == e
  {
    if !e.isOpen then (Fatal(ErrInvalid), e)
    else if e.pullResults == [] then (NeedsMoreInput, e)
    else (e.pullResults[0], e.(pullResults := e.pullResults[1..]))
  }

  /** The part of a muxer that av_interleaved_write_frame reads and changes. */
  datatype SinkState = SinkState(writeResults: seq<Status>, written: seq<Packet>)

  /** av_interleaved_write_frame: a packet is appended to the log exactly when the write
      succeeds. */
  function WriteOn(s: SinkState, p: Packet): (r: (int, SinkState))
    ensures r.0 <= 0
    ensures r.1.written == if r.0 == 0 then s.written + [p] else s.written
    ensures r.1.writeResults == Tail(s.writeResults)
  {
    var status := Head(s.writeResults);
    (status, SinkState(Tail(s.writeResults), if status == 0 then s.written + [p] else s.written))
  }

  /** The time base a context has after avcodec_open2 succeeds: the codec's own choice if
      it makes one (a video decoder derives it from the frame rate), else the caller's. */
  function OpenedTimeBase<O>(s: Script<O>, before: Rational): Rational {
    match s.timeBase
    case Some(tb) => tb
    case None => before
  }

  /** AVCodecContext. */
  class CodecContext<I, O> {
    /** The codec this context was allocated for (avcodec_alloc_context3). */
    const codec: Option<Codec<O>>

    var mediaType: MediaType
    var width: int
    var height: int
    var sampleAspectRatio: Rational
    var pixFmt: int
    var sampleFmt: int
    var sampleRate: int
    var channels: int
    var channelLayout: int
    var bitRate: int
    var rcBufferSize: int
    var rcMaxRate: int
    var rcMinRate: int
    var timeBase: Rational
    var strictStdCompliance: int
    /** Options set on priv_data with av_opt_set. */
    var privOptions: map<string, string>

    var isOpen: bool
    var sendResults: seq<Status>
    var pullResults: seq<Pull<O>>
    var submitted: seq<Option<I>>

    function Engine(): EngineState<I, O>
      reads this
    {
      EngineState(isOpen, sendResults, pullResults, submitted)
    }

    /** avcodec_alloc_context3: a closed context of the codec's media type (unknown without
      a codec) whose other fields the caller fills. */
    constructor (codec: Option<Codec<O>>)
      ensures this.codec == codec && !isOpen && submitted == [] && privOptions == map[]
      ensures mediaType == if codec.Some? then codec.value.mediaType else Unknown
      ensures sendResults == [] && pullResults == [] && timeBase == Rational(0, 1)
    {
      this.codec := codec;
      mediaType := if codec.Some? then codec.value.mediaType else Unknown;
      width, height, sampleAspectRatio := 0, 0, Rational(0, 1);
      pixFmt, sampleFmt, sampleRate, channels, channelLayout := -1, -1, 0, 0, 0;
      bitRate, rcBufferSize, rcMaxRate, rcMinRate := 0, 0, 0, 0;
      timeBase, strictStdCompliance := Rational(0, 1), 0;
      privOptions := map[];
      isOpen, sendResults, pullResults, submitted := false, [], [], [];
    }

    /** avcodec_parameters_to_context. */
    method CopyParameters(par: CodecParameters)
      modifies this`mediaType, this`width, this`height, this`sampleAspectRatio
      modifies this`sampleRate, this`channels, this`bitRate, this`sampleFmt, this`pixFmt
      ensures Parameters() == par.(codecId := Parameters().codecId)
    {
      mediaType := par.mediaType;
      width, height, sampleAspectRatio := par.width, par.height, par.sampleAspectRatio;
      sampleRate, channels, bitRate := par.sampleRate, par.channels, par.bitRate;
      if par.mediaType == Audio { sampleFmt := par.format; } else { pixFmt := par.format; }
    }

    /** avcodec_parameters_from_context: the media type, the codec's id, the pixel or (for
      audio) sample format, and the picture and audio fields of the context. */
    function Parameters(): (par: CodecParameters)
      reads this
      ensures par.mediaType == mediaType && par.codecId == (if codec.Some? then codec.value.id else 0)
      ensures par.format == (if mediaType == Audio then sampleFmt else pixFmt)
      ensures par.sampleRate == sampleRate && par.channels == channels && par.bitRate == bitRate
      ensures par.width == width && par.height == height && par.sampleAspectRatio == sampleAspectRatio
    {
      CodecParameters(mediaType, if codec.Some? then codec.value.id else 0,
        if mediaType == Audio then sampleFmt else pixFmt,
        width, height, sampleAspectRatio, sampleRate, channels, bitRate)
    }

    /** avcodec_open2: opens as scripted; a context without a codec fails. */
    method Open() returns (status: int)
      modifies this`isOpen, this`sendResults, this`pullResults, this`timeBase
      ensures status <= 0
      ensures status == 0 <==> codec.Some? && codec.value.script.opens
      ensures status == 0 ==>
        isOpen && sendResults == codec.value.script.sendResults &&
        pullResults == codec.value.script.pullResults && submitted == old(submitted)
      ensures status == 0 ==> timeBase == OpenedTimeBase(codec.value.script, old(timeBase))
      ensures status != 0 ==> Engine() == old(Engine()) && timeBase == old(timeBase)
    {
      if codec.None? || !codec.value.script.opens {
        return ErrInvalid;
      }
      var script := codec.value.script;
      isOpen, sendResults, pullResults := true, script.sendResults, script.pullResults;
      match script.timeBase {
        case Some(tb) => timeBase := tb;
        case None =>
      }
      status := 0;
    }

    /** avcodec_send_packet / avcodec_send_frame. */
    method Send(x: Option<I>) returns (status: int)
      modifies this`sendResults, this`submitted
      ensures (status, Engine()) == SendOn(old(Engine()), x)
    {
      submitted := submitted + [x];
      if !isOpen {
        status := ErrInvalid;
      } else {
        status := Head(sendResults);
        sendResults := Tail(sendResults);
      }
    }

    /** avcodec_receive_frame / avcodec_receive_packet. */
    method Receive() returns (r: Pull<O>)
      modifies this`pullResults
      ensures (r, Engine()) == PullOn(old(Engine()))
    {
      if !isOpen {
        r := Fatal(ErrInvalid);
      } else if pullResults == [] {
        r := NeedsMoreInput;
      } else {
        r := pullResults[0];
        pullResults := pullResults[1..];
      }
    }
  }

  /** What an open input container yields: the streams avformat_find_stream_info reports,
      the streams the demuxer adds while reading (formats without a header, such as MPEG-TS
      or FLV, discover streams as their packets arrive), the packets av_read_frame returns in
      order, and the negative code it returns after the last one (AVERROR_EOF, or an error). */
  datatype InputFile = InputFile(streams: seq<Stream>, late: seq<Stream>, packets: seq<Packet>, readEnd: int) {
    /** The demuxer's stream array once reading is done. */
    function AllStreams(): seq<Stream> {
      streams + late
    }
  }

  /** How the engine will answer for an output container: whether its format needs a file
      (no AVFMT_NOFILE), whether avio_open succeeds, what avformat_write_header returns and
      what each av_interleaved_write_frame returns; and retime, how the muxer settles every
      stream's time base when the header is written, from the stream's index and what the
      stream holds (its parameters, and the time base the caller asked for, if any). */
  datatype OutputTarget = OutputTarget(
    needsFile: bool, fileOpens: bool, headerResult: Status, writeResults: seq<Status>,
    retime: (nat, Stream) -> Rational)

  /** The stream time bases after a successful avformat_write_header. */
  function Retimed(streams: seq<Stream>, retime: (nat, Stream) -> Rational): (r: seq<Stream>)
    ensures |r| == |streams|
    ensures forall i | 0 <= i < |r| :: r[i] == streams[i].(timeBase := retime(i, streams[i]))
  {
    RetimedFrom(streams, retime, 0)
  }

  function RetimedFrom(streams: seq<Stream>, retime: (nat, Stream) -> Rational, from: nat): (r: seq<Stream>)
    ensures |r| == |streams|
    ensures forall i | 0 <= i < |r| :: r[i] == streams[i].(timeBase := retime(from + i, streams[i]))
  {
    if streams == [] then []
    else [streams[0].(timeBase := retime(from, streams[0]))] + RetimedFrom(streams[1..], retime, from + 1)
  }

  /** AVFormatContext, for a demuxer or for a muxer. */
  class FormatContext {
    /** The streams known before reading (nb_streams after avformat_find_stream_info). */
    var streams: seq<Stream>
    /** The streams a demuxer adds while reading. */
    const late: seq<Stream>
    var pending: seq<Packet>
    const readEnd: int

    const needsFile: bool
    const fileOpens: bool
    const headerResult: Status
    const retime: (nat, Stream) -> Rational
    var fileOpen: bool
    var headerWritten: bool
    var headerOptions: map<string, string>
    var writeResults: seq<Status>
    var written: seq<Packet>
    var trailerWritten: bool
    /** The context was freed (or, for an input, closed). */
    var released: bool

    function Sink(): SinkState
      reads this
    {
      SinkState(writeResults, written)
    }

    /** The stream array a packet read by av_read_frame indexes. */
    function AllStreams(): seq<Stream>
      reads this
    {
      streams + late
    }

    /** avformat_open_input + avformat_find_stream_info, when both succeed. */
    constructor OpenInput(file: InputFile)
      requires file.readEnd < 0
      ensures streams == file.streams && late == file.late && pending == file.packets && readEnd == file.readEnd
      ensures written == [] && !released
    {
      streams, late, pending, readEnd := file.streams, file.late, file.packets, file.readEnd;
      needsFile, fileOpens, headerResult, retime := false, false, 0, (i, s: Stream) => s.timeBase;
      fileOpen, headerWritten, headerOptions := false, false, map[];
      writeResults, written, trailerWritten, released := [], [], false, false;
    }

    /** avformat_alloc_output_context2, when it finds a muxer for the output path. */
    constructor AllocOutput(target: OutputTarget)
      ensures streams == [] && late == [] && pending == [] && readEnd < 0
      ensures needsFile == target.needsFile && fileOpens == target.fileOpens
      ensures headerResult == target.headerResult && writeResults == target.writeResults
      ensures retime == target.retime
      ensures !fileOpen && !headerWritten && written == [] && !trailerWritten && !released
    {
      streams, late, pending, readEnd := [], [], [], ErrEof;
      needsFile, fileOpens, headerResult := target.needsFile, target.fileOpens, target.headerResult;
      retime := target.retime;
      fileOpen, headerWritten, headerOptions := false, false, map[];
      writeResults, written, trailerWritten, released := target.writeResults, [], false, false;
    }

    /** avformat_new_stream: appends a blank stream and returns its index. */
    method NewStream() returns (index: nat)
      modifies this`streams
      ensures index == |old(streams)|
      ensures streams == old(streams) + [NewStreamOf(BlankParameters)]
    {
      index := |streams|;
      streams := streams + [NewStreamOf(BlankParameters)];
    }

    /** Assigns the time base of stream i. */
    method SetTimeBase(i: nat, tb: Rational)
      requires i < |streams|
      modifies this`streams
      ensures streams == old(streams)[i := old(streams)[i].(timeBase := tb)]
    {
      streams := streams[i := streams[i].(timeBase := tb)];
    }

    /** avcodec_parameters_copy / avcodec_parameters_from_context into stream i. */
    method SetParameters(i: nat, par: CodecParameters)
      requires i < |streams|
      modifies this`streams
      ensures streams == old(streams)[i := old(streams)[i].(codecpar := par)]
    {
      streams := streams[i := streams[i].(codecpar := par)];
    }

    /** av_read_frame: 0 and the next packet, or the end code once none is left. */
    method Read() returns (status: int, p: Packet)
      requires readEnd < 0
      modifies this`pending
      ensures old(pending) != [] ==> status == 0 && p == old(pending)[0] && pending == old(pending)[1..]
      ensures old(pending) == [] ==> status == readEnd && pending == []
    {
      if pending == [] {
        status, p := readEnd, Packet(0, NoPts, NoPts, 0, -1);
      } else {
        status, p := 0, pending[0];
        pending := pending[1..];
      }
    }

    /** avio_open. */
    method OpenFile() returns (status: int)
      modifies this`fileOpen
      ensures status <= 0 && (status == 0 <==> fileOpens)
      ensures fileOpen == (old(fileOpen) || fileOpens)
    {
      if fileOpens {
        fileOpen := true;
        status := 0;
      } else {
        status := ErrInvalid;
      }
    }

    /** avformat_write_header. */
    method WriteHeader(options: map<string, string>) returns (status: int)
      modifies this`headerWritten, this`headerOptions, this`streams
      ensures status == headerResult && headerOptions == options
      ensures headerWritten == (old(headerWritten) || status == 0)
      ensures streams == if status == 0 then Retimed(old(streams), retime) else old(streams)
    {
      status := headerResult;
      headerOptions := options;
      if status == 0 {
        headerWritten := true;
        streams := Retimed(streams, retime);
      }
    }

    /** av_interleaved_write_frame. */
    method WriteInterleaved(p: Packet) returns (status: int)
      modifies this`writeResults, this`written
      ensures (status, Sink()) == WriteOn(old(Sink()), p)
    {
      status := Head(writeResults);
      writeResults := Tail(writeResults);
      if status == 0 {
        written := written + [p];
      }
    }

    /** av_write_trailer. */
    method WriteTrailer()
      modifies this`trailerWritten
      ensures trailerWritten
    {
      trailerWritten := true;
    }
  }
}
