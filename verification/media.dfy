/** The values that flow through the pipeline: packets, frames, streams and the
    four-way result of pulling output from a codec. */
module Media {
  import opened Timestamps
  import opened AVError

  datatype Option<T> = None | Some(value: T)

  /** AVMediaType. */
  datatype MediaType = Unknown | Video | Audio | Data | Subtitle | Attachment

  /** AVPacket, reduced to the fields the core reads or writes. */
  datatype Packet = Packet(streamIndex: int, pts: int, dts: int, duration: int, pos: int)

  /** The timestamp fields hold int64 values. */
  predicate TimesInInt64(p: Packet) {
    InInt64(p.pts) && InInt64(p.dts) && InInt64(p.duration)
  }

  /** AV_PICTURE_TYPE_NONE: no picture-type hint. */
  const PictureTypeNone: int := 0

  /** AVFrame: an opaque decoded payload and its picture-type hint. */
  datatype Frame = Frame(payload: int, pictType: int)

  /** The outcome of avcodec_receive_frame / avcodec_receive_packet, with the two
      sentinels AVERROR(EAGAIN) and AVERROR_EOF as their own cases. */
  datatype Pull<T> = Produced(item: T) | NeedsMoreInput | EndOfStream | Fatal(code: FatalCode)

  /** The status code the engine returns for a pull. */
  function PullCode<T>(r: Pull<T>): (code: int)
    ensures code == 0 <==> r.Produced?
    ensures IsSentinel(code) <==> r.NeedsMoreInput? || r.EndOfStream?
    ensures code < 0 <==> !r.Produced?
  {
    match r
    case Produced(_) => 0
    case NeedsMoreInput => ErrAgain
    case EndOfStream => ErrEof
    case Fatal(c) => c
  }

  /** AVCodecParameters, reduced to the fields the core reads or copies. */
  datatype CodecParameters = CodecParameters(
    mediaType: MediaType, codecId: int, format: int,
    width: int, height: int, sampleAspectRatio: Rational,
    sampleRate: int, channels: int, bitRate: int)

  /** The parameters of a stream that avformat_new_stream creates. */
  const BlankParameters: CodecParameters :=
    CodecParameters(Unknown, 0, -1, 0, 0, Rational(0, 1), 0, 0, 0)

  /** AVStream: codec parameters, time base and average frame rate. */
  datatype Stream = Stream(codecpar: CodecParameters, timeBase: Rational, avgFrameRate: Rational)

  /** The stream avformat_new_stream creates from given parameters: the default 33-bit,
      1/90000 timestamp settings, and no average frame rate. */
  function NewStreamOf(par: CodecParameters): Stream {
    Stream(par, Rational(1, 90000), Rational(0, 1))
  }

  /** av_packet_rescale_ts: pts and dts are rescaled with av_rescale_q unless they are
      AV_NOPTS_VALUE; the duration is rescaled only when it is positive. */
  function RescaleTs(p: Packet, src: Rational, dst: Rational): (q: Packet)
    requires TimesInInt64(p)
    ensures q.streamIndex == p.streamIndex && q.pos == p.pos
    ensures p.pts == NoPts ==> q.pts == NoPts
    ensures p.dts == NoPts ==> q.dts == NoPts
    ensures p.duration <= 0 ==> q.duration == p.duration
  {
    p.(pts := if p.pts == NoPts then NoPts else RescaleQ(p.pts, src, dst),
       dts := if p.dts == NoPts then NoPts else RescaleQ(p.dts, src, dst),
       duration := if p.duration > 0 then RescaleQ(p.duration, src, dst) else p.duration)
  }

  /** Rescaling a packet between equal time bases leaves it as it was. */
  lemma RescaleTsSameBase(p: Packet, q: Rational)
    requires TimesInInt64(p) && Positive(q)
    ensures RescaleTs(p, q, q) == p
  {
    if p.pts != NoPts { RescaleSameBaseIsIdentity(p.pts, q, false); }
    if p.dts != NoPts { RescaleSameBaseIsIdentity(p.dts, q, false); }
    if p.duration > 0 { RescaleSameBaseIsIdentity(p.duration, q, false); }
  }

  /** Rescaling keeps the decode order of two packets that both carry a dts. */
  lemma RescaleTsKeepsDtsOrder(p1: Packet, p2: Packet, src: Rational, dst: Rational)
    requires TimesInInt64(p1) && TimesInInt64(p2) && Source(src) && Positive(dst)
    requires p1.dts != NoPts && p2.dts != NoPts && p1.dts <= p2.dts
    ensures RescaleTs(p1, src, dst).dts <= RescaleTs(p2, src, dst).dts
  {
    RescaleIsMonotone(p1.dts, p2.dts, src, dst, false);
  }
}
