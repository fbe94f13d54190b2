/** The per-unit routines of transcoder.cpp over codec contexts: encodeVideo / encodeAudio
    (submit a frame, drain packets into the muxer), transcodeVideo / transcodeAudio (submit a
    packet, encode every decoded frame) and remux. Each method is proved to compute exactly
    the corresponding function of module Protocol. */
module Codecs {
  import opened Timestamps
  import opened AVError
  import opened Outcomes
  import opened Media
  import opened Engine
  import opened Protocol

  /** The loop shared by encodeVideo and encodeAudio: send x, then while the last response
      is not negative pull a packet; EAGAIN or EOF ends the loop, any other error returns -1;
      a produced packet gets the fields of fix and is written, and a failed write returns -1;
      a produced packet whose duration cannot be computed ends the run undefined. A rejected
      submission skips the loop and returns 0. */
  method EncodeFrame(ctx: CodecContext<Frame, Packet>, out: FormatContext, x: Option<Frame>, fix: PacketFix)
    returns (o: Outcome)
    requires PacketsInInt64(ctx.pullResults) && FixValid(fix)
    modifies ctx`sendResults, ctx`submitted, ctx`pullResults, out`writeResults, out`written
    ensures (o, ctx.Engine(), out.Sink()) == Encode(old(ctx.Engine()), old(out.Sink()), x, fix)
  {
    ghost var goal := Encode(ctx.Engine(), out.Sink(), x, fix);
    var response := ctx.Send(x);
    while response >= 0
      invariant PacketsInInt64(ctx.pullResults)
      invariant response >= 0 ==> ctx.isOpen && goal == Drain(ctx.Engine(), out.Sink(), fix)
      invariant response < 0 ==> goal == (Returned(0), ctx.Engine(), out.Sink())
      decreases |ctx.pullResults|, if response >= 0 then 1 else 0
    {
      ghost var e, s := ctx.Engine(), out.Sink();
      if ctx.pullResults != [] && ctx.pullResults[0].Produced? {
        if DurationDefined(fix) {
          DrainStep(e, s, fix);
        } else {
          DrainUndefinedStep(e, s, fix);
        }
      } else {
        DrainStop(e, s, fix);
      }
      var r := ctx.Receive();
      response := PullCode(r);
      if r.NeedsMoreInput? || r.EndOfStream? {
        break;
      } else if r.Fatal? {
        return Returned(-1);
      }
      if !DurationDefined(fix) {
        return Undefined(fix.duration.hazard);
      }
      response := out.WriteInterleaved(Fixed(r.item, fix));
      if response != 0 {
        return Returned(-1);
      }
    }
    o := Returned(0);
  }

  /** The context a pointer that may be NULL refers to, if any. */
  function Present<I, O>(c: CodecContext?<I, O>): set<CodecContext<I, O>> {
    if c == null then {} else {c}
  }

  /** encodeVideo: the frame's picture-type hint is reset (a NULL flush frame is passed as
      it is) and it is encoded; the NULL context that a failed encoder lookup leaves behind
      is dereferenced by avcodec_send_frame. */
  method EncodeVideo(ctx: CodecContext?<Frame, Packet>, out: FormatContext, x: Option<Frame>, fix: PacketFix)
    returns (o: Outcome)
    requires ctx != null ==> PacketsInInt64(ctx.pullResults)
    requires FixValid(fix)
    modifies Present(ctx)`sendResults, Present(ctx)`submitted, Present(ctx)`pullResults, out`writeResults, out`written
    ensures ctx == null ==> o == Undefined(NullEncoderContext) && out.Sink() == old(out.Sink())
    ensures ctx != null ==>
      (o, ctx.Engine(), out.Sink()) == Encode(old(ctx.Engine()), old(out.Sink()), ClearPictureType(x), fix)
  {
    if ctx == null {
      return Undefined(NullEncoderContext);
    }
    o := EncodeFrame(ctx, out, ClearPictureType(x), fix);
  }

  /** The loop shared by transcodeVideo and transcodeAudio: send the packet (a rejection
      returns its code), then pull frames; EAGAIN or EOF ends the loop with 0, another error
      returns its code; each frame is handed to the encoder (video with its hint reset:
      clear), an encoder failure returns -1, and an undefined encoding ends the run. */
  method DecodePacket(dec: CodecContext<Packet, Frame>, enc: CodecContext<Frame, Packet>, out: FormatContext,
                      p: Packet, fix: PacketFix, clear: bool) returns (o: Outcome)
    requires PacketsInInt64(enc.pullResults) && FixValid(fix)
    modifies dec`sendResults, dec`submitted, dec`pullResults
    modifies enc`sendResults, enc`submitted, enc`pullResults, out`writeResults, out`written
    ensures (o, dec.Engine(), enc.Engine(), out.Sink()) ==
      TranscodePacket(old(dec.Engine()), old(enc.Engine()), old(out.Sink()), p, fix, clear)
  {
    var response := dec.Send(Some(p));
    if response < 0 {
      return Returned(response);
    }
    ghost var goal := DecodeLoop(dec.Engine(), enc.Engine(), out.Sink(), fix, clear);
    while response >= 0
      invariant response == 0 && dec.isOpen && PacketsInInt64(enc.pullResults)
      invariant goal == DecodeLoop(dec.Engine(), enc.Engine(), out.Sink(), fix, clear)
      decreases |dec.pullResults|
    {
      ghost var d, e, s := dec.Engine(), enc.Engine(), out.Sink();
      if dec.pullResults != [] && dec.pullResults[0].Produced? {
        DecodeStep(d, e, s, fix, clear);
      }
      var r := dec.Receive();
      response := PullCode(r);
      if r.NeedsMoreInput? || r.EndOfStream? {
        break;
      } else if r.Fatal? {
        return Returned(response);
      }
      o := EncodeFrame(enc, out, Handed(r.item, clear), fix);
      if o.Undefined? {
        return;
      } else if o.code < 0 {
        return Returned(-1);
      }
    }
    o := Returned(0);
  }

  /** transcodeVideo with a NULL video encoder context: the first decoded frame reaches
      encodeVideo, which dereferences it. */
  method DecodeWithoutEncoder(dec: CodecContext<Packet, Frame>, p: Packet) returns (o: Outcome)
    modifies dec`sendResults, dec`submitted, dec`pullResults
    ensures (o, dec.Engine()) == TranscodeWithoutEncoder(old(dec.Engine()), p)
  {
    var response := dec.Send(Some(p));
    if response < 0 {
      return Returned(response);
    }
    var r := dec.Receive();
    match r
    case Produced(_) => o := Undefined(NullEncoderContext);
    case NeedsMoreInput => o := Returned(0);
    case EndOfStream => o := Returned(0);
    case Fatal(c) => o := Returned(c);
  }

  /** remux. */
  method Remux(p: Packet, out: FormatContext, src: Rational, dst: Rational) returns (status: int)
    requires TimesInInt64(p)
    modifies out`writeResults, out`written
    ensures (status, out.Sink()) == RemuxOn(old(out.Sink()), p, src, dst)
  {
    var q := RescaleTs(p, src, dst);
    var w := out.WriteInterleaved(q);
    if w < 0 {
      return -1;
    }
    status := 0;
  }
}
