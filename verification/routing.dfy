/** The read loop of Transcode as a function over value snapshots of the codec contexts and
    the muxer: every packet is routed by the type of its input stream and by the two copy
    flags, and the first failure ends the loop. The lemmas state what the routing does to
    the decoders, the encoders and the muxer log over a whole input. */
module Routing {
  import opened Timestamps
  import opened AVError
  import opened Outcomes
  import opened Media
  import opened Engine
  import opened Protocol

  /** What the read loop needs to know that does not change while it runs: the media type of
      each input stream, the copy flags, the fields encodeVideo and (when audio is encoded)
      encodeAudio give each encoded packet, and the time bases remux converts between, which
      are those of the video streams for audio packets too. */
  datatype Plan = Plan(
    types: seq<MediaType>, copyVideo: bool, copyAudio: bool,
    videoFix: PacketFix, audioFix: Option<PacketFix>, copySrc: Rational, copyDst: Rational)

  /** encodeAudio keeps the decoder's durations, so only encodeVideo can fail to compute one. */
  predicate PlanValid(plan: Plan) {
    FixValid(plan.videoFix) &&
    (plan.audioFix.Some? ==> FixValid(plan.audioFix.value) && plan.audioFix.value.duration == KeepDuration)
  }

  /** The undefined outcomes a pass can reach from w: a decoded video frame with no video
      encoder context, or a video encoder that produced a packet whose duration cannot be
      computed. */
  predicate Hazardous(plan: Plan, w: World, o: Outcome) {
    (w.encVideo.None? && o == Undefined(NullEncoderContext)) ||
    (w.encVideo.Some? && !DurationDefined(plan.videoFix) && o == Undefined(plan.videoFix.duration.hazard) &&
     !NoneProduced(w.encVideo.value.pullResults))
  }

  /** The engine state of the four codec contexts (None: a NULL context) and of the muxer. */
  datatype World = World(
    decVideo: Option<EngineState<Packet, Frame>>, decAudio: Option<EngineState<Packet, Frame>>,
    encVideo: Option<EngineState<Frame, Packet>>, encAudio: Option<EngineState<Frame, Packet>>,
    sink: SinkState)

  /** The contexts a packet can be routed to exist, and the encoders hand out int64 packets. */
  predicate Fits(plan: Plan, w: World) {
    (w.encVideo.Some? ==> PacketsInInt64(w.encVideo.value.pullResults)) &&
    (w.encAudio.Some? ==> PacketsInInt64(w.encAudio.value.pullResults)) &&
    (Video in plan.types ==> w.decVideo.Some?) &&
    (Audio in plan.types ==> w.decAudio.Some?) &&
    (!plan.copyAudio && Audio in plan.types ==> w.encAudio.Some? && plan.audioFix.Some?)
  }

  /** Packets av_read_frame returns: each names an existing input stream and carries int64
      timestamps. */
  predicate PacketOk(types: seq<MediaType>, p: Packet) {
    0 <= p.streamIndex < |types| && TimesInInt64(p)
  }

  predicate PacketsOk(types: seq<MediaType>, ps: seq<Packet>) {
    forall i | 0 <= i < |ps| :: PacketOk(types, ps[i])
  }

  function SubmittedOf<I, O>(e: Option<EngineState<I, O>>): seq<Option<I>> {
    if e.None? then [] else e.value.submitted
  }

  predicate IsAudioOrVideoType(t: MediaType) {
    t == Video || t == Audio
  }

  /** One pass of the read loop's body (transcoder.cpp 468-492). Returned(0) means "read
      the next packet"; a failing path yields Returned(-1). */
  function Step(plan: Plan, w: World, p: Packet): (r: (Outcome, World))
    requires PlanValid(plan) && Fits(plan, w) && PacketOk(plan.types, p)
    ensures Fits(plan, r.1)
    ensures r.0 == Returned(0) || r.0 == Returned(-1) || r.0.Undefined?
    ensures r.0.Undefined? ==> plan.types[p.streamIndex] == Video && !plan.copyVideo && Hazardous(plan, w, r.0)
    ensures w.encVideo.None? <==> r.1.encVideo.None?
    ensures w.encVideo.Some? && NoneProduced(w.encVideo.value.pullResults) ==> NoneProduced(r.1.encVideo.value.pullResults)
    ensures var t := plan.types[p.streamIndex];
      SubmittedOf(r.1.decVideo) ==
        SubmittedOf(w.decVideo) + (if t == Video && !plan.copyVideo then [Some(p)] else []) &&
      SubmittedOf(r.1.decAudio) ==
        SubmittedOf(w.decAudio) + (if t == Audio && !plan.copyAudio then [Some(p)] else [])
    ensures plan.copyVideo && plan.copyAudio ==>
      r.1.sink.written == w.sink.written +
        (if IsAudioOrVideoType(plan.types[p.streamIndex]) && r.0 == Returned(0)
         then [RescaleTs(p, plan.copySrc, plan.copyDst)] else [])
  {
    var t := plan.types[p.streamIndex];
    if t == Video then
      if !plan.copyVideo then
        if w.encVideo.None? then
          var (o, d1) := TranscodeWithoutEncoder(w.decVideo.value, p);
          (if o.Returned? && o.code < 0 then Returned(-1) else o, w.(decVideo := Some(d1)))
        else
          var (c, d1, e1, s1) := TranscodePacket(w.decVideo.value, w.encVideo.value, w.sink, p, plan.videoFix, true);
          (if c.Returned? && c.code < 0 then Returned(-1) else c,
           w.(decVideo := Some(d1), encVideo := Some(e1), sink := s1))
      else
        var (c, s1) := RemuxOn(w.sink, p, plan.copySrc, plan.copyDst);
        (Returned(c), w.(sink := s1))
    else if t == Audio then
      if !plan.copyAudio then
        var (c, d1, e1, s1) :=
          TranscodePacket(w.decAudio.value, w.encAudio.value, w.sink, p, plan.audioFix.value, false);
        (if c.Returned? && c.code < 0 then Returned(-1) else c,
         w.(decAudio := Some(d1), encAudio := Some(e1), sink := s1))
      else
        var (c, s1) := RemuxOn(w.sink, p, plan.copySrc, plan.copyDst);
        (Returned(c), w.(sink := s1))
    else
      (Returned(0), w)
  }

  /** The read loop (transcoder.cpp 465-493): route packets in order until they run out
      (Returned(0)) or a path fails; also yields how many packets were read. */
  function RouteAll(plan: Plan, w: World, ps: seq<Packet>): (r: (Outcome, World, nat))
    requires PlanValid(plan) && Fits(plan, w) && PacketsOk(plan.types, ps)
    ensures Fits(plan, r.1) && r.2 <= |ps|
    ensures r.0 == Returned(0) || r.0 == Returned(-1) || r.0.Undefined?
    ensures w.encVideo.None? <==> r.1.encVideo.None?
    ensures w.encVideo.Some? && NoneProduced(w.encVideo.value.pullResults) ==> NoneProduced(r.1.encVideo.value.pullResults)
    ensures r.0 == Returned(0) ==> r.2 == |ps|
    ensures r.0 != Returned(0) ==> 1 <= r.2
    decreases |ps|
  {
    if ps == [] then (Returned(0), w, 0)
    else
      assert PacketsOk(plan.types, ps[1..]) by {
        assert forall i | 0 <= i < |ps| - 1 :: ps[1..][i] == ps[i + 1];
      }
      var s := Step(plan, w, ps[0]);
      if s.0 != Returned(0) then (s.0, s.1, 1)
      else
        var r := RouteAll(plan, s.1, ps[1..]);
        (r.0, r.1, r.2 + 1)
  }

  /** What RouteAll needs of its arguments. */
  predicate Routable(plan: Plan, w: World, ps: seq<Packet>) {
    PlanValid(plan) && Fits(plan, w) && PacketsOk(plan.types, ps)
  }

  /** RouteAll over the packets from some point on, n packets having been read before. */
  function Resume(plan: Plan, w: World, ps: seq<Packet>, n: nat): (Outcome, World, nat)
    requires Routable(plan, w, ps)
  {
    (RouteAll(plan, w, ps).0, RouteAll(plan, w, ps).1, RouteAll(plan, w, ps).2 + n)
  }

  /** Resuming on an exhausted input ends the loop where it is. */
  lemma ResumeEnd(plan: Plan, w: World, n: nat)
    requires Routable(plan, w, [])
    ensures Resume(plan, w, [], n) == (Returned(0), w, n)
  {
  }

  /** Resuming on a non-empty input, given the outcome and world of its first step: the
      step's failure is the result, or the routing resumes after it. */
  lemma ResumeAfter(plan: Plan, w: World, ps: seq<Packet>, n: nat, o: Outcome, w1: World)
    requires Routable(plan, w, ps) && ps != []
    requires (o, w1) == Step(plan, w, ps[0])
    ensures Routable(plan, w1, ps[1..])
    ensures o != Returned(0) ==> Resume(plan, w, ps, n) == (o, w1, n + 1)
    ensures o == Returned(0) ==> Resume(plan, w, ps, n) == Resume(plan, w1, ps[1..], n + 1)
    ensures o == Returned(0) && |ps| == 1 ==> Resume(plan, w, ps, n) == (Returned(0), w1, n + 1)
  {
    PacketsOkTail(plan.types, ps);
  }

  /** What one pass of the read loop leaves of the routing, resumed j packets into the input
      ps: the packets rest still to be read are a suffix of ps; a pass that ends the loop
      (done) has the routing's result, and one that does not consumed one packet and leaves
      the routing to resume after it. */
  predicate Advanced(plan: Plan, w: World, ps: seq<Packet>, j: nat, rest: seq<Packet>, w1: World, done: bool, o: Outcome)
    requires Routable(plan, w, ps)
  {
    Routable(plan, w1, rest) && |rest| <= |ps| && rest == ps[|ps| - |rest|..] &&
    (done ==> Resume(plan, w, ps, j) == (o, w1, j + (|ps| - |rest|))) &&
    (!done ==> o == Returned(0) && |rest| + 1 == |ps| && Resume(plan, w, ps, j) == Resume(plan, w1, rest, j + 1))
  }

  /** A pass that finds the input exhausted ends the loop with success. */
  lemma AdvancedAtEnd(plan: Plan, w: World, j: nat)
    requires Routable(plan, w, [])
    ensures Advanced(plan, w, [], j, [], w, true, Returned(0))
  {
    ResumeEnd(plan, w, j);
  }

  /** A pass that routes the next packet ends the loop exactly when the packet's path fails. */
  lemma AdvancedByStep(plan: Plan, w: World, ps: seq<Packet>, j: nat, o: Outcome, w1: World)
    requires Routable(plan, w, ps) && ps != []
    requires (o, w1) == Step(plan, w, ps[0])
    ensures Advanced(plan, w, ps, j, ps[1..], w1, o != Returned(0), o)
  {
    ResumeAfter(plan, w, ps, j, o, w1);
  }

  // ---------------------------------------------------------------------------------------
  // What the routing does over a whole input

  /** The packets a decoder of type t is handed: those of streams of that type, in order. */
  function Submissions(types: seq<MediaType>, ps: seq<Packet>, t: MediaType): (xs: seq<Option<Packet>>)
    ensures |xs| <= |ps|
    ensures ps != [] && OfType(types, ps[0], t) ==> xs != [] && xs[0] == Some(ps[0])
  {
    if ps == [] then []
    else (if OfType(types, ps[0], t) then [Some(ps[0])] else []) + Submissions(types, ps[1..], t)
  }

  predicate OfType(types: seq<MediaType>, p: Packet, t: MediaType) {
    0 <= p.streamIndex < |types| && types[p.streamIndex] == t
  }

  /** What remux writes for a run of packets: its audio and video packets, rescaled. */
  function Remuxed(types: seq<MediaType>, ps: seq<Packet>, src: Rational, dst: Rational): (qs: seq<Packet>)
    ensures |qs| <= |ps|
  {
    if ps == [] then []
    else (if Remuxes(types, ps[0]) then [RescaleTs(ps[0], src, dst)] else []) + Remuxed(types, ps[1..], src, dst)
  }

  /** A packet that remux writes: an audio or video packet with int64 timestamps. */
  predicate Remuxes(types: seq<MediaType>, p: Packet) {
    PacketOk(types, p) && IsAudioOrVideoType(types[p.streamIndex])
  }

  /** The decoder packets of type t are routed to, and whether that type is copied. */
  function DecoderOf(w: World, t: MediaType): Option<EngineState<Packet, Frame>> {
    if t == Video then w.decVideo else w.decAudio
  }

  predicate Copies(plan: Plan, t: MediaType) {
    if t == Video then plan.copyVideo else plan.copyAudio
  }

  /** Every packet of type t read, up to and including one whose path failed, has been
      submitted to the decoder of that type, in order, unless the type is copied; nothing
      else is submitted to it. */
  predicate SubmitsRead(plan: Plan, w: World, ps: seq<Packet>, t: MediaType)
    requires Routable(plan, w, ps)
  {
    SubmittedOf(DecoderOf(RouteAll(plan, w, ps).1, t)) ==
      SubmittedOf(DecoderOf(w, t)) +
        (if Copies(plan, t) then [] else Submissions(plan.types, ps[..RouteAll(plan, w, ps).2], t))
  }

  lemma {:induction false} RouteAllSubmits(plan: Plan, w: World, ps: seq<Packet>, t: MediaType)
    requires Routable(plan, w, ps) && IsAudioOrVideoType(t)
    ensures SubmitsRead(plan, w, ps, t)
    decreases |ps|
  {
    if ps != [] {
      PacketsOkTail(plan.types, ps);
      var s := Step(plan, w, ps[0]);
      if s.0 == Returned(0) {
        RouteAllSubmits(plan, s.1, ps[1..], t);
        SubmitsReadNext(plan, w, ps, t);
      } else {
        SubmitsReadFail(plan, w, ps, t);
      }
    } else {
      assert ps[..0] == [];
    }
  }

  lemma SubmitsReadNext(plan: Plan, w: World, ps: seq<Packet>, t: MediaType)
    requires Routable(plan, w, ps) && ps != [] && IsAudioOrVideoType(t)
    requires Step(plan, w, ps[0]).0 == Returned(0)
    requires Routable(plan, Step(plan, w, ps[0]).1, ps[1..])
    requires SubmitsRead(plan, Step(plan, w, ps[0]).1, ps[1..], t)
    ensures SubmitsRead(plan, w, ps, t)
  {
    var w1 := Step(plan, w, ps[0]).1;
    var r := RouteAll(plan, w, ps);
    var r1 := RouteAll(plan, w1, ps[1..]);
    var h: seq<Option<Packet>> := if OfType(plan.types, ps[0], t) then [Some(ps[0])] else [];
    assert SubmittedOf(DecoderOf(w1, t)) == SubmittedOf(DecoderOf(w, t)) + (if Copies(plan, t) then [] else h);
    assert r.1 == r1.1 && r.2 == r1.2 + 1;
    SubmissionsCons(plan.types, ps, r.2, t);
    if !Copies(plan, t) {
      AppendAssociates(SubmittedOf(DecoderOf(w, t)), h, Submissions(plan.types, ps[1..][..r1.2], t));
    }
  }

  lemma SubmitsReadFail(plan: Plan, w: World, ps: seq<Packet>, t: MediaType)
    requires Routable(plan, w, ps) && ps != [] && IsAudioOrVideoType(t)
    requires Step(plan, w, ps[0]).0 != Returned(0)
    ensures SubmitsRead(plan, w, ps, t)
  {
    PacketsOkTail(plan.types, ps);
    var w1 := Step(plan, w, ps[0]).1;
    var h: seq<Option<Packet>> := if OfType(plan.types, ps[0], t) then [Some(ps[0])] else [];
    assert SubmittedOf(DecoderOf(w1, t)) == SubmittedOf(DecoderOf(w, t)) + (if Copies(plan, t) then [] else h);
    assert RouteAll(plan, w, ps) == (Step(plan, w, ps[0]).0, w1, 1);
    SubmissionsCons(plan.types, ps, 1, t);
    assert ps[1..][..0] == [];
  }

  lemma AppendAssociates<T>(a: seq<T>, b: seq<T>, c: seq<T>)
    ensures (a + b) + c == a + (b + c)
  {
  }

  lemma PacketsOkTail(types: seq<MediaType>, ps: seq<Packet>)
    requires ps != [] && PacketsOk(types, ps)
    ensures PacketOk(types, ps[0]) && PacketsOk(types, ps[1..])
  {
    assert forall i | 0 <= i < |ps| - 1 :: ps[1..][i] == ps[i + 1];
  }

  lemma SubmissionsCons(types: seq<MediaType>, ps: seq<Packet>, k: nat, t: MediaType)
    requires 1 <= k <= |ps|
    ensures Submissions(types, ps[..k], t) ==
      (if OfType(types, ps[0], t) then [Some(ps[0])] else []) + Submissions(types, ps[1..][..k - 1], t)
  {
    assert ps[..k][1..] == ps[1..][..k - 1];
    assert ps[..k][0] == ps[0];
  }

  /** With both streams copied the loop only remuxes: no path is undefined, and the log
      gains exactly the audio and video packets read, rescaled between the video streams'
      time bases, except a last one whose write failed. */
  predicate CopiesRead(plan: Plan, w: World, ps: seq<Packet>)
    requires Routable(plan, w, ps)
  {
    RouteAll(plan, w, ps).0.Returned? &&
    (RouteAll(plan, w, ps).0 == Returned(0) ==>
      RouteAll(plan, w, ps).1.sink.written == w.sink.written + Remuxed(plan.types, ps, plan.copySrc, plan.copyDst)) &&
    (RouteAll(plan, w, ps).0 != Returned(0) ==>
      RouteAll(plan, w, ps).1.sink.written ==
        w.sink.written + Remuxed(plan.types, ps[..RouteAll(plan, w, ps).2 - 1], plan.copySrc, plan.copyDst))
  }

  lemma {:induction false} RouteAllCopies(plan: Plan, w: World, ps: seq<Packet>)
    requires Routable(plan, w, ps) && plan.copyVideo && plan.copyAudio
    ensures CopiesRead(plan, w, ps)
    decreases |ps|
  {
    if ps != [] {
      PacketsOkTail(plan.types, ps);
      var s := Step(plan, w, ps[0]);
      if s.0 == Returned(0) {
        RouteAllCopies(plan, s.1, ps[1..]);
        CopiesReadNext(plan, w, ps);
      } else {
        assert RouteAll(plan, w, ps) == (s.0, s.1, 1);
        assert ps[..0] == [];
      }
    }
  }

  lemma CopiesReadNext(plan: Plan, w: World, ps: seq<Packet>)
    requires Routable(plan, w, ps) && ps != [] && plan.copyVideo && plan.copyAudio
    requires Step(plan, w, ps[0]).0 == Returned(0)
    requires Routable(plan, Step(plan, w, ps[0]).1, ps[1..])
    requires CopiesRead(plan, Step(plan, w, ps[0]).1, ps[1..])
    ensures CopiesRead(plan, w, ps)
  {
    var w1 := Step(plan, w, ps[0]).1;
    var h: seq<Packet> := if Remuxes(plan.types, ps[0]) then [RescaleTs(ps[0], plan.copySrc, plan.copyDst)] else [];
    assert w1.sink.written == w.sink.written + h;
    var r1 := RouteAll(plan, w1, ps[1..]);
    assert RouteAll(plan, w, ps) == (r1.0, r1.1, r1.2 + 1);
    var k1 := if r1.0 == Returned(0) then r1.2 else r1.2 - 1;
    RemuxedCons(plan.types, ps, k1 + 1, plan.copySrc, plan.copyDst);
    AppendAssociates(w.sink.written, h, Remuxed(plan.types, ps[1..][..k1], plan.copySrc, plan.copyDst));
    assert ps[1..][..r1.2] == ps[1..] || r1.0 != Returned(0);
    assert ps[..|ps|] == ps;
  }

  lemma RemuxedCons(types: seq<MediaType>, ps: seq<Packet>, k: nat, src: Rational, dst: Rational)
    requires 1 <= k <= |ps|
    ensures Remuxed(types, ps[..k], src, dst) ==
      (if Remuxes(types, ps[0]) then [RescaleTs(ps[0], src, dst)] else []) + Remuxed(types, ps[1..][..k - 1], src, dst)
  {
    assert ps[..k][1..] == ps[1..][..k - 1];
    assert ps[..k][0] == ps[0];
  }

  /** The encoders are only ever handed decoded frames by the loop: the NULL flush is not
      among their submissions. */
  lemma {:induction false} RouteAllFeedsFrames(plan: Plan, w: World, ps: seq<Packet>)
    requires PlanValid(plan) && Fits(plan, w) && PacketsOk(plan.types, ps)
    requires OnlyFrames(SubmittedOf(w.encVideo)) && OnlyFrames(SubmittedOf(w.encAudio))
    ensures var r := RouteAll(plan, w, ps);
      OnlyFrames(SubmittedOf(r.1.encVideo)) && OnlyFrames(SubmittedOf(r.1.encAudio))
    decreases |ps|
  {
    if ps != [] {
      PacketsOkTail(plan.types, ps);
      StepFeedsFrames(plan, w, ps[0]);
      var s := Step(plan, w, ps[0]);
      var o, w1 := s.0, s.1;
      if o == Returned(0) {
        RouteAllFeedsFrames(plan, w1, ps[1..]);
      }
    }
  }

  lemma StepFeedsFrames(plan: Plan, w: World, p: Packet)
    requires PlanValid(plan) && Fits(plan, w) && PacketOk(plan.types, p)
    requires OnlyFrames(SubmittedOf(w.encVideo)) && OnlyFrames(SubmittedOf(w.encAudio))
    ensures var r := Step(plan, w, p);
      OnlyFrames(SubmittedOf(r.1.encVideo)) && OnlyFrames(SubmittedOf(r.1.encAudio))
  {
    var t := plan.types[p.streamIndex];
    if t == Video && !plan.copyVideo && w.encVideo.Some? {
      TranscodePacketFeedsFrames(w.decVideo.value, w.encVideo.value, w.sink, p, plan.videoFix, true);
    } else if t == Audio && !plan.copyAudio {
      TranscodePacketFeedsFrames(w.decAudio.value, w.encAudio.value, w.sink, p, plan.audioFix.value, false);
    }
  }
  /** The two undefined paths of the loop: a video packet decoded with no video encoder
      context to hand its frames to, and a video encoder producing a packet whose duration
      cannot be computed; an encoder whose script produces no packet never reaches the
      second, so such a loop returns unless the first is met. */
  lemma {:induction false} RouteAllHazard(plan: Plan, w: World, ps: seq<Packet>)
    requires Routable(plan, w, ps)
    ensures RouteAll(plan, w, ps).0.Undefined? ==> Hazardous(plan, w, RouteAll(plan, w, ps).0)
    ensures w.encVideo.Some? && NoneProduced(w.encVideo.value.pullResults) ==> RouteAll(plan, w, ps).0.Returned?
    decreases |ps|
  {
    if ps != [] {
      PacketsOkTail(plan.types, ps);
      var s := Step(plan, w, ps[0]);
      if s.0 == Returned(0) {
        RouteAllHazard(plan, s.1, ps[1..]);
      } else {
        assert RouteAll(plan, w, ps) == (s.0, s.1, 1);
      }
    }
  }

  /** Contexts to which the loop has handed nothing yet (the encoders at most frames). */
  predicate Unstarted(w: World) {
    SubmittedOf(w.decVideo) == [] && SubmittedOf(w.decAudio) == [] &&
    OnlyFrames(SubmittedOf(w.encVideo)) && OnlyFrames(SubmittedOf(w.encAudio))
  }

  /** What a loop that read every packet of ps leaves in w: each decoder was handed the
      packets of its type in input order (none, for a copied type), and the encoders were
      handed decoded frames only. */
  predicate RoutedAll(plan: Plan, ps: seq<Packet>, w: World) {
    SubmittedOf(w.decVideo) == (if plan.copyVideo then [] else Submissions(plan.types, ps, Video)) &&
    SubmittedOf(w.decAudio) == (if plan.copyAudio then [] else Submissions(plan.types, ps, Audio)) &&
    OnlyFrames(SubmittedOf(w.encVideo)) && OnlyFrames(SubmittedOf(w.encAudio))
  }

  /** A loop started on unstarted contexts that reads the whole input has routed all of it. */
  lemma RouteAllFromStart(plan: Plan, w: World, ps: seq<Packet>)
    requires Routable(plan, w, ps) && Unstarted(w)
    ensures RouteAll(plan, w, ps).0 == Returned(0) ==> RoutedAll(plan, ps, RouteAll(plan, w, ps).1)
    ensures RouteAll(plan, w, ps).0.Undefined? ==> Hazardous(plan, w, RouteAll(plan, w, ps).0)
  {
    RouteAllHazard(plan, w, ps);
    RouteAllSubmits(plan, w, ps, Video);
    RouteAllSubmits(plan, w, ps, Audio);
    RouteAllFeedsFrames(plan, w, ps);
    assert ps[..|ps|] == ps;
  }
}
