/** The decode/encode drain protocol of transcoder.cpp as functions over engine states:
    submit, then pull until a sentinel (EAGAIN, EOF) or a fatal result, handing every
    produced unit on. The methods of module Transcoder are proved to compute exactly these
    functions; the lemmas here state what the protocol guarantees. */
module Protocol {
  import opened Timestamps
  import opened AVError
  import opened Media
  import opened Engine
  import opened Outcomes

  /** C integer division, which truncates toward zero. */
  function CDiv(a: int, b: int): (q: int)
    requires b != 0
    ensures a >= 0 && b > 0 ==> q == a / b
    ensures (a >= 0) == (b > 0) || a == 0 ==> q >= 0
  {
    if (a >= 0) == (b > 0) then Abs(a) / Abs(b) else -(Abs(a) / Abs(b))
  }

  function Abs(x: int): nat {
    if x < 0 then -x else x
  }

  /** The duration encodeVideo assigns to each packet: tb.den / tb.num / fr.num * fr.den,
      evaluated left to right with C's truncating division, over unbounded integers (the
      int range checks are FrameDurationRule's). */
  function FrameDuration(tb: Rational, fr: Rational): (d: int)
    requires tb.num != 0 && fr.num != 0
  {
    CDiv(CDiv(tb.den, tb.num), fr.num) * fr.den
  }

  /** With positive operands the duration lies between 0 and tb.den * fr.den. */
  lemma FrameDurationBounds(tb: Rational, fr: Rational)
    requires Positive(tb) && Positive(fr)
    ensures 0 <= FrameDuration(tb, fr) <= tb.den * fr.den
  {
    var a := CDiv(tb.den, tb.num);
    DivAtMost(tb.den, tb.num);
    var q := CDiv(a, fr.num);
    DivAtMost(a, fr.num);
    if q < tb.den { MulLeftMonotone(fr.den, q, tb.den); }
    assert fr.den * q == q * fr.den && fr.den * tb.den == tb.den * fr.den;
  }

  lemma DivAtMost(a: nat, b: int)
    requires b > 0
    ensures 0 <= CDiv(a, b) <= a
  {
    assert a == b * (a / b) + a % b;
    if a / b > a { MulLeftMonotone(a / b, 1, b); }
  }

  /** A time base (1/fps) with its own inverse as frame rate gives one tick per frame... but
      only when tb.den is a multiple of fps: 1001/30000 against 30000/1001 yields 0. */
  lemma FrameDurationExamples()
    ensures FrameDuration(Rational(1, 25), Rational(25, 1)) == 1
    ensures FrameDuration(Rational(1001, 30000), Rational(30000, 1001)) == 0
  {
  }

  /** What encodeVideo / encodeAudio do to the duration of each encoded packet: encodeAudio
      keeps it; encodeVideo sets it to a computed number of ticks, or its computation has
      behaviour the C++ standard leaves undefined. */
  datatype DurationRule = KeepDuration | SetDuration(ticks: int) | DurationFails(hazard: Hazard)

  /** The duration expression of encodeVideo, evaluated left to right in C int arithmetic:
      a zero divisor or a quotient or product outside the int range is undefined. */
  function FrameDurationRule(tb: Rational, fr: Rational): (d: DurationRule)
    ensures !d.KeepDuration?
    ensures d.DurationFails? ==> d.hazard == DivisionByZero || d.hazard == IntOverflow
    ensures tb.num == 0 ==> d == DurationFails(DivisionByZero)
    ensures tb.num != 0 && fr.num == 0 ==> d.DurationFails?
    ensures d.SetDuration? ==> tb.num != 0 && fr.num != 0 && d.ticks == FrameDuration(tb, fr) && InInt32(d.ticks)
  {
    if tb.num == 0 then DurationFails(DivisionByZero)
    else
      var q1 := CDiv(tb.den, tb.num);
      if !InInt32(q1) then DurationFails(IntOverflow)
      else if fr.num == 0 then DurationFails(DivisionByZero)
      else
        var q2 := CDiv(q1, fr.num);
        if !InInt32(q2) || !InInt32(q2 * fr.den) then DurationFails(IntOverflow)
        else SetDuration(q2 * fr.den)
  }

  /** With C int time bases the duration is undefined only through the final product: an
      output time base and a positive frame rate give a duration between 0 and INT_MAX or
      an int overflow, and no overflow when tb.den * fr.den fits an int; a frame rate with
      a zero numerator is a division by zero. */
  lemma FrameDurationOfValidBases(tb: Rational, fr: Rational)
    requires ValidTimeBase(tb) && fr.num >= 0 && 0 < fr.den <= Int32Max
    ensures fr.num == 0 <==> FrameDurationRule(tb, fr) == DurationFails(DivisionByZero)
    ensures fr.num > 0 ==>
      FrameDurationRule(tb, fr) == DurationFails(IntOverflow) ||
      (FrameDurationRule(tb, fr).SetDuration? && 0 <= FrameDurationRule(tb, fr).ticks <= Int32Max)
    ensures fr.num > 0 && tb.den * fr.den <= Int32Max ==> FrameDurationRule(tb, fr) == SetDuration(FrameDuration(tb, fr))
  {
    DivAtMost(tb.den, tb.num);
    var q1 := CDiv(tb.den, tb.num);
    if fr.num > 0 {
      DivAtMost(q1, fr.num);
      var q2 := CDiv(q1, fr.num);
      MulNonNegative(q2, fr.den);
      FrameDurationBounds(tb, fr);
    }
  }

  /** 1/90000 against 30000/1001 (NTSC in an MPEG-TS time base) gives 3003 ticks; 1/90000
      against 1/100000 overflows the final product (9 * 10^9 > INT_MAX); an unknown frame
      rate (0/1) divides by zero. */
  lemma FrameDurationRuleExamples()
    ensures FrameDurationRule(Rational(1, 90000), Rational(30000, 1001)) == SetDuration(3003)
    ensures FrameDurationRule(Rational(1, 90000), Rational(1, 100000)) == DurationFails(IntOverflow)
    ensures FrameDurationRule(Rational(1, 90000), Rational(0, 1)) == DurationFails(DivisionByZero)
  {
  }

  /** The fields encodeVideo / encodeAudio set on each encoded packet before writing it:
      the stream index, the duration rule, and the time bases to rescale between. */
  datatype PacketFix = PacketFix(streamIndex: int, duration: DurationRule, src: Rational, dst: Rational)

  /** A set duration fits the int64 packet field. */
  predicate FixValid(f: PacketFix) {
    f.duration.SetDuration? ==> InInt64(f.duration.ticks)
  }

  /** The duration of a packet under the fix is defined. */
  predicate DurationDefined(f: PacketFix) {
    !f.duration.DurationFails?
  }

  /** An encoded packet as it is written. */
  function Fixed(p: Packet, f: PacketFix): (q: Packet)
    requires TimesInInt64(p) && FixValid(f) && DurationDefined(f)
    ensures q.streamIndex == f.streamIndex && q.pos == p.pos
  {
    var p1 := p.(streamIndex := f.streamIndex);
    RescaleTs(if f.duration.SetDuration? then p1.(duration := f.duration.ticks) else p1, f.src, f.dst)
  }

  /** Between equal positive time bases only the stream index and the duration change. */
  lemma FixedSameBase(p: Packet, f: PacketFix)
    requires TimesInInt64(p) && FixValid(f) && DurationDefined(f) && f.src == f.dst && Positive(f.src)
    ensures Fixed(p, f) ==
      p.(streamIndex := f.streamIndex, duration := if f.duration.SetDuration? then f.duration.ticks else p.duration)
  {
    var p1 := p.(streamIndex := f.streamIndex);
    RescaleTsSameBase(if f.duration.SetDuration? then p1.(duration := f.duration.ticks) else p1, f.src);
  }

  function FixAll(ps: seq<Packet>, f: PacketFix): (qs: seq<Packet>)
    requires forall i | 0 <= i < |ps| :: TimesInInt64(ps[i])
    requires FixValid(f) && (ps == [] || DurationDefined(f))
    ensures |qs| == |ps|
  {
    if ps == [] then [] else [Fixed(ps[0], f)] + FixAll(ps[1..], f)
  }

  /** The engine hands out packets whose timestamps are int64 values. */
  predicate PacketsInInt64(pulls: seq<Pull<Packet>>) {
    forall i | 0 <= i < |pulls| && pulls[i].Produced? :: TimesInInt64(pulls[i].item)
  }

  /** The items produced before the first non-produced result. */
  function ProducedItems<T>(pulls: seq<Pull<T>>): (items: seq<T>)
    ensures |items| <= |pulls|
    ensures forall i | 0 <= i < |items| :: pulls[i] == Produced(items[i])
    ensures |items| < |pulls| ==> !pulls[|items|].Produced?
  {
    if pulls == [] || !pulls[0].Produced? then [] else [pulls[0].item] + ProducedItems(pulls[1..])
  }

  /** The results after the produced run begin with a sentinel, or there are none. */
  predicate StopsCleanly<T>(pulls: seq<Pull<T>>) {
    var k := |ProducedItems(pulls)|;
    k == |pulls| || pulls[k].NeedsMoreInput? || pulls[k].EndOfStream?
  }

  /** The first n writes succeed (an exhausted queue always succeeds). */
  predicate WritesSucceed(writes: seq<Status>, n: nat) {
    forall i | 0 <= i < n && i < |writes| :: writes[i] == 0
  }

  /** What is left of a queue after n results were taken (never fewer than none). */
  function Drop<T>(s: seq<T>, n: nat): seq<T> {
    if n <= |s| then s[n..] else []
  }

  /** No result of the queue is a produced unit. */
  predicate NoneProduced<T>(pulls: seq<Pull<T>>) {
    forall i | 0 <= i < |pulls| :: !pulls[i].Produced?
  }

  /** The drain loop of encodeVideo / encodeAudio: pull packets until a sentinel (success,
      0) or a fatal result (-1); write each produced packet after applying f; a failed
      write returns -1, and a duration that cannot be computed is undefined at the first
      produced packet. Yields the outcome and the new encoder and muxer states. */
  function Drain(e: EngineState<Frame, Packet>, s: SinkState, f: PacketFix)
    : (r: (Outcome, EngineState<Frame, Packet>, SinkState))
    requires PacketsInInt64(e.pullResults) && FixValid(f)
    ensures r.0 == Returned(0) || r.0 == Returned(-1) || (!DurationDefined(f) && r.0 == Undefined(f.duration.hazard))
    ensures r.0.Undefined? <==>
      !DurationDefined(f) && e.isOpen && e.pullResults != [] && e.pullResults[0].Produced?
    ensures r.1.isOpen == e.isOpen && r.1.sendResults == e.sendResults && r.1.submitted == e.submitted
    ensures PacketsInInt64(r.1.pullResults)
    ensures NoneProduced(e.pullResults) ==> NoneProduced(r.1.pullResults)
    decreases |e.pullResults|
  {
    var (res, e1) := PullOn(e);
    match res
    case NeedsMoreInput => (Returned(0), e1, s)
    case EndOfStream => (Returned(0), e1, s)
    case Fatal(_) => (Returned(-1), e1, s)
    case Produced(p) =>
      assert TimesInInt64(p) by { assert e.isOpen && e.pullResults[0] == Produced(p); }
      assert PacketsInInt64(e1.pullResults) by {
        forall i | 0 <= i < |e1.pullResults| && e1.pullResults[i].Produced?
          ensures TimesInInt64(e1.pullResults[i].item)
        {
          assert e1.pullResults[i] == e.pullResults[i + 1];
        }
      }
      if !DurationDefined(f) then (Undefined(f.duration.hazard), e1, s)
      else
        var (w, s1) := WriteOn(s, Fixed(p, f));
        if w != 0 then (Returned(-1), e1, s1) else Drain(e1, s1, f)
  }

  /** encodeVideo / encodeAudio: submit the frame (None = flush); a rejected submission
      skips the drain and still yields 0. */
  function Encode(e: EngineState<Frame, Packet>, s: SinkState, x: Option<Frame>, f: PacketFix)
    : (r: (Outcome, EngineState<Frame, Packet>, SinkState))
    requires PacketsInInt64(e.pullResults) && FixValid(f)
    ensures r.0 == Returned(0) || r.0 == Returned(-1) || (!DurationDefined(f) && r.0 == Undefined(f.duration.hazard))
    ensures r.0.Undefined? ==> !DurationDefined(f) && !NoneProduced(e.pullResults)
    ensures r.1.submitted == e.submitted + [x] && r.1.isOpen == e.isOpen
    ensures PacketsInInt64(r.1.pullResults)
    ensures NoneProduced(e.pullResults) ==> NoneProduced(r.1.pullResults)
  {
    var (status, e1) := SendOn(e, x);
    if status < 0 then (Returned(0), e1, s) else Drain(e1, s, f)
  }

  /** encodeVideo resets the picture-type hint of a frame before submitting it. */
  function ClearPictureType(x: Option<Frame>): (y: Option<Frame>)
    ensures y.Some? <==> x.Some?
    ensures y.Some? ==> y.value.pictType == PictureTypeNone && y.value.payload == x.value.payload
  {
    match x
    case None => None
    case Some(fr) => Some(fr.(pictType := PictureTypeNone))
  }

  /** What the encoder is handed for a decoded frame: video (clear) resets the hint. */
  function Handed(fr: Frame, clear: bool): Option<Frame> {
    if clear then ClearPictureType(Some(fr)) else Some(fr)
  }

  function HandedAll(frs: seq<Frame>, clear: bool): (xs: seq<Option<Frame>>)
    ensures |xs| == |frs|
  {
    if frs == [] then [] else [Handed(frs[0], clear)] + HandedAll(frs[1..], clear)
  }

  /** The decode loop of transcodeVideo / transcodeAudio: pull frames until a sentinel
      (0) or a fatal result (its code); encode each produced frame; an encoder failure
      yields -1, and an undefined encoding ends the run undefined. */
  function DecodeLoop(d: EngineState<Packet, Frame>, e: EngineState<Frame, Packet>, s: SinkState,
                      f: PacketFix, clear: bool)
    : (r: (Outcome, EngineState<Packet, Frame>, EngineState<Frame, Packet>, SinkState))
    requires PacketsInInt64(e.pullResults) && FixValid(f)
    ensures r.0.Returned? ==> r.0.code <= 0
    ensures r.0.Undefined? ==> !DurationDefined(f) && r.0 == Undefined(f.duration.hazard) && !NoneProduced(e.pullResults)
    ensures r.1.isOpen == d.isOpen && r.1.submitted == d.submitted && r.1.sendResults == d.sendResults
    ensures r.2.isOpen == e.isOpen && PacketsInInt64(r.2.pullResults)
    ensures NoneProduced(e.pullResults) ==> NoneProduced(r.2.pullResults)
    decreases |d.pullResults|
  {
    var (res, d1) := PullOn(d);
    match res
    case NeedsMoreInput => (Returned(0), d1, e, s)
    case EndOfStream => (Returned(0), d1, e, s)
    case Fatal(c) => (Returned(c), d1, e, s)
    case Produced(fr) =>
      var (o, e1, s1) := Encode(e, s, Handed(fr, clear), f);
      if o.Undefined? then (o, d1, e1, s1)
      else if o.code < 0 then (Returned(-1), d1, e1, s1)
      else DecodeLoop(d1, e1, s1, f, clear)
  }

  /** transcodeVideo / transcodeAudio for one packet: a rejected submission returns its
      code before any frame is pulled. */
  function TranscodePacket(d: EngineState<Packet, Frame>, e: EngineState<Frame, Packet>, s: SinkState,
                           p: Packet, f: PacketFix, clear: bool)
    : (r: (Outcome, EngineState<Packet, Frame>, EngineState<Frame, Packet>, SinkState))
    requires PacketsInInt64(e.pullResults) && FixValid(f)
    ensures r.0.Returned? ==> r.0.code <= 0
    ensures r.0.Undefined? ==> !DurationDefined(f) && r.0 == Undefined(f.duration.hazard) && !NoneProduced(e.pullResults)
    ensures r.1.submitted == d.submitted + [Some(p)] && r.1.isOpen == d.isOpen
    ensures r.2.isOpen == e.isOpen && PacketsInInt64(r.2.pullResults)
    ensures NoneProduced(e.pullResults) ==> NoneProduced(r.2.pullResults)
  {
    var (status, d1) := SendOn(d, Some(p));
    if status < 0 then (Returned(status), d1, e, s) else DecodeLoop(d1, e, s, f, clear)
  }

  // ---------------------------------------------------------------------------------------
  // What the drain loop guarantees

  lemma ProducedItemsTail<T>(pulls: seq<Pull<T>>)
    requires pulls != [] && pulls[0].Produced?
    ensures ProducedItems(pulls) == [pulls[0].item] + ProducedItems(pulls[1..])
  {
  }

  lemma FixAllPrefix(p: Packet, ps: seq<Packet>, n: nat, f: PacketFix)
    requires TimesInInt64(p) && FixValid(f) && DurationDefined(f)
    requires forall i | 0 <= i < |ps| :: TimesInInt64(ps[i])
    requires n <= |ps|
    ensures [Fixed(p, f)] + FixAll(ps[..n], f) == FixAll(([p] + ps)[..n + 1], f)
  {
    var qs := ([p] + ps)[..n + 1];
    assert qs[0] == p && qs[1..] == ps[..n];
  }

  /** One produced packet: write it, and go on only if the write succeeded. */
  lemma DrainStep(e: EngineState<Frame, Packet>, s: SinkState, f: PacketFix)
    requires e.isOpen && PacketsInInt64(e.pullResults) && FixValid(f) && DurationDefined(f)
    requires e.pullResults != [] && e.pullResults[0].Produced?
    ensures TimesInInt64(e.pullResults[0].item)
    ensures var e1 := e.(pullResults := e.pullResults[1..]);
            var w := WriteOn(s, Fixed(e.pullResults[0].item, f));
            PacketsInInt64(e1.pullResults) &&
            Drain(e, s, f) == if w.0 != 0 then (Returned(-1), e1, w.1) else Drain(e1, w.1, f)
  {
    var e1 := e.(pullResults := e.pullResults[1..]);
    assert PacketsInInt64(e1.pullResults) by {
      forall i | 0 <= i < |e1.pullResults| && e1.pullResults[i].Produced?
        ensures TimesInInt64(e1.pullResults[i].item)
      {
        assert e1.pullResults[i] == e.pullResults[i + 1];
      }
    }
  }

  /** A produced packet whose duration cannot be computed ends the drain undefined, before
      it is written. */
  lemma DrainUndefinedStep(e: EngineState<Frame, Packet>, s: SinkState, f: PacketFix)
    requires e.isOpen && PacketsInInt64(e.pullResults) && FixValid(f) && !DurationDefined(f)
    requires e.pullResults != [] && e.pullResults[0].Produced?
    ensures Drain(e, s, f) == (Undefined(f.duration.hazard), e.(pullResults := e.pullResults[1..]), s)
  {
  }

  /** Anything but a produced packet ends the drain without a write. */
  lemma DrainStop(e: EngineState<Frame, Packet>, s: SinkState, f: PacketFix)
    requires e.isOpen && PacketsInInt64(e.pullResults) && FixValid(f)
    requires e.pullResults == [] || !e.pullResults[0].Produced?
    ensures Drain(e, s, f).2 == s && Drain(e, s, f).0.Returned?
    ensures Drain(e, s, f).0 == Returned(0) <==> StopsCleanly(e.pullResults)
    ensures Drain(e, s, f).1.pullResults == Drop(e.pullResults, 1)
  {
  }

  /** Whatever the outcome, the drain appends to the muxer log exactly the first n produced
      packets, with their fields set, for some n no larger than the produced run; when the
      duration cannot be computed it writes nothing. */
  lemma {:induction false} DrainWritesProducedPrefix(e: EngineState<Frame, Packet>, s: SinkState, f: PacketFix)
    requires e.isOpen && PacketsInInt64(e.pullResults) && FixValid(f)
    ensures !DurationDefined(f) ==> Drain(e, s, f).2 == s
    ensures DurationDefined(f) ==>
            var items := ProducedItems(e.pullResults);
            (forall i | 0 <= i < |items| :: TimesInInt64(items[i])) &&
            var w := Drain(e, s, f).2.written;
            |s.written| <= |w| <= |s.written| + |items| &&
            w == s.written + FixAll(items[..|w| - |s.written|], f)
    decreases |e.pullResults|
  {
    ProducedInInt64(e.pullResults);
    var items := ProducedItems(e.pullResults);
    if !DurationDefined(f) {
      if e.pullResults != [] && e.pullResults[0].Produced? {
        DrainUndefinedStep(e, s, f);
      } else {
        DrainStop(e, s, f);
      }
    } else if e.pullResults != [] && e.pullResults[0].Produced? {
      var p := e.pullResults[0].item;
      var e1 := e.(pullResults := e.pullResults[1..]);
      var (w, s1) := WriteOn(s, Fixed(p, f));
      DrainStep(e, s, f);
      ProducedItemsTail(e.pullResults);
      if w == 0 {
        DrainWritesProducedPrefix(e1, s1, f);
        var n := |Drain(e1, s1, f).2.written| - |s1.written|;
        PrefixExtends(s.written, p, ProducedItems(e1.pullResults), n, f, Drain(e, s, f).2.written);
      } else {
        assert items[..0] == [];
      }
    } else {
      DrainStop(e, s, f);
      assert items[..0] == [];
    }
  }

  lemma ProducedInInt64(pulls: seq<Pull<Packet>>)
    requires PacketsInInt64(pulls)
    ensures forall i | 0 <= i < |ProducedItems(pulls)| :: TimesInInt64(ProducedItems(pulls)[i])
  {
    var items := ProducedItems(pulls);
    forall i | 0 <= i < |items| ensures TimesInInt64(items[i]) {
      assert pulls[i] == Produced(items[i]);
    }
  }

  lemma PrefixExtends(old_: seq<Packet>, p: Packet, rest: seq<Packet>, n: nat, f: PacketFix, w: seq<Packet>)
    requires TimesInInt64(p) && FixValid(f) && DurationDefined(f)
    requires forall i | 0 <= i < |rest| :: TimesInInt64(rest[i])
    requires n <= |rest|
    requires w == old_ + [Fixed(p, f)] + FixAll(rest[..n], f)
    ensures w == old_ + FixAll(([p] + rest)[..n + 1], f)
  {
    FixAllPrefix(p, rest, n, f);
    var a, b := [Fixed(p, f)], FixAll(rest[..n], f);
    assert old_ + a + b == old_ + (a + b);
  }

  lemma WritesSucceedTail(writes: seq<Status>, k: nat)
    requires k > 0 && Head(writes) == 0
    ensures WritesSucceed(writes, k) == WritesSucceed(Tail(writes), k - 1)
  {
    if writes != [] {
      if WritesSucceed(Tail(writes), k - 1) {
        forall i | 0 <= i < k && i < |writes| ensures writes[i] == 0 {
          if i > 0 { assert writes[i] == Tail(writes)[i - 1]; }
        }
      }
    }
  }

  /** The drain succeeds exactly when the produced run is followed by a sentinel (or by
      nothing), every write of the run succeeds, and the run is empty unless its duration
      can be computed; otherwise it fails with -1 or is undefined. */
  lemma {:induction false} DrainSucceedsIff(e: EngineState<Frame, Packet>, s: SinkState, f: PacketFix)
    requires e.isOpen && PacketsInInt64(e.pullResults) && FixValid(f)
    ensures Drain(e, s, f).0 == Returned(0) <==>
      StopsCleanly(e.pullResults) && WritesSucceed(s.writeResults, |ProducedItems(e.pullResults)|) &&
      (DurationDefined(f) || ProducedItems(e.pullResults) == [])
    decreases |e.pullResults|
  {
    if e.pullResults != [] && e.pullResults[0].Produced? && !DurationDefined(f) {
      DrainUndefinedStep(e, s, f);
      ProducedItemsTail(e.pullResults);
    } else if e.pullResults != [] && e.pullResults[0].Produced? {
      var e1 := e.(pullResults := e.pullResults[1..]);
      var (w, s1) := WriteOn(s, Fixed(e.pullResults[0].item, f));
      DrainStep(e, s, f);
      ProducedItemsTail(e.pullResults);
      var k := |ProducedItems(e.pullResults)|;
      assert StopsCleanly(e.pullResults) == StopsCleanly(e1.pullResults) by {
        assert k == |e.pullResults| || e.pullResults[k] == e1.pullResults[k - 1];
      }
      if w == 0 {
        DrainSucceedsIff(e1, s1, f);
        WritesSucceedTail(s.writeResults, k);
      } else {
        assert s.writeResults[0] != 0;
      }
    } else {
      DrainStop(e, s, f);
    }
  }

  /** A successful drain has written every produced packet and consumed the run and the
      sentinel after it. */
  lemma DrainSuccessWritesAll(e: EngineState<Frame, Packet>, s: SinkState, f: PacketFix)
    requires e.isOpen && PacketsInInt64(e.pullResults) && FixValid(f)
    requires Drain(e, s, f).0 == Returned(0)
    ensures var items := ProducedItems(e.pullResults);
            (forall i | 0 <= i < |items| :: TimesInInt64(items[i])) &&
            (DurationDefined(f) || items == []) &&
            Drain(e, s, f).2.written == s.written + FixAll(items, f) &&
            Drain(e, s, f).1.pullResults == Drop(e.pullResults, |items| + 1)
  {
    DrainSucceedsIff(e, s, f);
    ProducedInInt64(e.pullResults);
    DrainWritesProducedPrefix(e, s, f);
    DrainSuccessConsumesRun(e, s, f);
    var items := ProducedItems(e.pullResults);
    assert items[..|items|] == items;
  }

  lemma {:induction false} DrainSuccessConsumesRun(e: EngineState<Frame, Packet>, s: SinkState, f: PacketFix)
    requires e.isOpen && PacketsInInt64(e.pullResults) && FixValid(f)
    requires Drain(e, s, f).0 == Returned(0)
    ensures |Drain(e, s, f).2.written| == |s.written| + |ProducedItems(e.pullResults)|
    ensures Drain(e, s, f).1.pullResults == Drop(e.pullResults, |ProducedItems(e.pullResults)| + 1)
    decreases |e.pullResults|
  {
    if e.pullResults != [] && e.pullResults[0].Produced? {
      var e1 := e.(pullResults := e.pullResults[1..]);
      var (w, s1) := WriteOn(s, Fixed(e.pullResults[0].item, f));
      DrainStep(e, s, f);
      ProducedItemsTail(e.pullResults);
      DrainSuccessConsumesRun(e1, s1, f);
      var k := |ProducedItems(e1.pullResults)|;
      assert Drop(e.pullResults, k + 2) == Drop(e1.pullResults, k + 1);
    } else {
      DrainStop(e, s, f);
    }
  }

  /** encodeVideo / encodeAudio with a rejected submission: nothing is pulled or written,
      and the call still reports success. */
  lemma EncodeRejectedIsSilent(e: EngineState<Frame, Packet>, s: SinkState, x: Option<Frame>, f: PacketFix)
    requires PacketsInInt64(e.pullResults) && FixValid(f)
    requires SendOn(e, x).0 < 0
    ensures Encode(e, s, x, f).0 == Returned(0)
    ensures Encode(e, s, x, f).2 == s
    ensures Encode(e, s, x, f).1.pullResults == e.pullResults
  {
  }

  /** A context that was never opened rejects every submission, so encoding into it writes
      nothing and reports success. */
  lemma EncodeIntoClosedContext(e: EngineState<Frame, Packet>, s: SinkState, x: Option<Frame>, f: PacketFix)
    requires !e.isOpen && PacketsInInt64(e.pullResults) && FixValid(f)
    ensures Encode(e, s, x, f) == (Returned(0), e.(submitted := e.submitted + [x]), s)
  {
  }

  /** encodeVideo / encodeAudio with an accepted submission: the drain decides the outcome. */
  lemma EncodeAcceptedDrains(e: EngineState<Frame, Packet>, s: SinkState, x: Option<Frame>, f: PacketFix)
    requires e.isOpen && PacketsInInt64(e.pullResults) && FixValid(f)
    requires Head(e.sendResults) == 0
    ensures Encode(e, s, x, f).0 == Returned(0) <==>
      StopsCleanly(e.pullResults) && WritesSucceed(s.writeResults, |ProducedItems(e.pullResults)|) &&
      (DurationDefined(f) || ProducedItems(e.pullResults) == [])
    ensures Encode(e, s, x, f).0 == Returned(0) ==>
      (forall i | 0 <= i < |ProducedItems(e.pullResults)| :: TimesInInt64(ProducedItems(e.pullResults)[i])) &&
      (DurationDefined(f) || ProducedItems(e.pullResults) == []) &&
      Encode(e, s, x, f).2.written == s.written + FixAll(ProducedItems(e.pullResults), f)
  {
    var e1 := SendOn(e, x).1;
    assert e1.pullResults == e.pullResults && e1.isOpen;
    DrainSucceedsIff(e1, s, f);
    if Encode(e, s, x, f).0 == Returned(0) {
      DrainSuccessWritesAll(e1, s, f);
    }
  }

  // ---------------------------------------------------------------------------------------
  // What the decode loop guarantees

  /** transcodeVideo / transcodeAudio with a rejected packet: the code is returned, no frame
      is pulled, the encoder and the muxer are untouched. */
  lemma TranscodeRejectedPacket(d: EngineState<Packet, Frame>, e: EngineState<Frame, Packet>, s: SinkState,
                                p: Packet, f: PacketFix, clear: bool)
    requires PacketsInInt64(e.pullResults) && FixValid(f)
    requires SendOn(d, Some(p)).0 < 0
    ensures var r := TranscodePacket(d, e, s, p, f, clear);
            r.0 == Returned(SendOn(d, Some(p)).0) && r.1.pullResults == d.pullResults && r.2 == e && r.3 == s
  {
  }

  /** One decoded frame: encode it, and go on only if the encoder succeeded. */
  lemma DecodeStep(d: EngineState<Packet, Frame>, e: EngineState<Frame, Packet>, s: SinkState,
                   f: PacketFix, clear: bool)
    requires d.isOpen && PacketsInInt64(e.pullResults) && FixValid(f)
    requires d.pullResults != [] && d.pullResults[0].Produced?
    ensures var d1 := d.(pullResults := d.pullResults[1..]);
            var r := Encode(e, s, Handed(d.pullResults[0].item, clear), f);
            DecodeLoop(d, e, s, f, clear) ==
              if r.0.Undefined? then (r.0, d1, r.1, r.2)
              else if r.0.code < 0 then (Returned(-1), d1, r.1, r.2)
              else DecodeLoop(d1, r.1, r.2, f, clear)
  {
  }

  lemma HandedAllPrefix(fr: Frame, rest: seq<Frame>, m: nat, clear: bool, old_: seq<Option<Frame>>,
                        w: seq<Option<Frame>>)
    requires m <= |rest|
    requires w == old_ + [Handed(fr, clear)] + HandedAll(rest[..m], clear)
    ensures w == old_ + HandedAll(([fr] + rest)[..m + 1], clear)
  {
    var xs := ([fr] + rest)[..m + 1];
    assert xs[0] == fr && xs[1..] == rest[..m];
    var a, b := [Handed(fr, clear)], HandedAll(rest[..m], clear);
    assert old_ + a + b == old_ + (a + b);
  }

  /** After the decode loop the encoder's submissions are its earlier ones followed by a
      prefix of the decoded run, each frame handed over once, in order. */
  predicate HandsPrefix(d: EngineState<Packet, Frame>, e: EngineState<Frame, Packet>, s: SinkState,
                        f: PacketFix, clear: bool)
    requires PacketsInInt64(e.pullResults) && FixValid(f)
  {
    |e.submitted| <= |DecodeLoop(d, e, s, f, clear).2.submitted| <= |e.submitted| + |ProducedItems(d.pullResults)| &&
    DecodeLoop(d, e, s, f, clear).2.submitted == e.submitted +
      HandedAll(ProducedItems(d.pullResults)[..|DecodeLoop(d, e, s, f, clear).2.submitted| - |e.submitted|], clear)
  }

  /** The decode loop hands the encoder exactly the decoded frames, in order, one
      submission each, and never the NULL flush: a prefix of the produced run in general,
      the whole run when the loop succeeds. */
  lemma {:induction false} DecodeLoopHandsFrames(d: EngineState<Packet, Frame>, e: EngineState<Frame, Packet>,
                                                 s: SinkState, f: PacketFix, clear: bool)
    requires d.isOpen && PacketsInInt64(e.pullResults) && FixValid(f)
    ensures HandsPrefix(d, e, s, f, clear)
    decreases |d.pullResults|
  {
    if d.pullResults != [] && d.pullResults[0].Produced? {
      var r1 := Encode(e, s, Handed(d.pullResults[0].item, clear), f);
      if r1.0 == Returned(0) {
        DecodeLoopHandsFrames(d.(pullResults := d.pullResults[1..]), r1.1, r1.2, f, clear);
        HandsPrefixNext(d, e, s, f, clear);
      } else {
        HandsPrefixFail(d, e, s, f, clear);
      }
    } else {
      DecodeStop(d, e, s, f, clear);
      assert HandedAll(ProducedItems(d.pullResults)[..0], clear) == [];
    }
  }

  /** A decoded frame whose encoding succeeded extends what the rest of the loop hands. */
  lemma HandsPrefixNext(d: EngineState<Packet, Frame>, e: EngineState<Frame, Packet>, s: SinkState,
                        f: PacketFix, clear: bool)
    requires d.isOpen && PacketsInInt64(e.pullResults) && FixValid(f)
    requires d.pullResults != [] && d.pullResults[0].Produced?
    requires Encode(e, s, Handed(d.pullResults[0].item, clear), f).0 == Returned(0)
    requires HandsPrefix(d.(pullResults := d.pullResults[1..]), Encode(e, s, Handed(d.pullResults[0].item, clear), f).1,
                         Encode(e, s, Handed(d.pullResults[0].item, clear), f).2, f, clear)
    ensures HandsPrefix(d, e, s, f, clear)
  {
    var fr := d.pullResults[0].item;
    var d1 := d.(pullResults := d.pullResults[1..]);
    var r1 := Encode(e, s, Handed(fr, clear), f);
    DecodeStep(d, e, s, f, clear);
    ProducedItemsTail(d.pullResults);
    var r := DecodeLoop(d1, r1.1, r1.2, f, clear);
    assert DecodeLoop(d, e, s, f, clear) == r;
    var m := |r.2.submitted| - |r1.1.submitted|;
    HandedAllPrefix(fr, ProducedItems(d1.pullResults), m, clear, e.submitted, r.2.submitted);
    assert |r.2.submitted| - |e.submitted| == m + 1;
  }

  /** A decoded frame whose encoding failed is the last one handed. */
  lemma HandsPrefixFail(d: EngineState<Packet, Frame>, e: EngineState<Frame, Packet>, s: SinkState,
                        f: PacketFix, clear: bool)
    requires d.isOpen && PacketsInInt64(e.pullResults) && FixValid(f)
    requires d.pullResults != [] && d.pullResults[0].Produced?
    requires Encode(e, s, Handed(d.pullResults[0].item, clear), f).0 != Returned(0)
    ensures HandsPrefix(d, e, s, f, clear)
  {
    var fr := d.pullResults[0].item;
    var r1 := Encode(e, s, Handed(fr, clear), f);
    DecodeStep(d, e, s, f, clear);
    ProducedItemsTail(d.pullResults);
    assert DecodeLoop(d, e, s, f, clear).2 == r1.1;
    HandedAllPrefix(fr, [], 0, clear, e.submitted, r1.1.submitted);
    assert ([fr] + [])[..1] == ProducedItems(d.pullResults)[..1];
  }

  /** Anything but a decoded frame ends the loop with the encoder untouched. */
  lemma DecodeStop(d: EngineState<Packet, Frame>, e: EngineState<Frame, Packet>, s: SinkState,
                   f: PacketFix, clear: bool)
    requires d.isOpen && PacketsInInt64(e.pullResults) && FixValid(f)
    requires d.pullResults == [] || !d.pullResults[0].Produced?
    ensures DecodeLoop(d, e, s, f, clear).2 == e && DecodeLoop(d, e, s, f, clear).3 == s
  {
  }

  /** A successful decode loop has handed over the whole produced run and stopped at a
      sentinel (or at the end of the queue). */
  lemma {:induction false} DecodeLoopSuccessHandsAll(d: EngineState<Packet, Frame>, e: EngineState<Frame, Packet>,
                                                     s: SinkState, f: PacketFix, clear: bool)
    requires d.isOpen && PacketsInInt64(e.pullResults) && FixValid(f)
    requires DecodeLoop(d, e, s, f, clear).0 == Returned(0)
    ensures StopsCleanly(d.pullResults)
    ensures |DecodeLoop(d, e, s, f, clear).2.submitted| == |e.submitted| + |ProducedItems(d.pullResults)|
    decreases |d.pullResults|
  {
    if d.pullResults != [] && d.pullResults[0].Produced? {
      var d1 := d.(pullResults := d.pullResults[1..]);
      var (code, e1, s1) := Encode(e, s, Handed(d.pullResults[0].item, clear), f);
      DecodeStep(d, e, s, f, clear);
      ProducedItemsTail(d.pullResults);
      DecodeLoopSuccessHandsAll(d1, e1, s1, f, clear);
      var k := |ProducedItems(d.pullResults)|;
      assert k == |d.pullResults| || d.pullResults[k] == d1.pullResults[k - 1];
    }
  }

  /** The decoder's own failure codes in a queue of results. */
  predicate HasFatal<T>(pulls: seq<Pull<T>>, c: int) {
    exists j | 0 <= j < |pulls| :: pulls[j].Fatal? && pulls[j].code == c
  }

  /** The only codes the decode loop returns: 0, -1 (an encoder failed) or the code of a
      fatal decoder result; it is undefined only through an encoder's duration. */
  lemma {:induction false} DecodeLoopCodes(d: EngineState<Packet, Frame>, e: EngineState<Frame, Packet>,
                                           s: SinkState, f: PacketFix, clear: bool)
    requires d.isOpen && PacketsInInt64(e.pullResults) && FixValid(f)
    ensures var o := DecodeLoop(d, e, s, f, clear).0;
            o.Returned? ==> o.code == 0 || o.code == -1 || HasFatal(d.pullResults, o.code)
    decreases |d.pullResults|
  {
    if d.pullResults != [] && d.pullResults[0].Produced? {
      var d1 := d.(pullResults := d.pullResults[1..]);
      var (code, e1, s1) := Encode(e, s, Handed(d.pullResults[0].item, clear), f);
      if code == Returned(0) {
        DecodeLoopCodes(d1, e1, s1, f, clear);
        var o := DecodeLoop(d1, e1, s1, f, clear).0;
        if o.Returned? && HasFatal(d1.pullResults, o.code) {
          var c := o.code;
          var j :| 0 <= j < |d1.pullResults| && d1.pullResults[j].Fatal? && d1.pullResults[j].code == c;
          assert d.pullResults[j + 1] == d1.pullResults[j];
        }
      }
    }
  }

  /** Submissions that are all frames: no NULL flush among them. */
  predicate OnlyFrames(xs: seq<Option<Frame>>) {
    forall i | 0 <= i < |xs| :: xs[i].Some?
  }

  lemma {:induction false} HandedAllAreFrames(frs: seq<Frame>, clear: bool)
    ensures OnlyFrames(HandedAll(frs, clear))
    decreases |frs|
  {
    if frs != [] {
      HandedAllAreFrames(frs[1..], clear);
      var xs := HandedAll(frs, clear);
      assert forall i | 1 <= i < |xs| :: xs[i] == HandedAll(frs[1..], clear)[i - 1];
    }
  }

  /** transcodeVideo / transcodeAudio never hand the encoder the NULL flush frame. */
  lemma TranscodePacketFeedsFrames(d: EngineState<Packet, Frame>, e: EngineState<Frame, Packet>, s: SinkState,
                                   p: Packet, f: PacketFix, clear: bool)
    requires PacketsInInt64(e.pullResults) && FixValid(f)
    requires OnlyFrames(e.submitted)
    ensures OnlyFrames(TranscodePacket(d, e, s, p, f, clear).2.submitted)
  {
    var (status, d1) := SendOn(d, Some(p));
    if status >= 0 {
      DecodeLoopHandsFrames(d1, e, s, f, clear);
      var r := DecodeLoop(d1, e, s, f, clear);
      var frames := ProducedItems(d1.pullResults);
      var n := |r.2.submitted| - |e.submitted|;
      HandedAllAreFrames(frames[..n], clear);
      var xs := HandedAll(frames[..n], clear);
      assert forall i | |e.submitted| <= i < |r.2.submitted| :: r.2.submitted[i] == xs[i - |e.submitted|];
    }
  }

  // ---------------------------------------------------------------------------------------
  // The two other paths of the read loop

  /** transcodeVideo when the video encoder context is NULL (no encoder of the requested
      name): the packet is decoded as usual, but the first decoded frame is handed to
      encodeVideo, whose avcodec_send_frame dereferences the NULL context. */
  function TranscodeWithoutEncoder(d: EngineState<Packet, Frame>, p: Packet): (r: (Outcome, EngineState<Packet, Frame>))
    ensures r.1.submitted == d.submitted + [Some(p)] && r.1.isOpen == d.isOpen
    ensures r.0.Undefined? <==>
      Head(d.sendResults) >= 0 && d.isOpen && d.pullResults != [] && d.pullResults[0].Produced?
    ensures r.0.Undefined? ==> r.0.hazard == NullEncoderContext
    ensures r.0.Returned? ==> r.0.code <= 0
  {
    var (status, d1) := SendOn(d, Some(p));
    if status < 0 then (Returned(status), d1)
    else
      var (res, d2) := PullOn(d1);
      match res
      case Produced(_) => (Undefined(NullEncoderContext), d2)
      case NeedsMoreInput => (Returned(0), d2)
      case EndOfStream => (Returned(0), d2)
      case Fatal(c) => (Returned(c), d2)
  }

  /** remux: rescale the packet between the two time bases and write it; a failed write
      yields -1. */
  function RemuxOn(s: SinkState, p: Packet, src: Rational, dst: Rational): (r: (int, SinkState))
    requires TimesInInt64(p)
    ensures r.0 == 0 || r.0 == -1
    ensures r.0 == 0 <==> Head(s.writeResults) == 0
    ensures r.1.written == if r.0 == 0 then s.written + [RescaleTs(p, src, dst)] else s.written
    ensures r.1.writeResults == Tail(s.writeResults)
  {
    var (w, s1) := WriteOn(s, RescaleTs(p, src, dst));
    (if w < 0 then -1 else 0, s1)
  }
}
