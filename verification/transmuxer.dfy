/** transmuxer.cpp: copying the packets of an input container into an output container
    without decoding them. The stream map keeps the video, audio and subtitle streams and
    numbers them in input order; the copy loop discards the packets of the other streams and
    remaps and rescales the rest; cleanUp releases the contexts and maps the last status to
    the exit status. */
module Transmuxing {
  import opened Timestamps
  import opened AVError
  import opened Outcomes
  import opened Media
  import opened Engine

  // ---------------------------------------------------------------------------------------
  // The stream map (transmuxer.cpp 46-71)

  /** The streams the transmuxer copies: video, audio and subtitles. */
  predicate Kept(s: Stream) {
    s.codecpar.mediaType == Video || s.codecpar.mediaType == Audio || s.codecpar.mediaType == Subtitle
  }

  /** The number of kept streams. */
  function KeptCount(streams: seq<Stream>): (n: nat)
    ensures n <= |streams|
  {
    if streams == [] then 0
    else KeptCount(streams[..|streams| - 1]) + (if Kept(streams[|streams| - 1]) then 1 else 0)
  }

  /** streamsList: -1 for a dropped stream; a kept stream gets the number of kept streams
      before it. */
  function StreamMap(streams: seq<Stream>): (m: seq<int>)
    ensures |m| == |streams|
  {
    if streams == [] then []
    else
      var last := streams[|streams| - 1];
      StreamMap(streams[..|streams| - 1]) + [if Kept(last) then KeptCount(streams[..|streams| - 1]) else -1]
  }

  /** The stream avformat_new_stream creates for a kept stream, once avcodec_parameters_copy
      has given it the input stream's parameters. */
  function OutputStream(s: Stream): Stream {
    NewStreamOf(s.codecpar)
  }

  /** The output streams, one per kept stream, in input order. */
  function OutputStreams(streams: seq<Stream>): (r: seq<Stream>)
    ensures |r| == KeptCount(streams)
  {
    if streams == [] then []
    else
      var last := streams[|streams| - 1];
      OutputStreams(streams[..|streams| - 1]) + (if Kept(last) then [OutputStream(last)] else [])
  }

  /** Each entry of the map: -1 exactly for a dropped stream, otherwise the count of kept
      streams before it. */
  lemma {:induction false} StreamMapAt(streams: seq<Stream>, i: nat)
    requires i < |streams|
    ensures StreamMap(streams)[i] == if Kept(streams[i]) then KeptCount(streams[..i]) else -1
    decreases |streams|
  {
    var init := streams[..|streams| - 1];
    if i < |streams| - 1 {
      StreamMapAt(init, i);
      assert init[..i] == streams[..i];
    } else {
      assert init == streams[..i];
    }
  }

  /** A prefix has no more kept streams than the whole. */
  lemma {:induction false} KeptCountGrows(streams: seq<Stream>, i: nat)
    requires i <= |streams|
    ensures KeptCount(streams[..i]) <= KeptCount(streams)
    ensures i < |streams| && Kept(streams[i]) ==> KeptCount(streams[..i]) < KeptCount(streams)
    decreases |streams|
  {
    if i < |streams| {
      var init := streams[..|streams| - 1];
      assert init[..i] == streams[..i];
      if i < |streams| - 1 {
        KeptCountGrows(init, i);
      } else {
        assert init == streams[..i];
      }
    } else {
      assert streams[..i] == streams;
    }
  }

  /** Kept streams are numbered in input order, and every number is an index of an output
      stream. */
  lemma StreamMapIsOrdered(streams: seq<Stream>, i: nat, j: nat)
    requires i < j < |streams| && Kept(streams[i]) && Kept(streams[j])
    ensures 0 <= StreamMap(streams)[i] < StreamMap(streams)[j] < KeptCount(streams)
  {
    StreamMapAt(streams, i);
    StreamMapAt(streams, j);
    KeptCountGrows(streams[..j], i);
    assert streams[..j][..i] == streams[..i];
    assert streams[..j][i] == streams[i];
    KeptCountGrows(streams, j);
  }

  /** A kept stream's number is an index of an output stream. */
  lemma StreamMapInRange(streams: seq<Stream>, i: nat)
    requires i < |streams|
    ensures StreamMap(streams)[i] == -1 <==> !Kept(streams[i])
    ensures Kept(streams[i]) ==> 0 <= StreamMap(streams)[i] < KeptCount(streams)
  {
    StreamMapAt(streams, i);
    KeptCountGrows(streams, i);
  }

  /** The numbers are consecutive: every output stream index is the number of one kept
      stream. */
  lemma {:induction false} StreamMapIsOnto(streams: seq<Stream>, k: nat)
    requires k < KeptCount(streams)
    ensures exists i :: 0 <= i < |streams| && Kept(streams[i]) && StreamMap(streams)[i] == k
    decreases |streams|
  {
    var init := streams[..|streams| - 1];
    var n := |streams| - 1;
    if k < KeptCount(init) {
      StreamMapIsOnto(init, k);
      var i :| 0 <= i < |init| && Kept(init[i]) && StreamMap(init)[i] == k;
      assert StreamMap(streams)[i] == StreamMap(init)[i];
    } else {
      assert Kept(streams[n]) && k == KeptCount(init);
      assert StreamMap(streams)[n] == k;
    }
  }

  /** streamsList[i] is the index of the output stream created for input stream i. */
  lemma {:induction false} OutputStreamsAt(streams: seq<Stream>, i: nat)
    requires i < |streams| && Kept(streams[i])
    ensures 0 <= StreamMap(streams)[i] < |OutputStreams(streams)|
    ensures OutputStreams(streams)[StreamMap(streams)[i]] == OutputStream(streams[i])
    decreases |streams|
  {
    var init := streams[..|streams| - 1];
    StreamMapInRange(streams, i);
    if i < |streams| - 1 {
      OutputStreamsAt(init, i);
      assert StreamMap(streams)[i] == StreamMap(init)[i];
    } else {
      assert init == streams[..i];
      StreamMapAt(streams, i);
    }
  }

  /** The stream-map loop (transmuxer.cpp 46-71): streamsList is filled with a running
      counter, and each kept stream gets a new output stream holding a copy of its
      parameters. */
  method MapStreams(input: FormatContext, out: FormatContext) returns (streamsList: array<int>)
    requires input != out && out.streams == []
    modifies out`streams
    ensures fresh(streamsList)
    ensures streamsList[..] == StreamMap(input.streams)
    ensures out.streams == OutputStreams(input.streams)
  {
    var numStreams := |input.streams|;
    streamsList := new int[numStreams];
    var streamIndex := 0;
    for i := 0 to numStreams
      invariant streamIndex == KeptCount(input.streams[..i])
      invariant streamsList[..i] == StreamMap(input.streams[..i])
      invariant out.streams == OutputStreams(input.streams[..i])
    {
      ghost var before := input.streams[..i];
      assert input.streams[..i + 1][..i] == before;
      var inStream := input.streams[i];
      if !Kept(inStream) {
        streamsList[i] := -1;
        assert streamsList[..i + 1] == streamsList[..i] + [-1];
        continue;
      }
      streamsList[i] := streamIndex;
      assert streamsList[..i + 1] == streamsList[..i] + [streamIndex];
      streamIndex := streamIndex + 1;
      var index := out.NewStream();
      out.SetParameters(index, inStream.codecpar);
    }
    assert input.streams[..numStreams] == input.streams;
    assert streamsList[..numStreams] == streamsList[..];
  }

  // ---------------------------------------------------------------------------------------
  // The copy loop (transmuxer.cpp 95-133)

  /** What the copy loop reads besides the packets: streamsList (numStreams entries, one per
      stream found before the map was built), the input streams as av_read_frame leaves
      them (those and any it added while reading) and the output streams (whose time bases
      the rescale uses). */
  datatype Copy = Copy(streamMap: seq<int>, inputs: seq<Stream>, outputs: seq<Stream>)

  /** The map has an entry per stream found before it was built, which are the first input
      streams, and sends each to -1 or to an output stream. Time bases may be anything. */
  predicate CopyValid(c: Copy) {
    |c.streamMap| <= |c.inputs| &&
    (forall i | 0 <= i < |c.streamMap| :: -1 <= c.streamMap[i] < |c.outputs|)
  }

  /** What av_read_frame hands out: a packet of one of the input streams, with int64
      timestamps. */
  predicate PacketFits(c: Copy, p: Packet) {
    0 <= p.streamIndex < |c.inputs| && TimesInInt64(p)
  }

  predicate PacketsFit(c: Copy, ps: seq<Packet>) {
    forall k | 0 <= k < |ps| :: PacketFits(c, ps[k])
  }

  /** The test at transmuxer.cpp 107: the packet belongs to a stream added after the map
      was built, or to a dropped one. */
  predicate Discarded(c: Copy, p: Packet)
    requires CopyValid(c) && PacketFits(c, p)
  {
    p.streamIndex >= |c.streamMap| || c.streamMap[p.streamIndex] < 0
  }

  /** A kept packet as it is written (transmuxer.cpp 113-121): the output stream index from
      the map, pts and dts rescaled to the output stream's time base with AV_ROUND_NEAR_INF |
      AV_ROUND_PASS_MINMAX, the duration with av_rescale_q, and an unknown position. Between
      time bases av_rescale_rnd refuses (a zero or negative product) every time becomes
      INT64_MIN. */
  function Remapped(c: Copy, p: Packet): (q: Packet)
    requires CopyValid(c) && PacketFits(c, p) && !Discarded(c, p)
    ensures 0 <= q.streamIndex < |c.outputs| && q.streamIndex == c.streamMap[p.streamIndex]
    ensures q.pos == -1
    ensures Rescalable(c.inputs[p.streamIndex].timeBase, c.outputs[q.streamIndex].timeBase) ==>
      (p.pts == Int64Min || p.pts == Int64Max ==> q.pts == p.pts) &&
      (p.dts == Int64Min || p.dts == Int64Max ==> q.dts == p.dts)
    ensures !Rescalable(c.inputs[p.streamIndex].timeBase, c.outputs[q.streamIndex].timeBase) ==>
      q.pts == Int64Min && q.dts == Int64Min && q.duration == Int64Min
  {
    var inBase := c.inputs[p.streamIndex].timeBase;
    var outBase := c.outputs[c.streamMap[p.streamIndex]].timeBase;
    Packet(c.streamMap[p.streamIndex],
      RescaleQRnd(p.pts, inBase, outBase, true), RescaleQRnd(p.dts, inBase, outBase, true),
      RescaleQ(p.duration, inBase, outBase), -1)
  }

  /** Between equal time bases only the stream index and the position change (a duration of
      INT64_MIN excepted, which av_rescale_q reads as -INT64_MAX). */
  lemma RemappedSameBase(c: Copy, p: Packet)
    requires CopyValid(c) && PacketFits(c, p) && !Discarded(c, p)
    requires c.inputs[p.streamIndex].timeBase == c.outputs[c.streamMap[p.streamIndex]].timeBase
    requires Positive(c.inputs[p.streamIndex].timeBase) && p.duration != Int64Min
    ensures Remapped(c, p) == p.(streamIndex := c.streamMap[p.streamIndex], pos := -1)
  {
    var q := c.inputs[p.streamIndex].timeBase;
    RescaleSameBaseIsIdentity(p.pts, q, true);
    RescaleSameBaseIsIdentity(p.dts, q, true);
    RescaleSameBaseIsIdentity(p.duration, q, false);
  }

  /** Two packets of one stream keep their decode order (for dts values other than the two
      that AV_ROUND_PASS_MINMAX passes through, between a time base that is not negative and
      a positive one). */
  lemma RemappedKeepsDtsOrder(c: Copy, p1: Packet, p2: Packet)
    requires CopyValid(c) && PacketFits(c, p1) && PacketFits(c, p2) && !Discarded(c, p1)
    requires Source(c.inputs[p1.streamIndex].timeBase) && Positive(c.outputs[c.streamMap[p1.streamIndex]].timeBase)
    requires p1.streamIndex == p2.streamIndex && p1.dts <= p2.dts
    requires !PassedThrough(p1.dts, true) && !PassedThrough(p2.dts, true)
    ensures !Discarded(c, p2) && Remapped(c, p1).dts <= Remapped(c, p2).dts
  {
    var inBase := c.inputs[p1.streamIndex].timeBase;
    var outBase := c.outputs[c.streamMap[p1.streamIndex]].timeBase;
    RescaleIsMonotone(p1.dts, p2.dts, inBase, outBase, true);
  }

  /** The packets the copy loop writes for ps when every write succeeds: the kept ones,
      remapped, in order. */
  function Copied(c: Copy, ps: seq<Packet>): (r: seq<Packet>)
    requires CopyValid(c) && PacketsFit(c, ps)
    ensures |r| <= |ps|
  {
    if ps == [] then []
    else (if Discarded(c, ps[0]) then [] else [Remapped(c, ps[0])]) + Copied(c, ps[1..])
  }

  /** How the copy loop ends: the status it leaves in ret, the muxer, the packets still
      unread, and whether a write failed (rather than a read). */
  datatype CopyEnd = CopyEnd(status: int, sink: SinkState, rest: seq<Packet>, writeFailed: bool)

  /** The copy loop from a point on: read until av_read_frame fails (leaving its code in
      ret); discard or remap each packet and write it; the first refused write ends the loop
      with the write's code. */
  function CopyRest(c: Copy, s: SinkState, ps: seq<Packet>, readEnd: int): (r: CopyEnd)
    requires CopyValid(c) && PacketsFit(c, ps)
    ensures |r.rest| <= |ps| && r.rest == ps[|ps| - |r.rest|..]
    ensures !r.writeFailed ==> r.status == readEnd && r.rest == []
    ensures r.writeFailed ==> r.status < 0 && |r.rest| < |ps|
    decreases |ps|
  {
    if ps == [] then CopyEnd(readEnd, s, [], false)
    else if Discarded(c, ps[0]) then CopyRest(c, s, ps[1..], readEnd)
    else if WriteOn(s, Remapped(c, ps[0])).0 < 0 then
      CopyEnd(WriteOn(s, Remapped(c, ps[0])).0, WriteOn(s, Remapped(c, ps[0])).1, ps[1..], true)
    else CopyRest(c, WriteOn(s, Remapped(c, ps[0])).1, ps[1..], readEnd)
  }

  /** The packets of ps that belong to the first n input streams, in order. */
  function Announced(c: Copy, ps: seq<Packet>): (e: seq<Packet>)
    requires PacketsFit(c, ps)
    ensures |e| <= |ps| && PacketsFit(c, e)
    ensures forall k | 0 <= k < |e| :: e[k].streamIndex < |c.streamMap|
  {
    if ps == [] then []
    else (if ps[0].streamIndex < |c.streamMap| then [ps[0]] else []) + Announced(c, ps[1..])
  }

  /** The packets of streams added after the map was built (stream index numStreams or
      more) change nothing: the loop writes the same packets to the muxer and ends with the
      same status as on the input without them. */
  lemma {:induction false} CopyRestSkipsLate(c: Copy, s: SinkState, ps: seq<Packet>, readEnd: int)
    requires CopyValid(c) && PacketsFit(c, ps)
    ensures var r, r1 := CopyRest(c, s, ps, readEnd), CopyRest(c, s, Announced(c, ps), readEnd);
      r.status == r1.status && r.sink == r1.sink && r.writeFailed == r1.writeFailed
    decreases |ps|
  {
    if ps != [] {
      var e := Announced(c, ps);
      if ps[0].streamIndex >= |c.streamMap| {
        assert e == Announced(c, ps[1..]);
        CopyRestSkipsLate(c, s, ps[1..], readEnd);
      } else {
        assert e[0] == ps[0] && e[1..] == Announced(c, ps[1..]);
        if Discarded(c, ps[0]) {
          CopyRestSkipsLate(c, s, ps[1..], readEnd);
        } else if WriteOn(s, Remapped(c, ps[0])).0 >= 0 {
          CopyRestSkipsLate(c, WriteOn(s, Remapped(c, ps[0])).1, ps[1..], readEnd);
        }
      }
    }
  }

  /** No packet of a stream added after the map was built is among those copied: the copy
      of a run is the copy of its packets from announced streams. */
  lemma {:induction false} CopiedSkipsLate(c: Copy, ps: seq<Packet>)
    requires CopyValid(c) && PacketsFit(c, ps)
    ensures Copied(c, ps) == Copied(c, Announced(c, ps))
    decreases |ps|
  {
    if ps != [] {
      var e := Announced(c, ps);
      CopiedSkipsLate(c, ps[1..]);
      if ps[0].streamIndex >= |c.streamMap| {
        assert e == Announced(c, ps[1..]);
      } else {
        assert e[0] == ps[0] && e[1..] == Announced(c, ps[1..]);
      }
    }
  }

  /** Copying two runs of packets writes what copying each writes. */
  lemma {:induction false} CopiedAppend(c: Copy, a: seq<Packet>, b: seq<Packet>)
    requires CopyValid(c) && PacketsFit(c, a) && PacketsFit(c, b)
    ensures PacketsFit(c, a + b) && Copied(c, a + b) == Copied(c, a) + Copied(c, b)
    decreases |a|
  {
    assert PacketsFit(c, a + b) by {
      forall k | 0 <= k < |a + b| ensures PacketFits(c, (a + b)[k]) {
        if k < |a| { assert (a + b)[k] == a[k]; } else { assert (a + b)[k] == b[k - |a|]; }
      }
    }
    if a == [] {
      assert a + b == b;
    } else {
      assert (a + b)[0] == a[0] && (a + b)[1..] == a[1..] + b;
      CopiedAppend(c, a[1..], b);
    }
  }

  /** Every packet the loop writes has an output stream index and an unknown position. */
  lemma {:induction false} CopiedAreRemapped(c: Copy, ps: seq<Packet>)
    requires CopyValid(c) && PacketsFit(c, ps)
    ensures forall k | 0 <= k < |Copied(c, ps)| ::
      0 <= Copied(c, ps)[k].streamIndex < |c.outputs| && Copied(c, ps)[k].pos == -1
    decreases |ps|
  {
    if ps != [] {
      CopiedAreRemapped(c, ps[1..]);
    }
  }

  /** A discarded packet adds nothing to what is written; a kept one adds itself, remapped. */
  lemma CopiedOne(c: Copy, ps: seq<Packet>, p: Packet)
    requires CopyValid(c) && PacketsFit(c, ps) && PacketFits(c, p)
    ensures PacketsFit(c, ps + [p])
    ensures Discarded(c, p) ==> Copied(c, ps + [p]) == Copied(c, ps)
    ensures !Discarded(c, p) ==> Copied(c, ps + [p]) == Copied(c, ps) + [Remapped(c, p)]
  {
    CopiedAppend(c, ps, [p]);
    assert [p][1..] == [];
  }

  /** The muxer accepts the first n writes (an exhausted queue accepts). */
  predicate Accepts(results: seq<Status>, n: nat) {
    forall k | 0 <= k < n && k < |results| :: results[k] == 0
  }

  /** The copy loop ends on a refused write exactly when the muxer refuses one of the kept
      packets; otherwise it ends with the read's end code (CopyRest's contract). */
  lemma {:induction false} CopyRestFails(c: Copy, s: SinkState, ps: seq<Packet>, readEnd: int)
    requires CopyValid(c) && PacketsFit(c, ps)
    ensures CopyRest(c, s, ps, readEnd).writeFailed <==> !Accepts(s.writeResults, |Copied(c, ps)|)
    decreases |ps|
  {
    if ps != [] {
      var p := ps[0];
      if Discarded(c, p) {
        CopyRestFails(c, s, ps[1..], readEnd);
      } else if WriteOn(s, Remapped(c, p)).0 == 0 {
        CopyRestFails(c, WriteOn(s, Remapped(c, p)).1, ps[1..], readEnd);
        AcceptsStep(s, Remapped(c, p), |Copied(c, ps[1..])|);
      }
    }
  }

  /** What the copy loop writes when no write fails: every kept packet, remapped. */
  predicate WritesAll(c: Copy, s: SinkState, ps: seq<Packet>, readEnd: int)
    requires CopyValid(c) && PacketsFit(c, ps)
  {
    EndsAll(c, s.written, ps, CopyRest(c, s, ps, readEnd))
  }

  /** A loop end r reached from the log w over ps: when no write failed, every kept packet
      was written after w. */
  predicate EndsAll(c: Copy, w: seq<Packet>, ps: seq<Packet>, r: CopyEnd)
    requires CopyValid(c) && PacketsFit(c, ps)
  {
    !r.writeFailed ==> r.sink.written == w + Copied(c, ps)
  }

  /** What the copy loop writes when a write fails: the packet refused is a kept one, and
      the kept packets before it are written. */
  predicate WritesBefore(c: Copy, s: SinkState, ps: seq<Packet>, readEnd: int)
    requires CopyValid(c) && PacketsFit(c, ps)
  {
    EndsBefore(c, s.written, ps, CopyRest(c, s, ps, readEnd))
  }

  /** A loop end r reached from the log w over ps: when a write failed, it failed on a kept
      packet, with the kept packets before it written after w. */
  predicate EndsBefore(c: Copy, w: seq<Packet>, ps: seq<Packet>, r: CopyEnd)
    requires CopyValid(c) && PacketsFit(c, ps)
  {
    r.writeFailed ==>
      |r.rest| < |ps| && !Discarded(c, ps[|ps| - |r.rest| - 1]) &&
      r.sink.written == w + Copied(c, ps[..|ps| - |r.rest| - 1])
  }

  lemma {:induction false} CopyRestWrites(c: Copy, s: SinkState, ps: seq<Packet>, readEnd: int)
    requires CopyValid(c) && PacketsFit(c, ps)
    ensures WritesAll(c, s, ps, readEnd) && WritesBefore(c, s, ps, readEnd)
    decreases |ps|
  {
    if ps == [] {
    } else if Discarded(c, ps[0]) {
      CopyRestWrites(c, s, ps[1..], readEnd);
      CopyRestAfterDiscard(c, s, ps, readEnd);
      BeforeAfterDiscard(c, s, ps, readEnd);
    } else if WriteOn(s, Remapped(c, ps[0])).0 < 0 {
      assert ps[..0] == [];
    } else {
      var s1 := WriteOn(s, Remapped(c, ps[0])).1;
      CopyRestWrites(c, s1, ps[1..], readEnd);
      AllAfterWrite(c, s, s1, ps, readEnd);
      BeforeAfterWrite(c, s, s1, ps, readEnd);
    }
  }

  /** Copying a prefix of ps, one packet at a time. */
  lemma CopiedCons(c: Copy, ps: seq<Packet>, n: nat)
    requires CopyValid(c) && PacketsFit(c, ps) && 1 <= n <= |ps|
    ensures Copied(c, ps[..n]) ==
      (if Discarded(c, ps[0]) then [] else [Remapped(c, ps[0])]) + Copied(c, ps[1..][..n - 1])
  {
    assert ps[..n][0] == ps[0] && ps[..n][1..] == ps[1..][..n - 1];
  }

  /** The muxer accepts a first write and the n after it exactly when it accepts n + 1. */
  lemma AcceptsStep(s: SinkState, p: Packet, n: nat)
    requires WriteOn(s, p).0 == 0
    ensures Accepts(s.writeResults, n + 1) <==> Accepts(WriteOn(s, p).1.writeResults, n)
  {
    var t := WriteOn(s, p).1.writeResults;
    if s.writeResults != [] {
      assert t == s.writeResults[1..] && s.writeResults[0] == 0;
      assert Accepts(t, n) ==> Accepts(s.writeResults, n + 1) by {
        if Accepts(t, n) {
          forall k | 0 <= k < n + 1 && k < |s.writeResults| ensures s.writeResults[k] == 0 {
            if k > 0 { assert s.writeResults[k] == t[k - 1]; }
          }
        }
      }
    }
  }

  /** A discarded packet is skipped: the loop goes on with the rest of the packets. */
  lemma CopyRestAfterDiscard(c: Copy, s: SinkState, ps: seq<Packet>, readEnd: int)
    requires CopyValid(c) && PacketsFit(c, ps) && ps != [] && Discarded(c, ps[0])
    ensures PacketsFit(c, ps[1..])
    ensures CopyRest(c, s, ps, readEnd) == CopyRest(c, s, ps[1..], readEnd)
    ensures Copied(c, ps) == Copied(c, ps[1..])
  {
  }

  lemma BeforeAfterDiscard(c: Copy, s: SinkState, ps: seq<Packet>, readEnd: int)
    requires CopyValid(c) && PacketsFit(c, ps) && ps != [] && Discarded(c, ps[0])
    requires WritesBefore(c, s, ps[1..], readEnd)
    ensures WritesBefore(c, s, ps, readEnd)
  {
    CopyRestAfterDiscard(c, s, ps, readEnd);
    EndsBeforeAfterDiscard(c, ps, s.written, CopyRest(c, s, ps[1..], readEnd));
  }

  /** A loop end one discarded packet earlier. */
  lemma EndsBeforeAfterDiscard(c: Copy, ps: seq<Packet>, w: seq<Packet>, r: CopyEnd)
    requires CopyValid(c) && PacketsFit(c, ps) && ps != [] && Discarded(c, ps[0])
    requires EndsBefore(c, w, ps[1..], r)
    ensures EndsBefore(c, w, ps, r)
  {
    if r.writeFailed {
      var n := |ps| - |r.rest| - 1;
      assert ps[1..][n - 1] == ps[n];
      CopiedCons(c, ps, n);
    }
  }

  /** After an accepted write the loop goes on with the rest of the packets. */
  lemma CopyRestAfterWrite(c: Copy, s: SinkState, s1: SinkState, ps: seq<Packet>, readEnd: int)
    requires CopyValid(c) && PacketsFit(c, ps) && ps != [] && !Discarded(c, ps[0])
    requires WriteOn(s, Remapped(c, ps[0])) == (0, s1)
    ensures PacketsFit(c, ps[1..])
    ensures CopyRest(c, s, ps, readEnd) == CopyRest(c, s1, ps[1..], readEnd)
  {
  }

  lemma AllAfterWrite(c: Copy, s: SinkState, s1: SinkState, ps: seq<Packet>, readEnd: int)
    requires CopyValid(c) && PacketsFit(c, ps) && ps != [] && !Discarded(c, ps[0])
    requires WriteOn(s, Remapped(c, ps[0])) == (0, s1)
    requires WritesAll(c, s1, ps[1..], readEnd)
    ensures WritesAll(c, s, ps, readEnd)
  {
    CopyRestAfterWrite(c, s, s1, ps, readEnd);
    EndsAllAfterWrite(c, ps, s.written, s1.written, CopyRest(c, s1, ps[1..], readEnd));
  }

  /** A loop end one accepted write earlier: w1 is w with the first packet written. */
  lemma EndsAllAfterWrite(c: Copy, ps: seq<Packet>, w: seq<Packet>, w1: seq<Packet>, r: CopyEnd)
    requires CopyValid(c) && PacketsFit(c, ps) && ps != [] && !Discarded(c, ps[0])
    requires w1 == w + [Remapped(c, ps[0])]
    requires EndsAll(c, w1, ps[1..], r)
    ensures EndsAll(c, w, ps, r)
  {
    var q := Remapped(c, ps[0]);
    var tail := Copied(c, ps[1..]);
    assert Copied(c, ps) == [q] + tail;
    assert (w + [q]) + tail == w + ([q] + tail);
  }

  lemma BeforeAfterWrite(c: Copy, s: SinkState, s1: SinkState, ps: seq<Packet>, readEnd: int)
    requires CopyValid(c) && PacketsFit(c, ps) && ps != [] && !Discarded(c, ps[0])
    requires WriteOn(s, Remapped(c, ps[0])) == (0, s1)
    requires WritesBefore(c, s1, ps[1..], readEnd)
    ensures WritesBefore(c, s, ps, readEnd)
  {
    CopyRestAfterWrite(c, s, s1, ps, readEnd);
    EndsBeforeAfterWrite(c, ps, s.written, s1.written, CopyRest(c, s1, ps[1..], readEnd));
  }

  /** A loop end one accepted write earlier: w1 is w with the first packet written. */
  lemma EndsBeforeAfterWrite(c: Copy, ps: seq<Packet>, w: seq<Packet>, w1: seq<Packet>, r: CopyEnd)
    requires CopyValid(c) && PacketsFit(c, ps) && ps != [] && !Discarded(c, ps[0])
    requires w1 == w + [Remapped(c, ps[0])]
    requires EndsBefore(c, w1, ps[1..], r)
    ensures EndsBefore(c, w, ps, r)
  {
    if r.writeFailed {
      var n := |ps| - |r.rest| - 1;
      var q := Remapped(c, ps[0]);
      var tail := Copied(c, ps[1..][..n - 1]);
      assert ps[1..][n - 1] == ps[n];
      CopiedCons(c, ps, n);
      assert (w + [q]) + tail == w + ([q] + tail);
    }
  }

  /** The copy loop (transmuxer.cpp 95-133): it does what CopyRest computes from the
      packets still to be read; failed tells whether a write (rather than the read) ended
      it. */
  method CopyPackets(input: FormatContext, out: FormatContext, streamsList: array<int>)
    returns (ret: int, ghost failed: bool)
    requires input != out && input.readEnd < 0
    requires CopyValid(Copy(streamsList[..], input.AllStreams(), out.streams))
    requires PacketsFit(Copy(streamsList[..], input.AllStreams(), out.streams), input.pending)
    modifies input`pending, out`writeResults, out`written
    ensures CopyRest(Copy(streamsList[..], input.AllStreams(), out.streams), old(out.Sink()), old(input.pending), input.readEnd)
      == CopyEnd(ret, out.Sink(), input.pending, failed)
  {
    ghost var c := Copy(streamsList[..], input.AllStreams(), out.streams);
    ghost var goal := CopyRest(c, out.Sink(), input.pending, input.readEnd);
    while true
      invariant PacketsFit(c, input.pending)
      invariant goal == CopyRest(c, out.Sink(), input.pending, input.readEnd)
      decreases |input.pending|
    {
      ghost var ps := input.pending;
      var status, packet := input.Read();
      if status < 0 {
        return status, false;
      }
      assert packet == ps[0] && input.pending == ps[1..];
      var inStream := input.AllStreams()[packet.streamIndex];
      if packet.streamIndex >= streamsList.Length || streamsList[packet.streamIndex] < 0 {
        continue;
      }
      ghost var original := packet;
      packet := packet.(streamIndex := streamsList[packet.streamIndex]);
      var outStream := out.streams[packet.streamIndex];
      packet := packet.(pts := RescaleQRnd(packet.pts, inStream.timeBase, outStream.timeBase, true));
      packet := packet.(dts := RescaleQRnd(packet.dts, inStream.timeBase, outStream.timeBase, true));
      packet := packet.(duration := RescaleQ(packet.duration, inStream.timeBase, outStream.timeBase));
      packet := packet.(pos := -1);
      assert packet == Remapped(c, original);
      status := out.WriteInterleaved(packet);
      if status < 0 {
        return status, true;
      }
    }
  }

  // ---------------------------------------------------------------------------------------
  // transmux and cleanUp (transmuxer.cpp 10-157)

  /** What opening the input yields: the codes avformat_open_input and
      avformat_find_stream_info return, and the container. */
  datatype Opening = Opening(openResult: Status, infoResult: Status, file: InputFile)

  /** What a transmux run finds: the input, and the muxer avformat_alloc_output_context2
      finds for the output path (None: it leaves the context NULL). */
  datatype Setting = Setting(input: Opening, output: Option<OutputTarget>)

  /** What the engine guarantees: the input ends with a negative code, and av_read_frame
      hands out packets with int64 timestamps of the streams found when the input was
      opened or of those it added while reading. */
  predicate SettingValid(st: Setting) {
    st.input.file.readEnd < 0 &&
    forall k | 0 <= k < |st.input.file.packets| ::
      0 <= st.input.file.packets[k].streamIndex < |st.input.file.AllStreams()| && TimesInInt64(st.input.file.packets[k])
  }

  /** What the copy loop of a run that gets that far reads: the stream map of the streams
      found when the input was opened, every input stream, and the output streams as the
      header left them. */
  function CopyOf(file: InputFile, target: OutputTarget): Copy {
    Copy(StreamMap(file.streams), file.AllStreams(), Retimed(OutputStreams(file.streams), target.retime))
  }

  lemma CopyOfValid(st: Setting)
    requires SettingValid(st) && st.output.Some?
    ensures CopyValid(CopyOf(st.input.file, st.output.value))
    ensures PacketsFit(CopyOf(st.input.file, st.output.value), st.input.file.packets)
  {
    var streams := st.input.file.streams;
    forall i | 0 <= i < |streams|
      ensures -1 <= StreamMap(streams)[i] < KeptCount(streams)
    {
      StreamMapInRange(streams, i);
    }
  }

  /** cleanUp's status mapping (transmuxer.cpp 151-156): 1 for an error, 0 for success or
      the end of the input. */
  function ExitStatus(ret: int): (e: int)
    ensures e == 0 || e == 1
    ensures e == 1 <==> ret < 0 && ret != ErrEof
  {
    if ret < 0 && ret != ErrEof then 1 else 0
  }

  /** How a transmux run ends, given whether the output context it starts with is NULL (a
      fresh Transmuxer) or the one an earlier run freed. Every failure before the copy loop
      ends in undefined behaviour: cleanUp reads the muxer of a NULL output context, frees a
      freed one, or is not followed by a return, so the header write or the first read uses
      what it released. A run that reaches the copy loop returns the exit status of the
      status that ended it. */
  function TransmuxOutcome(st: Setting, outputWasNull: bool): (o: Outcome)
    requires SettingValid(st)
    ensures o.Returned? <==>
      st.input.openResult == 0 && st.input.infoResult == 0 && st.output.Some? &&
      (st.output.value.needsFile ==> st.output.value.fileOpens) && st.output.value.headerResult == 0
    ensures o.Returned? ==> o.code == 0 || o.code == 1
  {
    if st.input.openResult < 0 || st.input.infoResult < 0 then
      (if outputWasNull then Undefined(NullOutputContext) else Undefined(UseAfterCleanUp))
    else if st.output.None? then Undefined(NullOutputContext)
    else if st.output.value.needsFile && !st.output.value.fileOpens then Undefined(UseAfterCleanUp)
    else if st.output.value.headerResult < 0 then Undefined(UseAfterCleanUp)
    else
      CopyOfValid(st);
      Returned(ExitStatus(CopyRest(CopyOf(st.input.file, st.output.value),
        SinkState(st.output.value.writeResults, []), st.input.file.packets, st.input.file.readEnd).status))
  }

  /** What a run that reaches the copy loop leaves in the output's log. */
  function TransmuxWritten(st: Setting): seq<Packet>
    requires SettingValid(st) && st.output.Some?
  {
    CopyOfValid(st);
    CopyRest(CopyOf(st.input.file, st.output.value), SinkState(st.output.value.writeResults, []),
      st.input.file.packets, st.input.file.readEnd).sink.written
  }

  /** When the muxer takes every packet, the exit status says how the input ended: 0 for
      AVERROR_EOF, 1 for a read error; and the output holds every packet of a kept stream,
      remapped, in input order. */
  lemma TransmuxCopiesAll(st: Setting, outputWasNull: bool)
    requires SettingValid(st) && TransmuxOutcome(st, outputWasNull).Returned?
    requires CopyValid(CopyOf(st.input.file, st.output.value))
    requires PacketsFit(CopyOf(st.input.file, st.output.value), st.input.file.packets)
    requires Accepts(st.output.value.writeResults, |Copied(CopyOf(st.input.file, st.output.value), st.input.file.packets)|)
    ensures TransmuxOutcome(st, outputWasNull) == Returned(if st.input.file.readEnd == ErrEof then 0 else 1)
    ensures TransmuxWritten(st) == Copied(CopyOf(st.input.file, st.output.value), st.input.file.packets)
  {
    var c := CopyOf(st.input.file, st.output.value);
    var s := SinkState(st.output.value.writeResults, []);
    CopyRestFails(c, s, st.input.file.packets, st.input.file.readEnd);
    CopyRestWrites(c, s, st.input.file.packets, st.input.file.readEnd);
    assert s.written + Copied(c, st.input.file.packets) == Copied(c, st.input.file.packets);
  }

  /** The Transmuxer object: its two context members, NULL until a run sets them. */
  class Transmuxer {
    var input: FormatContext?
    var output: FormatContext?

    /** Between runs: the input context is NULL (avformat_close_input resets it) and the
        output context is NULL or a freed one (avformat_free_context does not reset it). */
    predicate Valid()
      reads this, output
    {
      input == null && (output != null ==> output.released)
    }

    constructor ()
      ensures Valid() && output == null
    {
      input, output := null, null;
    }

    /** cleanUp (transmuxer.cpp 139-157): closes the input, then tests the output context
        with an inverted NULL check, so a NULL context is dereferenced and a live one never
        has its file closed; frees the output context (a second time, for one an earlier
        call freed); maps ret to the exit status. */
    method CleanUp(ret: int) returns (o: Outcome)
      requires input != null ==> input != output
      modifies this`input, input, output
      ensures input == null && output == old(output)
      ensures output != null ==>
        output.fileOpen == old(output.fileOpen) && output.written == old(output.written) &&
        output.trailerWritten == old(output.trailerWritten)
      ensures old(input) != null ==> old(input).released
      ensures output == null ==> o == Undefined(NullOutputContext)
      ensures output != null && old(output.released) ==> o == Undefined(UseAfterCleanUp)
      ensures output != null && !old(output.released) ==> o == Returned(ExitStatus(ret)) && output.released
    {
      if input != null {
        input.released := true;
      }
      input := null;
      if output == null {
        // the test reads output->oformat->flags
        return Undefined(NullOutputContext);
      }
      if output.released {
        // avformat_free_context on a context already freed
        return Undefined(UseAfterCleanUp);
      }
      output.released := true;
      o := Returned(ExitStatus(ret));
    }

    /** Everything a run leaves ready for the copy loop. */
    ghost predicate ReadyToCopy(st: Setting, streamsList: array<int>)
      requires SettingValid(st)
      reads this, input, output, streamsList
    {
      st.output.Some? && input != null && output != null && input != output &&
      input.streams == st.input.file.streams && input.late == st.input.file.late &&
      input.pending == st.input.file.packets &&
      input.readEnd == st.input.file.readEnd &&
      streamsList[..] == StreamMap(st.input.file.streams) &&
      output.streams == Retimed(OutputStreams(st.input.file.streams), st.output.value.retime) &&
      output.Sink() == SinkState(st.output.value.writeResults, []) &&
      output.fileOpen == output.needsFile && !output.released
    }

    /** The contexts as avformat_open_input and avformat_alloc_output_context2 leave them. */
    ghost predicate Opened(st: Setting)
      requires SettingValid(st)
      reads this, input, output
    {
      st.output.Some? && input != null && output != null && input != output &&
      input.streams == st.input.file.streams && input.late == st.input.file.late &&
      input.pending == st.input.file.packets &&
      input.readEnd == st.input.file.readEnd &&
      output.streams == [] && output.Sink() == SinkState(st.output.value.writeResults, []) &&
      output.needsFile == st.output.value.needsFile && output.fileOpens == st.output.value.fileOpens &&
      output.headerResult == st.output.value.headerResult && output.retime == st.output.value.retime &&
      !output.fileOpen && !output.released
    }

    /** transmux up to the allocation of the output (transmuxer.cpp 19-36). ended: the run
        ends here, with o. */
    method OpenContexts(st: Setting) returns (ended: bool, o: Outcome)
      requires SettingValid(st) && Valid()
      modifies this, output
      ensures ended ==> o == TransmuxOutcome(st, old(output) == null) && o.Undefined?
      ensures !ended ==> st.input.openResult == 0 && st.input.infoResult == 0
      ensures !ended ==> fresh(input) && fresh(output) && Opened(st)
    {
      ended := true;
      if st.input.openResult < 0 {
        o := CleanUp(st.input.openResult);
        return;
      }
      input := new FormatContext.OpenInput(st.input.file);
      if st.input.infoResult < 0 {
        o := CleanUp(st.input.infoResult);
        return;
      }
      if st.output.None? {
        output := null;
        o := CleanUp(ErrUnknown);
        return;
      }
      output := new FormatContext.AllocOutput(st.output.value);
      ended, o := false, Returned(0);
    }

    /** transmux from the stream map to the header (transmuxer.cpp 38-92). */
    method PrepareOutput(st: Setting) returns (ended: bool, o: Outcome, streamsList: array<int>)
      requires SettingValid(st) && Opened(st) && st.input.openResult == 0 && st.input.infoResult == 0
      modifies this`input, input, output
      ensures ended ==> o == TransmuxOutcome(st, false) && o.Undefined?
      ensures !ended ==> TransmuxOutcome(st, false).Returned?
      ensures !ended ==> fresh(streamsList) && input == old(input) && ReadyToCopy(st, streamsList)
    {
      streamsList := MapStreams(input, output);
      var ret := 0;
      if output.needsFile {
        ret := output.OpenFile();
        if ret < 0 {
          var ignored := CleanUp(ret);
          // no return: avformat_write_header gets the freed output context
          return true, Undefined(UseAfterCleanUp), streamsList;
        }
      }
      ret := output.WriteHeader(map[]);
      if ret < 0 {
        var ignored := CleanUp(ret);
        // no return: av_read_frame gets the input context cleanUp closed
        return true, Undefined(UseAfterCleanUp), streamsList;
      }
      ended, o := false, Returned(0);
    }

    /** transmux (transmuxer.cpp 10-137): set up, copy the packets, write the trailer and
        clean up. */
    method Transmux(st: Setting) returns (o: Outcome)
      requires SettingValid(st) && Valid()
      modifies this, output
      ensures o == TransmuxOutcome(st, old(output) == null)
      ensures o.Returned? ==>
        Valid() && output != null && fresh(output) && output.trailerWritten &&
        output.written == TransmuxWritten(st) && output.fileOpen == output.needsFile
    {
      var ended, streamsList;
      ended, o := OpenContexts(st);
      if ended {
        return;
      }
      ended, o, streamsList := PrepareOutput(st);
      if ended {
        return;
      }
      CopyOfValid(st);
      assert Copy(streamsList[..], input.AllStreams(), output.streams) == CopyOf(st.input.file, st.output.value);
      var ret;
      ghost var failed;
      ret, failed := CopyPackets(input, output, streamsList);
      output.WriteTrailer();
      o := CleanUp(ret);
    }
  }
}
