/** What a gRPC decode stream is answered with, as a function of its messages, the decoders
    the pool gives it and their schedules (src/grpc.rs): one block for each segment, in order. */
module GrpcAnswers {
  import opened Prelude
  import opened Decoder
  import opened Session
  import opened Handle
  import opened Options
  import opened GrpcSegments
  import opened GrpcDrain

  /** What the task selects on: a message, a stream error, or the server's shutdown. The end
      of the list is the end of the stream. */
  datatype Event = Msg(m: Message) | StreamError | Cancelled

  datatype Response = PcmData(data: Bytes) | ResourceExhausted

  datatype Outcome = Completed | ShutDown | SinkClosed | NoDecoder | Suspended

  type Codecs = DecodeOptions -> Codec

  /** The pipeline of a segment: that of the options the segment was begun with. */
  function CodecOf(codecs: Codecs, seg: Segment): Codec {
    codecs(seg.options)
  }

  /** What the pool gives to each acquire: the schedule of a decoder, or a refusal. */
  type Decoders = seq<Option<seq<Turn>>>

  function Messages(events: seq<Event>): seq<Message> {
    if events == [] || !events[0].Msg? then [] else [events[0].m] + Messages(events[1..])
  }

  function Responses(chunks: seq<Bytes>): (r: seq<Response>)
    ensures |r| == |chunks|
  {
    seq(|chunks|, i requires 0 <= i < |chunks| => PcmData(chunks[i]))
  }

  lemma ResponsesConcat(a: seq<Bytes>, b: seq<Bytes>)
    ensures Responses(a + b) == Responses(a) + Responses(b)
  {
  }

  lemma ResponsesAppend(chunks: seq<Bytes>, chunk: Bytes)
    ensures Responses(chunks + [chunk]) == Responses(chunks) + [PcmData(chunk)]
  {
  }

  // ---------------------------------------------------------------- the answer to a stream

  /** The schedule of the k-th decoder; without a decoder there are no turns. */
  function PlanFor(decoders: Decoders, k: nat): seq<Turn> {
    if k < |decoders| && decoders[k].Some? then decoders[k].value else []
  }

  /** The answer to a segment by the k-th decoder. */
  function AnswerTo(codecs: Codecs, seg: Segment, decoders: Decoders, k: nat): Answer {
    SegmentAnswer(CodecOf(codecs, seg), PlanFor(decoders, k), seg.feeds)
  }

  /** All answers, one after the other. */
  function Expected(codecs: Codecs, segs: seq<Segment>, decoders: Decoders): seq<Bytes> {
    if segs == [] then []
    else
      var n := |segs| - 1;
      Expected(codecs, segs[..n], decoders) + AnswerTo(codecs, segs[n], decoders, n).chunks
  }

  /** No segment's schedule is used up before its answer. */
  predicate Ended(codecs: Codecs, segs: seq<Segment>, decoders: Decoders) {
    segs == [] ||
    var n := |segs| - 1;
    !AnswerTo(codecs, segs[n], decoders, n).end.Cut? && Ended(codecs, segs[..n], decoders)
  }

  lemma {:induction false} EndedAt(codecs: Codecs, segs: seq<Segment>, decoders: Decoders, k: nat)
    requires Ended(codecs, segs, decoders) && k < |segs|
    ensures !AnswerTo(codecs, segs[k], decoders, k).end.Cut?
    decreases |segs|
  {
    if k < |segs| - 1 { EndedAt(codecs, segs[..|segs| - 1], decoders, k); }
  }

  /** What a segment decodes to, as the payloads to be sent. */
  function SegmentPayloads(codecs: Codecs, seg: Segment): seq<Bytes> {
    Payloads(Decode(CodecOf(codecs, seg), NonEmptyOf(seg.feeds)))
  }

  function AllPayloads(codecs: Codecs, segs: seq<Segment>): seq<Bytes> {
    if segs == [] then [] else AllPayloads(codecs, segs[..|segs| - 1]) + SegmentPayloads(codecs, segs[|segs| - 1])
  }

  /** Each segment's block is a beginning of what that segment alone decodes to, and all of it
      where its drain ended whole. */
  lemma BlockIsSound(codecs: Codecs, seg: Segment, decoders: Decoders, k: nat)
    ensures var r := AnswerTo(codecs, seg, decoders, k);
      && r.chunks <= SegmentPayloads(codecs, seg)
      && (r.end.Whole? ==> r.chunks == SegmentPayloads(codecs, seg))
  {
    SegmentIsSound(CodecOf(codecs, seg), PlanFor(decoders, k), seg.feeds);
  }

  /** Every segment's block is all that the segment decodes to. */
  predicate NothingMissing(codecs: Codecs, segs: seq<Segment>, decoders: Decoders) {
    segs == [] ||
    var n := |segs| - 1;
    && AnswerTo(codecs, segs[n], decoders, n).chunks == SegmentPayloads(codecs, segs[n])
    && NothingMissing(codecs, segs[..n], decoders)
  }

  predicate AllWhole(codecs: Codecs, segs: seq<Segment>, decoders: Decoders) {
    segs == [] ||
    var n := |segs| - 1;
    AnswerTo(codecs, segs[n], decoders, n).end.Whole? && AllWhole(codecs, segs[..n], decoders)
  }

  lemma {:induction false} NotMoreThanDecoded(codecs: Codecs, segs: seq<Segment>, decoders: Decoders)
    ensures |Expected(codecs, segs, decoders)| <= |AllPayloads(codecs, segs)|
    ensures |Expected(codecs, segs, decoders)| == |AllPayloads(codecs, segs)| ==> NothingMissing(codecs, segs, decoders)
    ensures NothingMissing(codecs, segs, decoders) ==> Expected(codecs, segs, decoders) == AllPayloads(codecs, segs)
    ensures AllWhole(codecs, segs, decoders) ==> NothingMissing(codecs, segs, decoders)
  {
    if segs != [] {
      var n := |segs| - 1;
      NotMoreThanDecoded(codecs, segs[..n], decoders);
      BlockIsSound(codecs, segs[n], decoders, n);
    }
  }

  /** Under its schedule, every segment's audio is taken before the segment's drain gives up. */
  ghost predicate AllTaken(codecs: Codecs, segs: seq<Segment>, decoders: Decoders) {
    segs == [] ||
    var n := |segs| - 1;
    && SegmentTakesAll(CodecOf(codecs, segs[n]), PlanFor(decoders, n), segs[n].feeds)
    && AllTaken(codecs, segs[..n], decoders)
  }

  lemma {:induction false} NothingMissingIff(codecs: Codecs, segs: seq<Segment>, decoders: Decoders)
    ensures NothingMissing(codecs, segs, decoders) <==> AllTaken(codecs, segs, decoders)
  {
    if segs != [] {
      var n := |segs| - 1;
      NothingMissingIff(codecs, segs[..n], decoders);
      SegmentIsWholeIff(CodecOf(codecs, segs[n]), PlanFor(decoders, n), segs[n].feeds);
    }
  }

  /** A stream is answered with everything its segments decode to if and only if, under the
      schedules, every segment's audio is taken in time; whole drains suffice. */
  lemma CompleteIff(codecs: Codecs, segs: seq<Segment>, decoders: Decoders)
    ensures Expected(codecs, segs, decoders) == AllPayloads(codecs, segs) <==> AllTaken(codecs, segs, decoders)
    ensures AllWhole(codecs, segs, decoders) ==> AllTaken(codecs, segs, decoders)
  {
    NotMoreThanDecoded(codecs, segs, decoders);
    NothingMissingIff(codecs, segs, decoders);
  }

  /** The decoders that cut every segment short. */
  function Cutting(segs: seq<Segment>): (given: Decoders)
    ensures |given| == |segs|
  {
    if segs == [] then [] else Cutting(segs[..|segs| - 1]) + [Some(CuttingPlan(segs[|segs| - 1].feeds))]
  }

  lemma {:induction false} MoreDecoders(codecs: Codecs, segs: seq<Segment>, given: Decoders, more: Decoders)
    requires |segs| <= |given|
    ensures Expected(codecs, segs, given + more) == Expected(codecs, segs, given)
    ensures Ended(codecs, segs, given + more) == Ended(codecs, segs, given)
  {
    if segs != [] {
      var n := |segs| - 1;
      MoreDecoders(codecs, segs[..n], given, more);
      assert PlanFor(given + more, n) == PlanFor(given, n);
    }
  }

  lemma LastCutShort(codecs: Codecs, seg: Segment, before: Decoders)
    ensures AnswerTo(codecs, seg, before + [Some(CuttingPlan(seg.feeds))], |before|) == Answer([], GaveUp)
  {
    assert PlanFor(before + [Some(CuttingPlan(seg.feeds))], |before|) == CuttingPlan(seg.feeds);
    CutShort(CodecOf(codecs, seg), seg.feeds);
  }

  lemma {:induction false} AllCutShort(codecs: Codecs, segs: seq<Segment>)
    ensures Expected(codecs, segs, Cutting(segs)) == [] && Ended(codecs, segs, Cutting(segs))
  {
    if segs != [] {
      var n := |segs| - 1;
      var before, last := Cutting(segs[..n]), CuttingPlan(segs[n].feeds);
      assert Cutting(segs) == before + [Some(last)];
      AllCutShort(codecs, segs[..n]);
      MoreDecoders(codecs, segs[..n], before, [Some(last)]);
      LastCutShort(codecs, segs[n], before);
    }
  }

  /** All segments are answered to their end, and the stream is not answered with everything. */
  predicate StreamLosesAudio(codecs: Codecs, segs: seq<Segment>, given: Decoders) {
    Ended(codecs, segs, given) && Expected(codecs, segs, given) != AllPayloads(codecs, segs)
  }

  /** A stream can lose audio if and only if it has any. */
  lemma StreamCanLoseAudioIff(codecs: Codecs, segs: seq<Segment>)
    ensures (exists given :: StreamLosesAudio(codecs, segs, given)) <==> AllPayloads(codecs, segs) != []
  {
    if AllPayloads(codecs, segs) != [] {
      AllCutShort(codecs, segs);
      assert StreamLosesAudio(codecs, segs, Cutting(segs));
    } else {
      forall given ensures !StreamLosesAudio(codecs, segs, given) {
        NotMoreThanDecoded(codecs, segs, given);
      }
    }
  }

  // ---------------------------------------------------------------- the answer so far

  /** A segment with the schedule of its decoder. */
  datatype Served = Served(seg: Segment, plan: seq<Turn>)

  function AnswerOf(codecs: Codecs, run: Served): Answer {
    SegmentAnswer(CodecOf(codecs, run.seg), run.plan, run.seg.feeds)
  }

  function FedOf(codecs: Codecs, run: Served): Collected {
    FeedAll(CodecOf(codecs, run.seg), run.plan, run.seg.feeds)
  }

  function Told(codecs: Codecs, runs: seq<Served>): seq<Bytes> {
    if runs == [] then [] else Told(codecs, runs[..|runs| - 1]) + AnswerOf(codecs, runs[|runs| - 1]).chunks
  }

  /** Every segment's drain and drop came to their end. */
  predicate AllEnded(codecs: Codecs, runs: seq<Served>) {
    runs == [] || (!AnswerOf(codecs, runs[|runs| - 1]).end.Cut? && AllEnded(codecs, runs[..|runs| - 1]))
  }

  function SegmentsOf(runs: seq<Served>): (segs: seq<Segment>)
    ensures |segs| == |runs|
  {
    if runs == [] then [] else SegmentsOf(runs[..|runs| - 1]) + [runs[|runs| - 1].seg]
  }

  lemma OneMoreRun(codecs: Codecs, runs: seq<Served>, run: Served)
    ensures (runs + [run])[..|runs|] == runs
    ensures SegmentsOf(runs + [run]) == SegmentsOf(runs) + [run.seg]
    ensures Told(codecs, runs + [run]) == Told(codecs, runs) + AnswerOf(codecs, run).chunks
    ensures AllEnded(codecs, runs + [run]) <==> !AnswerOf(codecs, run).end.Cut? && AllEnded(codecs, runs)
  {
    assert (runs + [run])[..|runs|] == runs;
  }

  predicate Given(runs: seq<Served>, decoders: Decoders) {
    |runs| <= |decoders| &&
    (runs == [] || (decoders[|runs| - 1] == Some(runs[|runs| - 1].plan) && Given(runs[..|runs| - 1], decoders)))
  }

  /** What the segments so far offer: the last one only what its messages brought, unless it is
      being finished. */
  function Offer(codecs: Codecs, runs: seq<Served>, closing: bool): seq<Bytes> {
    if runs == [] then []
    else
      var n := |runs| - 1;
      Told(codecs, runs[..n]) + if closing then AnswerOf(codecs, runs[n]).chunks else FedOf(codecs, runs[n]).chunks
  }

  /** The last decoder's schedule is used up. */
  predicate OutOfTurns(codecs: Codecs, runs: seq<Served>, closing: bool) {
    runs != [] &&
    var last := runs[|runs| - 1];
    if closing then AnswerOf(codecs, last).end.Cut? else FedOf(codecs, last).next.None?
  }

  /** How the task stops, told from its segments so far. */
  predicate StopsAt(codecs: Codecs, given: Decoders, capacity: nat, runs: seq<Served>, closing: bool,
                    sent: seq<Bytes>, outcome: Outcome) {
    && Given(runs, given) && |sent| <= capacity
    && sent <= Offer(codecs, runs, closing)
    && (runs != [] ==> AllEnded(codecs, runs[..|runs| - 1]) && Told(codecs, runs[..|runs| - 1]) <= sent)
    && match outcome
       case Completed => AllEnded(codecs, runs) && sent == Told(codecs, runs)
       case SinkClosed => |sent| == capacity < |Offer(codecs, runs, closing)|
       case NoDecoder =>
         AllEnded(codecs, runs) && sent == Told(codecs, runs) && |runs| < |given| && given[|runs|].None?
       case Suspended => OutOfTurns(codecs, runs, closing) || (|runs| == |given| && Settled(codecs, runs, sent))
       case ShutDown => sent == Offer(codecs, runs, closing)
  }

  /** All segments so far are answered to their end. */
  predicate Settled(codecs: Codecs, runs: seq<Served>, sent: seq<Bytes>) {
    AllEnded(codecs, runs) && sent == Told(codecs, runs)
  }

  /** All but the last are, and of the last what its messages have brought is sent. */
  predicate Feeding(codecs: Codecs, runs: seq<Served>, sent: seq<Bytes>) {
    runs != [] &&
    var n := |runs| - 1;
    && AllEnded(codecs, runs[..n])
    && sent == Told(codecs, runs[..n]) + FedOf(codecs, runs[n]).chunks
  }

  /** Some of these chunks have been sent, and the client takes no more. */
  predicate SentSome(before: seq<Bytes>, chunks: seq<Bytes>, sent: seq<Bytes>, capacity: nat) {
    before <= sent <= before + chunks && |sent| == capacity < |before| + |chunks|
  }

  lemma {:induction false} SettledStops(codecs: Codecs, given: Decoders, capacity: nat,
                                        runs: seq<Served>, sent: seq<Bytes>)
    requires Settled(codecs, runs, sent) && Given(runs, given) && |sent| <= capacity
    ensures StopsAt(codecs, given, capacity, runs, true, sent, Completed)
    ensures StopsAt(codecs, given, capacity, runs, true, sent, ShutDown)
    ensures |runs| == |given| ==> StopsAt(codecs, given, capacity, runs, true, sent, Suspended)
    ensures |runs| < |given| && given[|runs|].None? ==> StopsAt(codecs, given, capacity, runs, true, sent, NoDecoder)
  {
  }

  lemma {:induction false} FeedingStops(codecs: Codecs, given: Decoders, capacity: nat,
                                        runs: seq<Served>, sent: seq<Bytes>)
    requires Feeding(codecs, runs, sent) && Given(runs, given) && |sent| <= capacity
    ensures StopsAt(codecs, given, capacity, runs, false, sent, ShutDown)
  {
  }

  /** Finishing the last segment, with the answer its drain and drop come to. */
  lemma {:induction false} FinishingGoesOn(codecs: Codecs, given: Decoders, capacity: nat,
                                           runs: seq<Served>, a: Answer, before: seq<Bytes>, sent: seq<Bytes>)
    requires Feeding(codecs, runs, before) && Given(runs, given) && |before| <= capacity
    requires var last := runs[|runs| - 1];
      AnswerOf(codecs, last) == Answer(FedOf(codecs, last).chunks + a.chunks, a.end)
    ensures a.end.Cut? ==>
      OutOfTurns(codecs, runs, true) && StopsAt(codecs, given, capacity, runs, true, before, Suspended)
    ensures !a.end.Cut? && sent == before + a.chunks ==> Settled(codecs, runs, sent)
    ensures SentSome(before, a.chunks, sent, capacity) ==>
      StopsAt(codecs, given, capacity, runs, true, sent, SinkClosed)
  {
    var n := |runs| - 1;
    var told, fed := Told(codecs, runs[..n]), FedOf(codecs, runs[n]).chunks;
    Assoc(told, fed, a.chunks);
    if SentSome(before, a.chunks, sent, capacity) { assert told <= before <= sent; }
  }

  /** All but the last are, and of what the last one's messages have brought these chunks are
      still to be sent. */
  predicate Bringing(codecs: Codecs, runs: seq<Served>, sent: seq<Bytes>, chunks: seq<Bytes>) {
    runs != [] &&
    var n := |runs| - 1;
    && AllEnded(codecs, runs[..n]) && Told(codecs, runs[..n]) <= sent
    && sent + chunks == Told(codecs, runs[..n]) + FedOf(codecs, runs[n]).chunks
  }

  /** Sending them, or not being able to. */
  lemma {:induction false} BringingGoesOn(codecs: Codecs, given: Decoders, capacity: nat, runs: seq<Served>,
                                          chunks: seq<Bytes>, before: seq<Bytes>, sent: seq<Bytes>)
    requires Bringing(codecs, runs, before, chunks) && Given(runs, given) && |before| <= capacity
    ensures OutOfTurns(codecs, runs, false) ==> StopsAt(codecs, given, capacity, runs, false, before, Suspended)
    ensures sent == before + chunks ==> Feeding(codecs, runs, sent)
    ensures SentSome(before, chunks, sent, capacity) ==>
      StopsAt(codecs, given, capacity, runs, false, sent, SinkClosed)
  {
    if SentSome(before, chunks, sent, capacity) { assert Told(codecs, runs[..|runs| - 1]) <= before <= sent; }
  }

  /** A new segment, with no message yet. */
  lemma {:induction false} BeginningGoesOn(codecs: Codecs, given: Decoders,
      runs: seq<Served>, run: Served, sent: seq<Bytes>)
    requires Settled(codecs, runs, sent) && Given(runs, given) && run.seg.feeds == []
    requires |runs| < |given| && given[|runs|] == Some(run.plan)
    ensures Feeding(codecs, runs + [run], sent) && Given(runs + [run], given)
    ensures SegmentsOf(runs + [run]) == SegmentsOf(runs) + [run.seg]
  {
    OneMoreRun(codecs, runs, run);
    assert FedOf(codecs, run).chunks == [];
    assert Told(codecs, runs) + [] == Told(codecs, runs);
  }

  /** A segment, and the last of some, with one more message's data. */
  function Longer(run: Served, data: Bytes): Served {
    run.(seg := run.seg.(feeds := run.seg.feeds + [data]))
  }

  function Grown(runs: seq<Served>, data: Bytes): seq<Served>
    requires runs != []
  {
    runs[|runs| - 1 := Longer(runs[|runs| - 1], data)]
  }

  /** One more message of the last segment, and what feeding it brings. */
  lemma {:induction false} GrownBrings(codecs: Codecs, given: Decoders, runs: seq<Served>, data: Bytes,
                                       sent: seq<Bytes>, chunks: seq<Bytes>)
    requires Feeding(codecs, runs, sent) && Given(runs, given)
    requires FedOf(codecs, Longer(runs[|runs| - 1], data)).chunks == FedOf(codecs, runs[|runs| - 1]).chunks + chunks
    ensures Bringing(codecs, Grown(runs, data), sent, chunks) && Given(Grown(runs, data), given)
    ensures SegmentsOf(Grown(runs, data)) == Extended(SegmentsOf(runs), data)
  {
    var n := |runs| - 1;
    var grown := Grown(runs, data);
    assert grown[..n] == runs[..n];
    ExtendedLast(SegmentsOf(runs[..n]), runs[n].seg, data);
    Assoc(Told(codecs, runs[..n]), FedOf(codecs, runs[n]).chunks, chunks);
  }

  // ---------------------------------------------------------------- how the task ends

  /** The first event that is no message is the server's shutdown. */
  predicate ShutsDown(events: seq<Event>) {
    |Messages(events)| < |events| && events[|Messages(events)|].Cancelled?
  }

  /** What the messages of a stream have brought before its last segment is finished. */
  function Brought(codecs: Codecs, segs: seq<Segment>, decoders: Decoders): seq<Bytes> {
    if segs == [] then []
    else
      var n := |segs| - 1;
      Expected(codecs, segs[..n], decoders)
      + FeedAll(CodecOf(codecs, segs[n]), PlanFor(decoders, n), segs[n].feeds).chunks
  }

  /** How the task ends, of whose segments so many have been begun: what it sent is a beginning
      of the answer to its stream; all segments but the last begun are answered to their end;
      and each end has its cause. */
  predicate TaskEnds(codecs: Codecs, defaults: DecodeOptions, events: seq<Event>, given: Decoders, capacity: nat,
                     sent: seq<Bytes>, begun: nat, outcome: Outcome) {
    var segs := Segments(defaults, Messages(events));
    var all := Expected(codecs, segs, given);
    && begun <= |segs| && sent <= all && |sent| <= capacity
    && (begun > 0 ==> Ended(codecs, segs[..begun - 1], given) && Expected(codecs, segs[..begun - 1], given) <= sent)
    && match outcome
       case Completed => begun == |segs| && sent == all && Ended(codecs, segs, given) && !ShutsDown(events)
       case SinkClosed => |sent| == capacity < |all|
       case NoDecoder =>
         && begun < |segs| && begun < |given| && given[begun].None?
         && sent == Expected(codecs, segs[..begun], given) && Ended(codecs, segs[..begun], given)
       case Suspended =>
         || (begun > 0 && AnswerTo(codecs, segs[begun - 1], given, begun - 1).end.Cut?)
         || (&& begun < |segs| && begun == |given|
             && sent == Expected(codecs, segs[..begun], given) && Ended(codecs, segs[..begun], given))
       case ShutDown => begun == |segs| && sent == Brought(codecs, segs, given) && ShutsDown(events)
  }

  lemma {:induction false} ReachedBefore(runs: seq<Served>, segs: seq<Segment>, whole: bool)
    requires runs != [] && Reached(SegmentsOf(runs), segs, whole)
    ensures var n := |runs| - 1; SegmentsOf(runs[..n]) == segs[..n] && SegmentsOf(runs)[n] == runs[n].seg
  {
    var n := |runs| - 1;
    assert SegmentsOf(runs) == SegmentsOf(runs[..n]) + [runs[n].seg];
    forall k | 0 <= k < n ensures SegmentsOf(runs[..n])[k] == segs[..n][k] {
      assert SegmentsOf(runs)[k] == SegmentsOf(runs[..n])[k];
    }
  }

  lemma {:induction false} OneMoreExpected(codecs: Codecs, segs: seq<Segment>, seg: Segment, given: Decoders)
    ensures var r := AnswerTo(codecs, seg, given, |segs|);
      && Expected(codecs, segs + [seg], given) == Expected(codecs, segs, given) + r.chunks
      && (Ended(codecs, segs + [seg], given) <==> !r.end.Cut? && Ended(codecs, segs, given))
  {
    assert (segs + [seg])[..|segs|] == segs;
  }

  lemma {:induction false} LastIsAnswered(codecs: Codecs, runs: seq<Served>, given: Decoders)
    requires runs != [] && Given(runs, given)
    ensures var n := |runs| - 1;
      var r := AnswerTo(codecs, runs[n].seg, given, n);
      && Given(runs[..n], given) && SegmentsOf(runs) == SegmentsOf(runs[..n]) + [runs[n].seg]
      && Told(codecs, runs) == Told(codecs, runs[..n]) + r.chunks
      && (AllEnded(codecs, runs) <==> !r.end.Cut? && AllEnded(codecs, runs[..n]))
  {
  }

  lemma {:induction false} ToldIsExpected(codecs: Codecs, runs: seq<Served>, given: Decoders)
    requires Given(runs, given)
    ensures Told(codecs, runs) == Expected(codecs, SegmentsOf(runs), given)
    ensures AllEnded(codecs, runs) <==> Ended(codecs, SegmentsOf(runs), given)
    decreases |runs|
  {
    if runs != [] {
      var n := |runs| - 1;
      ToldIsExpected(codecs, runs[..n], given);
      OneMoreExpected(codecs, SegmentsOf(runs[..n]), runs[n].seg, given);
      LastIsAnswered(codecs, runs, given);
    }
  }

  lemma {:induction false} ExpectedPrefix(codecs: Codecs, segs: seq<Segment>, given: Decoders, k: nat)
    requires k <= |segs|
    ensures Expected(codecs, segs[..k], given) <= Expected(codecs, segs, given)
    decreases |segs|
  {
    if k == |segs| {
      assert segs[..k] == segs;
    } else {
      assert segs[..|segs| - 1][..k] == segs[..k];
      ExpectedPrefix(codecs, segs[..|segs| - 1], given, k);
    }
  }

  /** With the first segments answered and a part of the next answer, one is within the whole. */
  lemma {:induction false} PartIsExpected(codecs: Codecs, segs: seq<Segment>, given: Decoders, n: nat, part: seq<Bytes>)
    requires n < |segs| && part <= AnswerTo(codecs, segs[n], given, n).chunks
    ensures Expected(codecs, segs[..n], given) + part <= Expected(codecs, segs, given)
  {
    assert segs[..n + 1] == segs[..n] + [segs[n]];
    OneMoreExpected(codecs, segs[..n], segs[n], given);
    ExpectedPrefix(codecs, segs, given, n + 1);
    PrefixUnder(Expected(codecs, segs[..n], given), part, AnswerTo(codecs, segs[n], given, n).chunks,
                Expected(codecs, segs, given));
  }

  /** What the segments so far offer is a beginning of the answer to the stream, and a schedule
      used up so far cuts that answer. */
  lemma {:induction false} OfferIsExpected(codecs: Codecs, runs: seq<Served>, closing: bool,
                                           segs: seq<Segment>, given: Decoders)
    requires runs != [] && Given(runs, given) && Reached(SegmentsOf(runs), segs, closing)
    ensures Offer(codecs, runs, closing) <= Expected(codecs, segs, given)
    ensures Told(codecs, runs[..|runs| - 1]) == Expected(codecs, segs[..|runs| - 1], given)
    ensures AllEnded(codecs, runs[..|runs| - 1]) <==> Ended(codecs, segs[..|runs| - 1], given)
    ensures OutOfTurns(codecs, runs, closing) ==> AnswerTo(codecs, segs[|runs| - 1], given, |runs| - 1).end.Cut?
  {
    var n := |runs| - 1;
    ReachedBefore(runs, segs, closing);
    ToldIsExpected(codecs, runs[..n], given);
    LastOffer(codecs, runs[n], closing, segs[n], given, n);
    PartIsExpected(codecs, segs, given, n,
                   if closing then AnswerOf(codecs, runs[n]).chunks else FedOf(codecs, runs[n]).chunks);
  }

  lemma LastOffer(codecs: Codecs, run: Served, closing: bool, seg: Segment, given: Decoders, k: nat)
    requires k < |given| && given[k] == Some(run.plan) && run.seg.options == seg.options
    requires run.seg.feeds <= seg.feeds && (closing ==> run.seg == seg)
    ensures var r := AnswerTo(codecs, seg, given, k);
      if closing then AnswerOf(codecs, run) == r
      else FedOf(codecs, run).chunks <= r.chunks && (FedOf(codecs, run).next.None? ==> r.end.Cut?)
  {
    FeedingIsAnswered(CodecOf(codecs, seg), run.plan, run.seg.feeds, seg.feeds);
  }

  lemma {:induction false} BroughtLast(codecs: Codecs, segs: seq<Segment>, seg: Segment, given: Decoders)
    ensures Brought(codecs, segs + [seg], given) ==
      Expected(codecs, segs, given) + FeedAll(CodecOf(codecs, seg), PlanFor(given, |segs|), seg.feeds).chunks
  {
    assert (segs + [seg])[..|segs|] == segs;
  }

  lemma {:induction false} OfferIsBrought(codecs: Codecs, runs: seq<Served>, given: Decoders)
    requires runs != [] && Given(runs, given)
    ensures Offer(codecs, runs, false) == Brought(codecs, SegmentsOf(runs), given)
  {
    var n := |runs| - 1;
    ToldIsExpected(codecs, runs[..n], given);
    BroughtLast(codecs, SegmentsOf(runs[..n]), runs[n].seg, given);
    assert PlanFor(given, n) == runs[n].plan;
  }

  /** A stop of the task is an end in terms of the stream. */
  lemma {:induction false} StopIsEnd(codecs: Codecs, defaults: DecodeOptions, events: seq<Event>, given: Decoders,
                  capacity: nat, runs: seq<Served>, closing: bool, sent: seq<Bytes>, outcome: Outcome)
    requires StopsAt(codecs, given, capacity, runs, closing, sent, outcome)
    requires Reached(SegmentsOf(runs), Segments(defaults, Messages(events)), closing)
    requires outcome.ShutDown? ==> !closing || runs == []
    requires outcome.Completed? || outcome.ShutDown? ==>
      SegmentsOf(runs) == Segments(defaults, Messages(events)) && ShutsDown(events) == outcome.ShutDown?
    requires outcome.NoDecoder? ==> closing && |runs| < |Segments(defaults, Messages(events))|
    requires outcome.Suspended? && !OutOfTurns(codecs, runs, closing) ==>
      closing && |runs| < |Segments(defaults, Messages(events))|
    ensures TaskEnds(codecs, defaults, events, given, capacity, sent, |runs|, outcome)
  {
    var segs := Segments(defaults, Messages(events));
    if runs != [] { OfferIsExpected(codecs, runs, closing, segs, given); }
    if outcome.Completed? || outcome.NoDecoder? || outcome.Suspended? { ToldIsExpected(codecs, runs, given); }
    if closing { WhollyReached(SegmentsOf(runs), segs); }
    if outcome.ShutDown? && runs != [] { OfferIsBrought(codecs, runs, given); }
  }

  /** Decoders for all segments, none of whose schedules is used up too soon, no shutdown, and a
      client that takes everything. */
  predicate WellProvided(codecs: Codecs, defaults: DecodeOptions, events: seq<Event>, given: Decoders, capacity: nat) {
    var segs := Segments(defaults, Messages(events));
    && !ShutsDown(events)
    && capacity >= |Expected(codecs, segs, given)|
    && |given| >= |segs| && (forall k :: 0 <= k < |segs| ==> given[k].Some?)
    && Ended(codecs, segs, given)
  }

  /** Then no end but the stream's own has a cause: every decoder is there, and lasts. */
  lemma WellProvidedIsNotRefused(codecs: Codecs, defaults: DecodeOptions, events: seq<Event>, given: Decoders,
                                 capacity: nat, sent: seq<Bytes>, begun: nat)
    requires WellProvided(codecs, defaults, events, given, capacity)
    ensures !TaskEnds(codecs, defaults, events, given, capacity, sent, begun, NoDecoder)
  {
  }

  lemma WellProvidedLasts(codecs: Codecs, defaults: DecodeOptions, events: seq<Event>, given: Decoders,
                          capacity: nat, sent: seq<Bytes>, begun: nat)
    requires WellProvided(codecs, defaults, events, given, capacity)
    ensures !TaskEnds(codecs, defaults, events, given, capacity, sent, begun, Suspended)
  {
    var segs := Segments(defaults, Messages(events));
    if 0 < begun <= |segs| { EndedAt(codecs, segs, given, begun - 1); }
  }

  /** Such a stream is always answered to its end. */
  lemma WellProvidedCompletes(codecs: Codecs, defaults: DecodeOptions, events: seq<Event>, given: Decoders,
                              capacity: nat, sent: seq<Bytes>, begun: nat, outcome: Outcome)
    requires TaskEnds(codecs, defaults, events, given, capacity, sent, begun, outcome)
    requires WellProvided(codecs, defaults, events, given, capacity)
    ensures outcome.Completed? && sent == Expected(codecs, Segments(defaults, Messages(events)), given)
  {
    WellProvidedIsNotRefused(codecs, defaults, events, given, capacity, sent, begun);
    WellProvidedLasts(codecs, defaults, events, given, capacity, sent, begun);
  }
}
