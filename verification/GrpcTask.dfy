/** The task spawned for a gRPC decode stream: one decoder at a time, segment after segment
    (src/grpc.rs). */
module GrpcTask {
  import opened Prelude
  import opened Decoder
  import opened Session
  import opened Handle
  import opened Options
  import opened GrpcSegments
  import opened GrpcDrain
  import opened GrpcHandler
  import opened GrpcAnswers

  /** The decoder of a segment, fed with the segment's messages. */
  ghost predicate Holds(codecs: Codecs, run: Served, h: PooledDecoder)
    reads h
  {
    && h.codec == CodecOf(codecs, run.seg) && Using(h, NonEmptyOf(run.seg.feeds))
    && FedOf(codecs, run).next == Some(Next(h.d, h.schedule))
  }

  /** A decoder for a segment with no message yet. */
  method NewDecoder(codecs: Codecs, options: DecodeOptions, schedule: seq<Turn>) returns (h: PooledDecoder)
    ensures fresh(h) && Holds(codecs, Served(Segment(options, []), schedule), h)
  {
    h := new PooledDecoder(CodecOf(codecs, Segment(options, [])), schedule);
    assert NonEmptyOf([]) == [];
  }

  /** Draining completes the answer to a segment. */
  lemma FinishAnswers(codecs: Codecs, run: Served, a: Answer)
    requires var fed := FedOf(codecs, run);
      && fed.next.Some?
      && a == match SendAt(CodecOf(codecs, run.seg), fed.next.value.d, fed.next.value.rest, [])
              case None => Answer([], Cut)
              case Some(ended) =>
                Finish(CodecOf(codecs, run.seg), [], DrainAt(CodecOf(codecs, run.seg), ended.d, ended.rest, 0))
    ensures AnswerOf(codecs, run) == Answer(FedOf(codecs, run).chunks + a.chunks, a.end)
  {
    var fed := FedOf(codecs, run).chunks;
    assert fed + [] == fed;
    assert forall r: Drained :: [] + r.chunks == r.chunks;
  }

  /** Feeding one message's data to a segment's decoder and collecting what is ready. */
  method FeedDecoder(h: PooledDecoder, data: Bytes, ghost codecs: Codecs, ghost run: Served)
      returns (go: bool, chunks: seq<Bytes>)
    requires Holds(codecs, run, h)
    modifies h
    ensures go ==> Holds(codecs, Longer(run, data), h)
    ensures FedOf(codecs, Longer(run, data)).chunks == FedOf(codecs, run).chunks + chunks
    ensures go <==> FedOf(codecs, Longer(run, data)).next.Some?
  {
    ghost var feeds, before := run.seg.feeds, NonEmptyOf(run.seg.feeds);
    FeedAllAppend(h.codec, run.plan, feeds, data);
    assert (feeds + [data])[..|feeds|] == feeds;
    go, chunks := true, [];
    if data != [] {
      go := SendData(h, data, before);
      if !go { return; }
    }
    assert data == [] ==> before + [] == before;
    go, chunks := CollectAvailable(h, before + if data == [] then [] else [data]);
  }

  /** The options and the segments after one more message, given the options then. */
  function OptionsAfter(defaults: DecodeOptions, options: DecodeOptions, first: bool, m: Message): DecodeOptions {
    if (first || m.newSegment) && m.options.Some? then Resolve(m.options.value, defaults) else options
  }

  function SegmentsAfter(segs: seq<Segment>, options: DecodeOptions, m: Message): seq<Segment> {
    if segs == [] || m.newSegment then Extended(segs + [Segment(options, [])], m.data) else Extended(segs, m.data)
  }

  /** They are those of the stream's meaning; and a task that stops before feeding the message
      stands at the segments before it. */
  lemma AfterMessage(defaults: DecodeOptions, before: seq<Message>, m: Message, segs: seq<Segment>, closing: bool)
    ensures var segs0, options := Segments(defaults, before), CurrentOptions(defaults, before);
      var options1 := OptionsAfter(defaults, options, segs0 == [], m);
      && Segments(defaults, before + [m]) == SegmentsAfter(segs0, options1, m)
      && CurrentOptions(defaults, before + [m]) == options1
      && (segs == segs0 && (segs0 == [] || m.newSegment) ==>
           Reached(segs, Segments(defaults, before + [m]), true) && |segs| < |Segments(defaults, before + [m])|)
      && (segs == Segments(defaults, before + [m]) ==> Reached(segs, Segments(defaults, before + [m]), false))
  {
    var segs0, options := Segments(defaults, before), CurrentOptions(defaults, before);
    NextOf(defaults, before, m);
    if segs0 == [] || m.newSegment { StartStages(defaults, options, segs0, m); }
  }

  lemma NextOf(defaults: DecodeOptions, before: seq<Message>, m: Message)
    ensures var segs, options := Segments(defaults, before), CurrentOptions(defaults, before);
      && Segments(defaults, before + [m]) == NextSegments(defaults, options, segs, m)
      && CurrentOptions(defaults, before + [m]) == NextOptions(defaults, options, segs, m)
  {
    var all := before + [m];
    assert all[..|before|] == before && all[..|before| + 1] == all;
    OneMoreMessage(defaults, all, |before|);
  }

  /** Where a stop leaves the segments begun, against those of the stream. */
  predicate StopsWithin(segs: seq<Segment>, closing: bool, outcome: Outcome, outOfTurns: bool, all: seq<Segment>) {
    && Reached(segs, all, closing) && (closing ==> |segs| < |all|)
    && (outcome.NoDecoder? || (outcome.Suspended? && !outOfTurns) ==> closing && |segs| < |all|)
  }

  lemma StopsWithinLater(segs: seq<Segment>, closing: bool, outcome: Outcome, outOfTurns: bool,
                         all: seq<Segment>, later: seq<Segment>)
    requires StopsWithin(segs, closing, outcome, outOfTurns, all) && Reached(all, later, false)
    ensures StopsWithin(segs, closing, outcome, outOfTurns, later)
  {
    ReachedTransitive(segs, all, later, closing);
  }

  /** The payloads sent, and the status after them if there is one. */
  function Answered(sent: seq<Bytes>, status: bool): seq<Response> {
    if status then Responses(sent) + [ResourceExhausted] else Responses(sent)
  }

  class Task {
    const codecs: Codecs
    const defaults: DecodeOptions
    var current: PooledDecoder?
    var options: DecodeOptions
    var responses: seq<Response>
    var room: nat
    var decoders: Decoders
    ghost const given: Decoders
    ghost const capacity: nat
    ghost var runs: seq<Served>
    ghost var closing: bool
    ghost var sent: seq<Bytes>

    /** `room` is how many responses the client still takes; `decoders` what the pool gives. */
    constructor (codecs: Codecs, defaults: DecodeOptions, decoders: Decoders, room: nat)
      ensures this.codecs == codecs && this.defaults == defaults && given == decoders && capacity == room
      ensures Idle() && runs == [] && options == defaults
    {
      this.codecs, this.defaults, this.decoders, this.room := codecs, defaults, decoders, room;
      current, options, responses := null, defaults, [];
      given, capacity, runs, closing, sent := decoders, room, [], true, [];
    }

    /** The responses are the payloads sent, and the rest of the supply is as the segments so
        far have left it. */
    ghost predicate Books()
      reads this
    {
      && responses == Responses(sent) && |sent| + room == capacity
      && Given(runs, given) && decoders == given[|runs|..]
    }

    ghost function Segs(): seq<Segment>
      reads this
    {
      SegmentsOf(runs)
    }

    /** No decoder is held; all segments so far are answered to their end. */
    ghost predicate Idle()
      reads this
    {
      Books() && current == null && closing && Settled(codecs, runs, sent)
    }

    /** The last segment's decoder is held, and what it has brought is sent. */
    ghost predicate Busy()
      reads this, current
    {
      && Books() && current != null && !closing && Feeding(codecs, runs, sent)
      && Holds(codecs, runs[|runs| - 1], current)
    }

    /** How the task has stopped: with the payloads sent, and at most one status after them. */
    ghost predicate Stopped(outcome: Outcome)
      reads this
    {
      && StopsAt(codecs, given, capacity, runs, closing, sent, outcome)
      && responses == Answered(sent, outcome.NoDecoder? && |sent| < capacity)
    }

    ghost predicate StoppedWithin(outcome: Outcome, all: seq<Segment>)
      reads this
    {
      && Stopped(outcome) && !outcome.ShutDown?
      && StopsWithin(Segs(), closing, outcome, OutOfTurns(codecs, runs, closing), all)
    }

    /** Sending collected chunks as long as the client takes them: the first `n` of them. */
    method SendAll(chunks: seq<Bytes>) returns (ok: bool, n: nat)
      modifies this`responses, this`room
      ensures n <= |chunks| && room == old(room) - n && (if ok then n == |chunks| else n < |chunks| && room == 0)
      ensures responses == old(responses) + Responses(chunks[..n])
    {
      n := 0;
      while n < |chunks|
        invariant n <= |chunks| && room == old(room) - n && responses == old(responses) + Responses(chunks[..n])
      {
        if room == 0 { return false, n; }
        ResponsesAppend(chunks[..n], chunks[n]);
        assert chunks[..n + 1] == chunks[..n] + [chunks[n]];
        responses, room := responses + [PcmData(chunks[n])], room - 1;
        n := n + 1;
      }
      ok := true;
    }

    /** Sending chunks behind what has been sent. */
    method Deliver(chunks: seq<Bytes>) returns (ok: bool)
      requires responses == Responses(sent) && |sent| + room == capacity
      modifies this`responses, this`room, this`sent
      ensures responses == Responses(sent) && |sent| + room == capacity
      ensures if ok then sent == old(sent) + chunks else SentSome(old(sent), chunks, sent, capacity)
    {
      var n;
      ok, n := SendAll(chunks);
      ResponsesConcat(sent, chunks[..n]);
      assert sent + chunks[..n] <= sent + chunks;
      assert ok ==> chunks[..n] == chunks;
      sent := sent + chunks[..n];
    }

    /** Sending what the last segment's drain collected. */
    method Conclude(a: Answer) returns (outcome: Outcome)
      requires Books() && closing && Feeding(codecs, runs, sent)
      requires var run := runs[|runs| - 1];
        AnswerOf(codecs, run) == Answer(FedOf(codecs, run).chunks + a.chunks, a.end)
      modifies this`responses, this`room, this`sent
      ensures if outcome.Completed? then Books() && Settled(codecs, runs, sent) else Stopped(outcome)
      ensures outcome.Suspended? ==> OutOfTurns(codecs, runs, closing)
      ensures outcome.Completed? || outcome.SinkClosed? || outcome.Suspended?
    {
      ghost var before := sent;
      FinishingGoesOn(codecs, given, capacity, runs, a, before, before);
      if a.end.Cut? { return Suspended; }
      var ok := Deliver(a.chunks);
      FinishingGoesOn(codecs, given, capacity, runs, a, before, sent);
      outcome := if ok then Completed else SinkClosed;
    }

    /** Draining the held decoder, dropping it, and sending what the drain collected. */
    method FinishSegment() returns (outcome: Outcome)
      requires Busy()
      modifies this`current, this`closing, this`responses, this`room, this`sent, current
      ensures closing && (if outcome.Completed? then Idle() && !old(current).d.alive else Stopped(outcome))
      ensures outcome.Suspended? ==> OutOfTurns(codecs, runs, closing)
      ensures outcome.Completed? || outcome.SinkClosed? || outcome.Suspended?
    {
      var h := current;
      ghost var run := runs[|runs| - 1];
      var a := DrainAndDrop(h, NonEmptyOf(run.seg.feeds));
      FinishAnswers(codecs, run, a);
      current, closing := null, true;
      outcome := Conclude(a);
    }

    /** Acquiring a decoder with the options in force, for a segment with no data yet. */
    method Acquire() returns (outcome: Outcome)
      requires Idle()
      modifies this
      ensures options == old(options)
      ensures if outcome.Completed? then
          Busy() && fresh(current) && Segs() == old(Segs()) + [Segment(options, [])]
        else Stopped(outcome) && closing && runs == old(runs)
      ensures outcome.Completed? || outcome.NoDecoder? || outcome.Suspended?
    {
      SettledStops(codecs, given, capacity, runs, sent);
      if decoders == [] { return Suspended; }
      var next := decoders[0];
      if next.None? {
        if room > 0 {
          responses, room := responses + [ResourceExhausted], room - 1;
        }
        return NoDecoder;
      }
      Begin(next.value);
      outcome := Completed;
    }

    method Begin(schedule: seq<Turn>)
      requires Idle() && decoders != [] && decoders[0] == Some(schedule)
      modifies this`current, this`decoders, this`runs, this`closing
      ensures Busy() && fresh(current) && Segs() == old(Segs()) + [Segment(options, [])]
    {
      var h := NewDecoder(codecs, options, schedule);
      Enroll(Served(Segment(options, []), schedule));
      current, decoders := h, decoders[1..];
    }

    /** The books, with one more segment. */
    ghost method Enroll(run: Served)
      requires Books() && Settled(codecs, runs, sent) && decoders != [] && decoders[0] == Some(run.plan)
      requires run.seg.feeds == []
      modifies this`runs, this`closing
      ensures !closing && Feeding(codecs, runs, sent) && Given(runs, given) && runs == old(runs) + [run]
      ensures decoders[1..] == given[|runs|..] && Segs() == old(Segs()) + [run.seg]
    {
      assert given[|runs|..][0] == given[|runs|] && given[|runs|..][1..] == given[|runs| + 1..];
      BeginningGoesOn(codecs, given, runs, run, sent);
      runs, closing := runs + [run], false;
    }

    /** Feeding a message's data, if it has any, to the held decoder, and collecting what has
        been decoded so far. */
    method FeedLast(m: Message) returns (go: bool, chunks: seq<Bytes>)
      requires Busy()
      modifies this`runs, current
      ensures Books() && Bringing(codecs, runs, sent, chunks) && go == !OutOfTurns(codecs, runs, false)
      ensures Segs() == Extended(old(Segs()), m.data)
      ensures go ==> Holds(codecs, runs[|runs| - 1], current)
    {
      ghost var run := runs[|runs| - 1];
      go, chunks := FeedDecoder(current, m.data, codecs, run);
      Grow(m.data, chunks);
    }

    /** The books, with one more message in the last segment. */
    ghost method Grow(data: Bytes, chunks: seq<Bytes>)
      requires Books() && Feeding(codecs, runs, sent)
      requires var run := runs[|runs| - 1];
        FedOf(codecs, Longer(run, data)).chunks == FedOf(codecs, run).chunks + chunks
      modifies this`runs
      ensures Books() && Bringing(codecs, runs, sent, chunks) && runs == Grown(old(runs), data)
      ensures Segs() == Extended(old(Segs()), data)
    {
      GrownBrings(codecs, given, runs, data, sent, chunks);
      runs := Grown(runs, data);
    }

    /** Feeding a message's data, and passing on what has been decoded so far. */
    method FeedAndPassOn(m: Message) returns (outcome: Outcome)
      requires Busy()
      modifies this`responses, this`room, this`sent, this`runs, current
      ensures Segs() == Extended(old(Segs()), m.data)
      ensures if outcome.Completed? then Busy() else Stopped(outcome)
      ensures outcome.Completed? || outcome.SinkClosed? || (outcome.Suspended? && OutOfTurns(codecs, runs, closing))
    {
      var go, chunks := FeedLast(m);
      outcome := PassOn(go, chunks);
    }

    /** Sending what feeding one more message to the last segment's decoder has brought. */
    method PassOn(go: bool, chunks: seq<Bytes>) returns (outcome: Outcome)
      requires Books() && !closing && Bringing(codecs, runs, sent, chunks) && go == !OutOfTurns(codecs, runs, false)
      requires current != null && (go ==> Holds(codecs, runs[|runs| - 1], current))
      modifies this`responses, this`room, this`sent
      ensures if outcome.Completed? then Busy() else Stopped(outcome)
      ensures outcome.Suspended? ==> OutOfTurns(codecs, runs, closing)
      ensures outcome.Completed? || outcome.SinkClosed? || outcome.Suspended?
    {
      ghost var before := sent;
      BringingGoesOn(codecs, given, capacity, runs, chunks, before, before);
      if !go { return Suspended; }
      var ok := Deliver(chunks);
      BringingGoesOn(codecs, given, capacity, runs, chunks, before, sent);
      outcome := if ok then Completed else SinkClosed;
    }

    /** The segment-starting half of handling a message: finish the segment before, settle the
        options, acquire a decoder. */
    method StartSegment(m: Message) returns (outcome: Outcome)
      requires Idle() || Busy()
      modifies this, current
      ensures if outcome.Completed? then
          && Busy() && fresh(current)
          && options == (if m.options.Some? then Resolve(m.options.value, defaults) else old(options))
          && Segs() == old(Segs()) + [Segment(options, [])]
        else Stopped(outcome) && closing && runs == old(runs) && !outcome.ShutDown?
    {
      if current != null {
        outcome := FinishSegment();
        if !outcome.Completed? { return; }
      }
      if m.options.Some? { options := Resolve(m.options.value, defaults); }
      outcome := Acquire();
    }

    /** One message: in a segment of its own, if it starts one, then feeding. */
    method Handle(m: Message) returns (outcome: Outcome)
      requires (Idle() && runs == []) || Busy()
      modifies this, current
      ensures outcome.Completed? ==>
        && Busy() && (current == old(current) || fresh(current))
        && options == OptionsAfter(defaults, old(options), old(runs) == [], m)
        && Segs() == SegmentsAfter(old(Segs()), options, m)
      ensures !outcome.Completed? ==> Stopped(outcome) && !outcome.ShutDown?
      ensures !outcome.Completed? && closing ==> (old(runs) == [] || m.newSegment) && runs == old(runs)
      ensures !outcome.Completed? && !closing ==>
        && Segs() == SegmentsAfter(old(Segs()), options, m)
        && options == OptionsAfter(defaults, old(options), old(runs) == [], m)
        && (outcome.SinkClosed? || (outcome.Suspended? && OutOfTurns(codecs, runs, closing)))
    {
      if m.newSegment || current == null {
        outcome := StartSegment(m);
        if !outcome.Completed? { return; }
      }
      outcome := FeedAndPassOn(m);
    }

    /** The given messages have been handled. */
    ghost predicate At(msgs: seq<Message>)
      reads this, current
    {
      && Segs() == Segments(defaults, msgs) && options == CurrentOptions(defaults, msgs)
      && (if msgs == [] then Idle() && runs == [] else Busy())
    }

    /** One message, after the messages before it. */
    method OnMessage(m: Message, ghost before: seq<Message>) returns (outcome: Outcome)
      requires At(before)
      modifies this, current
      ensures outcome.Completed? ==> At(before + [m]) && (current == old(current) || fresh(current))
      ensures !outcome.Completed? ==> StoppedWithin(outcome, Segments(defaults, before + [m]))
    {
      outcome := Handle(m);
      AfterMessage(defaults, before, m, Segs(), closing);
    }

    /** Between two messages the server shuts down. */
    ghost method StopNow(msgs: seq<Message>)
      requires At(msgs)
      ensures Stopped(ShutDown) && (!closing || runs == [])
    {
      if msgs == [] {
        SettledStops(codecs, given, capacity, runs, sent);
      } else {
        FeedingStops(codecs, given, capacity, runs, sent);
      }
    }

    method OnNext(ghost msgs: seq<Message>, i: nat, m: Message) returns (outcome: Outcome)
      requires i < |msgs| && m == msgs[i] && At(msgs[..i])
      modifies this, current
      ensures outcome.Completed? ==> At(msgs[..i + 1]) && (current == old(current) || fresh(current))
      ensures !outcome.Completed? ==> StoppedWithin(outcome, Segments(defaults, msgs))
    {
      assert msgs[..i] + [m] == msgs[..i + 1];
      EarlierIsReached(defaults, msgs, i + 1);
      outcome := OnMessage(m, msgs[..i]);
      if !outcome.Completed? {
        StopsWithinLater(Segs(), closing, outcome, OutOfTurns(codecs, runs, closing),
                         Segments(defaults, msgs[..i + 1]), Segments(defaults, msgs));
      }
    }

    /** The task's loop: `Completed` when the stream has ended. */
    method Pump(events: seq<Event>, ghost msgs: seq<Message>) returns (outcome: Outcome)
      requires Idle() && runs == [] && options == defaults && msgs == Messages(events)
      modifies this
      ensures outcome.Completed? ==> At(msgs) && (current == null || fresh(current))
      ensures !outcome.Completed? && !outcome.ShutDown? ==> StoppedWithin(outcome, Segments(defaults, msgs))
      ensures outcome.Completed? || outcome.ShutDown? ==> ShutsDown(events) == outcome.ShutDown?
      ensures outcome.ShutDown? ==>
        Stopped(ShutDown) && Segs() == Segments(defaults, msgs) && (!closing || runs == [])
    {
      var i := 0;
      NothingHandledYet(events, msgs);
      while i < |events| && events[i].Msg?
        invariant MessagesLeft(events, msgs, i) && At(msgs[..i]) && (current == null || fresh(current))
        decreases |events| - i
      {
        NextMessage(events, msgs, i);
        outcome := OnNext(msgs, i, events[i].m);
        if !outcome.Completed? { return; }
        i := i + 1;
      }
      NoMessageLeft(events, msgs, i);
      if i < |events| && events[i].Cancelled? {
        StopNow(msgs);
        return ShutDown;
      }
      outcome := Completed;
    }

    /** The last segment is answered when the stream has ended. */
    method Close(ghost msgs: seq<Message>) returns (outcome: Outcome)
      requires At(msgs)
      modifies this, current
      ensures Stopped(outcome) && closing && Segs() == Segments(defaults, msgs)
      ensures outcome.Completed? || outcome.SinkClosed? || (outcome.Suspended? && OutOfTurns(codecs, runs, closing))
    {
      outcome := Completed;
      if current != null { outcome := FinishSegment(); }
      if outcome.Completed? { SettledStops(codecs, given, capacity, runs, sent); }
    }

    /** The task. Whatever the schedules, what it sends is a beginning of the answer to its
        stream: a block for each segment, in order and never interleaved, as the segment's own
        decoder and schedule bring it. It stops before the end only on a shutdown, a refused
        decoder, a client that takes no more, or a schedule that is used up. */
    method Run(events: seq<Event>) returns (outcome: Outcome)
      requires Idle() && runs == [] && options == defaults
      modifies this
      ensures TaskEnds(codecs, defaults, events, given, capacity, sent, |runs|, outcome)
      ensures responses == Answered(sent, outcome.NoDecoder? && |sent| < capacity)
    {
      ghost var msgs := Messages(events);
      outcome := Pump(events, msgs);
      if outcome.Completed? { outcome := Close(msgs); }
      StopIsEnd(codecs, defaults, events, given, capacity, runs, closing, sent, outcome);
    }
  }

  /** From the i-th event on, the messages are those from the i-th message on. */
  predicate MessagesLeft(events: seq<Event>, msgs: seq<Message>, i: nat) {
    i <= |events| && i <= |msgs| && msgs[i..] == Messages(events[i..])
  }

  lemma NothingHandledYet(events: seq<Event>, msgs: seq<Message>)
    requires msgs == Messages(events)
    ensures MessagesLeft(events, msgs, 0) && msgs[..0] == []
  {
    assert events[0..] == events && msgs[0..] == msgs;
  }

  lemma NextMessage(events: seq<Event>, msgs: seq<Message>, i: nat)
    requires MessagesLeft(events, msgs, i) && i < |events| && events[i].Msg?
    ensures i < |msgs| && msgs[i] == events[i].m && MessagesLeft(events, msgs, i + 1)
  {
    assert events[i..][1..] == events[i + 1..];
    assert msgs[i..][1..] == msgs[i + 1..];
    assert msgs[i..][0] == events[i].m;
  }

  lemma NoMessageLeft(events: seq<Event>, msgs: seq<Message>, i: nat)
    requires MessagesLeft(events, msgs, i) && (i == |events| || !events[i].Msg?)
    ensures |msgs| == i && msgs[..i] == msgs
  {
    assert msgs[i..] == [];
  }
}
