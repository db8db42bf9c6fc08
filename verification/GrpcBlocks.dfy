/** When a gRPC task blocks: it and its worker can wait on two full channels for good on exactly
    the inputs on which some fair schedule does not answer a segment to its end; and what that
    means for a whole stream. */
module GrpcBlocks {
  import opened Prelude
  import opened Decoder
  import opened Session
  import opened Reach
  import opened Termination
  import opened Handle
  import opened Release
  import opened Options
  import opened GrpcSegments
  import opened GrpcDrain
  import opened GrpcFair
  import opened GrpcAnswers

  // ---------------------------------------------------------------- a schedule that blocks

  /** The pipeline makes some results visible. */
  lemma {:induction false} ShowResults(c: Codec, d: Dec, n: nat) returns (d': Dec)
    requires n <= |d.latent|
    ensures d' == Alone(c, d, Times(Pipe, n)) && |d'.ready| == |d.ready| + n
    ensures d' == d.(ready := d'.ready, latent := d'.latent)
    decreases n
  {
    if n == 0 {
      d' := d;
    } else {
      assert Times(Pipe, n)[1..] == Times(Pipe, n - 1);
      d' := ShowResults(c, PipeTurn(d), n - 1);
    }
  }

  /** The worker forwards some results, and then holds one for which there is no room. */
  lemma {:induction false} FillOutput(c: Codec, d: Dec, n: nat) returns (d': Dec)
    requires d.alive && d.worker.Drain? && |d.ready| > n && |d.output| + n == OUTPUT_CAP
    ensures d' == Alone(c, d, Times(Work(true), 2 * n + 1))
    ensures d'.alive && d'.worker.Forward? && |d'.output| == OUTPUT_CAP && d'.input == d.input
    decreases n
  {
    var d1, rest := WorkerTurn(c, d, true), Times(Work(true), 2 * n);
    assert Times(Work(true), 2 * n + 1)[1..] == rest;
    if n == 0 {
      d' := d1;
    } else {
      assert rest[1..] == Times(Work(true), 2 * n - 1);
      d' := FillOutput(c, WorkerTurn(c, d1, true), n - 1);
    }
  }

  /** The turns that fill the room for `n` results in the output channel. */
  function Filling(n: nat): seq<Turn> {
    Times(Pipe, n + 1) + Times(Work(true), 2 * n + 1)
  }

  lemma FillingSticks(c: Codec, d: Dec, n: nat)
    requires d.alive && d.worker.Drain? && |d.output| + n == OUTPUT_CAP && |d.latent| > n && |d.input| == INPUT_CAP
    ensures Stuck(Alone(c, d, Filling(n)))
  {
    var d1 := ShowResults(c, d, n + 1);
    var d2 := FillOutput(c, d1, n);
    AloneConcat(c, d, Times(Pipe, n + 1), Times(Work(true), 2 * n + 1));
  }

  lemma {:induction false} NoSendWithoutHandler(c: Codec, d: Dec, turns: seq<Turn>, m: Bytes)
    requires NoHandler(turns)
    ensures SendAt(c, d, turns, m).None?
    decreases |turns|
  {
    if turns != [] { NoSendWithoutHandler(c, EnvTurn(c, d, turns[0]), turns[1..], m); }
  }

  /** The schedule that blocks: all chunks but the last 31 are accepted and the others wait; the
      drain behind the full input channel gives up, and only then do results show. */
  function BlockingPlan(feeds: seq<Bytes>): seq<Turn>
    requires |NonEmptyOf(feeds)| + 1 >= INPUT_CAP
  {
    QuietPlan(feeds, |NonEmptyOf(feeds)| + 1 - INPUT_CAP)
    + ([Handler(true)] + (Polls(MAX_TRIES + 1) + Filling(OUTPUT_CAP)))
  }

  /** A quiet decoder holds back all results of what its pipeline has accepted. */
  lemma QuietOwes(c: Codec, d: Dec, data: seq<Bytes>, n: nat)
    requires Inv(c, d) && Quiet(d) && d.sent == data && |d.input| + n == |data|
    ensures d.latent == Emitted(c, data[..n])
  {
    assert d.sent == d.accepted + d.input;
    assert d.accepted == data[..n];
  }

  lemma FedOwes(c: Codec, plan: seq<Turn>, feeds: seq<Bytes>, at: Next, n: nat)
    requires FeedAll(c, plan, feeds).next == Some(at) && Quiet(at.d) && |at.d.input| + n == |NonEmptyOf(feeds)|
    ensures at.d.latent == Emitted(c, NonEmptyOf(feeds)[..n])
  {
    FeedAllKeeps(c, plan, feeds, NonEmptyOf(feeds));
    QuietOwes(c, at.d, NonEmptyOf(feeds), n);
  }

  lemma SomeAccepted(c: Codec, data: seq<Bytes>, n: nat)
    requires n <= |data| && Emitted(c, data[..n]) != []
    ensures n > 0
  {
    assert data[..0] == [];
  }

  lemma BlockingDecoder(c: Codec, feeds: seq<Bytes>, n: nat, rest: seq<Turn>) returns (d: Dec)
    requires n + INPUT_CAP == |NonEmptyOf(feeds)| + 1 && |Emitted(c, NonEmptyOf(feeds)[..n])| > OUTPUT_CAP
    ensures Quiet(d) && d.worker.Drain? && |d.input| == INPUT_CAP - 1 && |d.latent| > OUTPUT_CAP
    ensures FeedAll(c, QuietPlan(feeds, n) + rest, feeds) == Collected([], Some(Next(d, rest)))
  {
    SomeAccepted(c, NonEmptyOf(feeds), n);
    d := QuietFeeds(c, feeds, n, rest);
    FedOwes(c, QuietPlan(feeds, n) + rest, feeds, Next(d, rest), n);
  }

  /** The send of a drop behind full channels waits for good. */
  lemma DropWaits(c: Codec, d: Dec, n: nat, more: seq<Turn>)
    requires d.alive && d.worker.Drain? && |d.output| + n == OUTPUT_CAP && |d.latent| > n && |d.input| == INPUT_CAP
    ensures SendAt(c, d, Filling(n) + more, []).None?
  {
    NoSendWithoutHandler(c, d, Filling(n), []);
    SendGoesOn(c, d, Filling(n), [], more);
    FillingSticks(c, d, n);
    StuckNeverSends(c, Alone(c, d, Filling(n)), more, []);
  }

  lemma AssocFour<T>(a: seq<T>, b: seq<T>, c: seq<T>, d: seq<T>, e: seq<T>)
    ensures (a + (b + (c + d))) + e == a + (b + (c + (d + e)))
  {
    Assoc(a, b + (c + d), e);
    Assoc(b, c + d, e);
    Assoc(c, d, e);
  }

  lemma BlockingPlanBlocks(c: Codec, feeds: seq<Bytes>, more: seq<Turn>)
    requires CanBlockTask(c, NonEmptyOf(feeds))
    ensures SegmentAnswer(c, BlockingPlan(feeds) + more, feeds).end.Cut?
  {
    var h, n := [Handler(true)], |NonEmptyOf(feeds)| + 1 - INPUT_CAP;
    var drain := Polls(MAX_TRIES + 1) + (Filling(OUTPUT_CAP) + more);
    AssocFour(QuietPlan(feeds, n), h, Polls(MAX_TRIES + 1), Filling(OUTPUT_CAP), more);
    var d := BlockingDecoder(c, feeds, n, h + drain);
    IdleSend(c, d, [], drain);
    var d1 := Push(d, []);
    IdleDrain(c, d1, MAX_TRIES + 1, 0, Filling(OUTPUT_CAP) + more);
    DropWaits(c, d1, OUTPUT_CAP, more);
  }

  // ---------------------------------------------------------------- exactly when

  /** Whatever turns follow, the segment is not answered to its end. */
  ghost predicate BlockedFrom(c: Codec, plan: seq<Turn>, feeds: seq<Bytes>) {
    forall more :: SegmentAnswer(c, plan + more, feeds).end.Cut?
  }

  /** A task and its worker can block each other for good on a segment if and only if the
      segment's chunks but the last 31 owe more than 32 results. */
  lemma TaskBlocksIff(c: Codec, feeds: seq<Bytes>)
    ensures var data := NonEmptyOf(feeds);
      (exists plan :: BlockedFrom(c, plan, feeds)) <==> |data| >= 31 && |Emitted(c, data[..|data| - 31])| > 32
  {
    TaskBlocks(c, feeds);
  }

  lemma TaskBlocks(c: Codec, feeds: seq<Bytes>)
    ensures (exists plan :: BlockedFrom(c, plan, feeds)) <==> CanBlockTask(c, NonEmptyOf(feeds))
  {
    if CanBlockTask(c, NonEmptyOf(feeds)) {
      forall more ensures SegmentAnswer(c, BlockingPlan(feeds) + more, feeds).end.Cut? {
        BlockingPlanBlocks(c, feeds, more);
      }
      assert BlockedFrom(c, BlockingPlan(feeds), feeds);
    } else {
      forall plan ensures !BlockedFrom(c, plan, feeds) {
        var more := AmpleAfter(c, feeds, plan);
        AmpleAnswers(c, feeds, plan + more);
      }
    }
  }

  /** Any turns can be the beginning of an ample schedule. */
  lemma AmpleAfter(c: Codec, feeds: seq<Bytes>, plan: seq<Turn>) returns (more: seq<Turn>)
    ensures AmpleFor(c, feeds, plan + more)
  {
    var rounds;
    rounds, more := RoundsAfter(plan, SegmentRounds(c, feeds));
  }

  /** Every ample schedule answers a segment to its end if and only if the segment's data cannot
      block its task. */
  lemma AmpleAnswersIff(c: Codec, feeds: seq<Bytes>)
    ensures (forall plan :: AmpleFor(c, feeds, plan) ==> !SegmentAnswer(c, plan, feeds).end.Cut?)
        <==> !CanBlockTask(c, NonEmptyOf(feeds))
  {
    if CanBlockTask(c, NonEmptyOf(feeds)) {
      var more := AmpleAfter(c, feeds, BlockingPlan(feeds));
      BlockingPlanBlocks(c, feeds, more);
    } else {
      forall plan | AmpleFor(c, feeds, plan) ensures !SegmentAnswer(c, plan, feeds).end.Cut? {
        AmpleAnswers(c, feeds, plan);
      }
    }
  }

  // ---------------------------------------------------------------- whole streams

  ghost predicate AmpleGiven(codecs: Codecs, seg: Segment, plan: Option<seq<Turn>>) {
    plan.Some? && AmpleFor(CodecOf(codecs, seg), seg.feeds, plan.value)
  }

  /** Every segment gets a decoder with an ample schedule. */
  ghost predicate AmpleDecoders(codecs: Codecs, segs: seq<Segment>, given: Decoders) {
    |segs| <= |given| && forall k :: 0 <= k < |segs| ==> AmpleGiven(codecs, segs[k], given[k])
  }

  predicate NoneCanBlock(codecs: Codecs, segs: seq<Segment>) {
    forall k :: 0 <= k < |segs| ==> !CanBlockTask(CodecOf(codecs, segs[k]), NonEmptyOf(segs[k].feeds))
  }

  lemma {:induction false} AmpleEnds(codecs: Codecs, segs: seq<Segment>, given: Decoders)
    requires AmpleDecoders(codecs, segs, given) && NoneCanBlock(codecs, segs)
    ensures GrpcAnswers.Ended(codecs, segs, given)
    decreases |segs|
  {
    if segs != [] {
      var n := |segs| - 1;
      AmpleEnds(codecs, segs[..n], given);
      AmpleAnswers(CodecOf(codecs, segs[n]), segs[n].feeds, given[n].value);
    }
  }

  lemma SomeAmplePlan(codecs: Codecs, seg: Segment) returns (plan: Option<seq<Turn>>)
    ensures AmpleGiven(codecs, seg, plan)
  {
    var more := AmpleAfter(CodecOf(codecs, seg), seg.feeds, []);
    plan := Some([] + more);
  }

  lemma BlockedAmplePlan(codecs: Codecs, seg: Segment) returns (plan: Option<seq<Turn>>)
    requires CanBlockTask(CodecOf(codecs, seg), NonEmptyOf(seg.feeds))
    ensures AmpleGiven(codecs, seg, plan)
    ensures SegmentAnswer(CodecOf(codecs, seg), plan.value, seg.feeds).end.Cut?
  {
    var more := AmpleAfter(CodecOf(codecs, seg), seg.feeds, BlockingPlan(seg.feeds));
    BlockingPlanBlocks(CodecOf(codecs, seg), seg.feeds, more);
    plan := Some(BlockingPlan(seg.feeds) + more);
  }

  lemma {:induction false} SomeAmpleDecoders(codecs: Codecs, segs: seq<Segment>) returns (given: Decoders)
    ensures AmpleDecoders(codecs, segs, given) && |given| == |segs|
  {
    given := [];
    if segs != [] {
      var n := |segs| - 1;
      var before := SomeAmpleDecoders(codecs, segs[..n]);
      var last := SomeAmplePlan(codecs, segs[n]);
      given := before + [last];
    }
  }

  lemma BlockedDecoders(codecs: Codecs, segs: seq<Segment>, k: nat) returns (given: Decoders)
    requires k < |segs| && CanBlockTask(CodecOf(codecs, segs[k]), NonEmptyOf(segs[k].feeds))
    ensures AmpleDecoders(codecs, segs, given) && !GrpcAnswers.Ended(codecs, segs, given)
  {
    var plan := BlockedAmplePlan(codecs, segs[k]);
    var others := SomeAmpleDecoders(codecs, segs);
    given := others[k := plan];
    CutIsNotEnded(codecs, segs, given, k);
  }

  lemma CutIsNotEnded(codecs: Codecs, segs: seq<Segment>, given: Decoders, k: nat)
    requires k < |segs| && AnswerTo(codecs, segs[k], given, k).end.Cut?
    ensures !GrpcAnswers.Ended(codecs, segs, given)
  {
    if GrpcAnswers.Ended(codecs, segs, given) { EndedAt(codecs, segs, given, k); }
  }

  /** Ample decoders answer every segment of a stream to its end if and only if no segment can
      block the task. */
  lemma StreamEndsIff(codecs: Codecs, segs: seq<Segment>)
    ensures (forall given :: AmpleDecoders(codecs, segs, given) ==> GrpcAnswers.Ended(codecs, segs, given))
        <==> NoneCanBlock(codecs, segs)
  {
    if NoneCanBlock(codecs, segs) {
      forall given | AmpleDecoders(codecs, segs, given) ensures GrpcAnswers.Ended(codecs, segs, given) {
        AmpleEnds(codecs, segs, given);
      }
    } else {
      var k :| 0 <= k < |segs| && CanBlockTask(CodecOf(codecs, segs[k]), NonEmptyOf(segs[k].feeds));
      var given := BlockedDecoders(codecs, segs, k);
    }
  }

  /** A stream that no shutdown ends, whose segments cannot block and get ample decoders, and
      whose client takes everything, is answered to its end. */
  lemma StreamIsServed(codecs: Codecs, defaults: DecodeOptions, events: seq<Event>, given: Decoders,
                       capacity: nat, sent: seq<Bytes>, begun: nat, outcome: Outcome)
    requires TaskEnds(codecs, defaults, events, given, capacity, sent, begun, outcome)
    requires var segs := Segments(defaults, Messages(events));
      && AmpleDecoders(codecs, segs, given) && NoneCanBlock(codecs, segs)
      && !ShutsDown(events) && capacity >= |Expected(codecs, segs, given)|
    ensures outcome.Completed? && sent == Expected(codecs, Segments(defaults, Messages(events)), given)
  {
    AmpleEnds(codecs, Segments(defaults, Messages(events)), given);
    WellProvidedCompletes(codecs, defaults, events, given, capacity, sent, begun, outcome);
  }
}
