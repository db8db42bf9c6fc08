/** What the gRPC task gets out of one decoder, as a function of the codec, the decoder's
    schedule and the data of the segment's messages (src/grpc.rs): feeding and collecting,
    message by message, then the bounded drain. */
module GrpcDrain {
  import opened Prelude
  import opened Decoder
  import opened Session
  import opened Handle

  const MAX_TRIES: nat := 10

  /** The PCM block of a result, if it is audio. */
  function Block(x: Item): seq<Bytes> {
    if x.Pcm? then [x.audio.data] else []
  }

  /** The PCM blocks among results, in order. */
  function Payloads(items: seq<Item>): (r: seq<Bytes>)
    ensures |r| == |Audios(items)|
  {
    var audios := Audios(items);
    seq(|audios|, i requires 0 <= i < |audios| => audios[i].data)
  }

  lemma PayloadsAppend(items: seq<Item>, x: Item)
    ensures Payloads(items + [x]) == Payloads(items) + Block(x)
  {
    AudiosAppend(items, x);
  }

  lemma PayloadsPrefix(a: seq<Item>, b: seq<Item>)
    requires a <= b
    ensures Payloads(a) <= Payloads(b)
  {
    AudiosPrefix(a, b);
  }

  // ---------------------------------------------------------------- feeding and collecting

  /** Chunks collected, and where the decoder stands then; nowhere if the schedule is used up. */
  datatype Collected = Collected(chunks: seq<Bytes>, next: Option<Next>)

  /** Polling until nothing is ready. */
  function CollectAt(c: Codec, d: Dec, turns: seq<Turn>): (r: Collected)
    ensures r.next.Some? ==> |r.next.value.rest| < |turns|
    decreases |turns|
  {
    match NextTurn(c, d, turns)
    case None => Collected([], None)
    case Some(n) =>
      if n.d.output == [] then Collected([], Some(n))
      else
        var r := CollectAt(c, Take(n.d), n.rest);
        Collected(Block(n.d.output[0]) + r.chunks, r.next)
  }

  /** One message: its data is sent if it has any, then what is ready is collected. */
  function FeedOne(c: Codec, n: Next, feed: Bytes): Collected {
    match (if feed == [] then Some(n) else SendAt(c, n.d, n.rest, feed))
    case None => Collected([], None)
    case Some(sent) => CollectAt(c, sent.d, sent.rest)
  }

  /** A new decoder fed with the data of some messages. */
  function FeedAll(c: Codec, plan: seq<Turn>, feeds: seq<Bytes>): Collected {
    if feeds == [] then Collected([], Some(Next(FRESH, plan)))
    else
      var before := FeedAll(c, plan, feeds[..|feeds| - 1]);
      match before.next
      case None => before
      case Some(n) =>
        var r := FeedOne(c, n, feeds[|feeds| - 1]);
        Collected(before.chunks + r.chunks, r.next)
  }

  lemma FeedAllAppend(c: Codec, plan: seq<Turn>, feeds: seq<Bytes>, feed: Bytes)
    requires FeedAll(c, plan, feeds).next.Some?
    ensures var before := FeedAll(c, plan, feeds);
      var r := FeedOne(c, before.next.value, feed);
      FeedAll(c, plan, feeds + [feed]) == Collected(before.chunks + r.chunks, r.next)
  {
    assert (feeds + [feed])[..|feeds|] == feeds;
  }

  /** More messages only add chunks, and a schedule that is used up stays so. */
  lemma {:induction false} FeedingMore(c: Codec, plan: seq<Turn>, feeds: seq<Bytes>, all: seq<Bytes>)
    requires feeds <= all
    ensures FeedAll(c, plan, feeds).chunks <= FeedAll(c, plan, all).chunks
    ensures FeedAll(c, plan, feeds).next.None? ==> FeedAll(c, plan, all).next.None?
    decreases |all|
  {
    if |feeds| < |all| {
      FeedingMore(c, plan, feeds, all[..|all| - 1]);
    } else {
      assert feeds == all;
    }
  }

  // ---------------------------------------------------------------- the bounded drain

  /** How a drain ends: the decoder has finished, the eleventh poll in a row found nothing, or
      the schedule is used up. */
  datatype End = Whole | GaveUp | Cut

  datatype Drained = Drained(chunks: seq<Bytes>, end: End, next: Option<Next>, sleeps: nat, polls: nat)

  /** The polling loop of `drain_decoder_sync`, `tries` polls after its last audio. */
  function DrainAt(c: Codec, d: Dec, turns: seq<Turn>, tries: nat): (r: Drained)
    ensures r.end.Cut? <==> r.next.None?
    decreases |turns|
  {
    match NextTurn(c, d, turns)
    case None => Drained([], Cut, None, 0, 0)
    case Some(n) =>
      if n.d.output != [] then
        var x := n.d.output[0];
        var r := DrainAt(c, Take(n.d), n.rest, if x.Pcm? then 0 else tries);
        r.(chunks := Block(x) + r.chunks, polls := r.polls + 1)
      else if n.d.worker.Exited? then Drained([], Whole, Some(n), 0, 1)
      else if tries >= MAX_TRIES then Drained([], GaveUp, Some(n), 0, 1)
      else
        var r := DrainAt(c, n.d, n.rest, tries + 1);
        r.(sleeps := r.sleeps + 1, polls := r.polls + 1)
  }

  /** What is sent for a segment, and how its drain ends. A drain that gave up leaves a
      decoder whose drop sends the end of input once more. */
  datatype Answer = Answer(chunks: seq<Bytes>, end: End)

  function SegmentAnswer(c: Codec, plan: seq<Turn>, feeds: seq<Bytes>): Answer {
    var fed := FeedAll(c, plan, feeds);
    match fed.next
    case None => Answer(fed.chunks, Cut)
    case Some(n) =>
      match SendAt(c, n.d, n.rest, [])
      case None => Answer(fed.chunks, Cut)
      case Some(ended) => Finish(c, fed.chunks, DrainAt(c, ended.d, ended.rest, 0))
  }

  function Finish(c: Codec, chunks: seq<Bytes>, drained: Drained): Answer
    requires !drained.end.Cut? ==> drained.next.Some?
  {
    match drained.end
    case Cut => Answer(chunks, Cut)
    case Whole => Answer(chunks + drained.chunks, Whole)
    case GaveUp =>
      if SendAt(c, drained.next.value.d, drained.next.value.rest, []).None? then Answer(chunks, Cut)
      else Answer(chunks + drained.chunks, GaveUp)
  }

  /** What a segment's first messages bring is the beginning of what the segment is answered. */
  lemma FeedingIsAnswered(c: Codec, plan: seq<Turn>, feeds: seq<Bytes>, all: seq<Bytes>)
    requires feeds <= all
    ensures FeedAll(c, plan, feeds).chunks <= SegmentAnswer(c, plan, all).chunks
    ensures FeedAll(c, plan, feeds).next.None? ==> SegmentAnswer(c, plan, all).end.Cut?
  {
    FeedingMore(c, plan, feeds, all);
  }

  // ---------------------------------------------------------------- soundness

  /** A decoder in use: open, with exactly these data chunks sent and no end of input. */
  ghost predicate Serving(c: Codec, d: Dec, data: seq<Bytes>) {
    Inv(c, d) && d.alive && d.sent == data && NoneEmpty(data)
  }

  /** A decoder whose end of input has been sent after these data chunks. */
  ghost predicate AtEnd(c: Codec, d: Dec, data: seq<Bytes>) {
    Inv(c, d) && d.alive && d.sent == data + [[]] && NoneEmpty(data)
  }

  /** What has been delivered is a prefix of the decoding, also when more data is to come. */
  lemma ServingIsRunning(c: Codec, d: Dec, data: seq<Bytes>, more: seq<Bytes>)
    requires Serving(c, d, data) && data <= more
    ensures !d.worker.Exited?
    ensures Payloads(d.delivered) <= Payloads(Decode(c, more))
  {
    DataSendsNeverFail(c, d);
    AcceptedIsPrefix(c, d);
    NoneEmptyIsItsOwnPrefix(data);
    DeliveredIsOwed(c, d);
    assert d.accepted <= d.accepted + Held(d);
    EmittedPrefix(c, d.accepted, more);
    PayloadsPrefix(d.delivered, Decode(c, more));
  }

  lemma EndingIsServed(c: Codec, d: Dec, data: seq<Bytes>)
    requires AtEnd(c, d, data)
    ensures d.delivered <= Decode(c, data)
    ensures d.worker.Exited? && d.output == [] ==> d.delivered == Decode(c, data)
  {
    NoneEmptyIsItsOwnPrefix(data);
    DeliveredIsPrefix(c, d);
    if d.worker.Exited? && d.output == [] { ClosedMeansComplete(c, d); }
  }

  /** Others' turns keep a job in order and leave the connection's side alone. */
  lemma {:induction false} NextTurnKeeps(c: Codec, d: Dec, turns: seq<Turn>)
    requires Inv(c, d)
    ensures var r := NextTurn(c, d, turns);
      r.Some? ==> Inv(c, r.value.d) && Untouched(d, r.value.d)
    decreases |turns|
  {
    if turns != [] && !turns[0].Handler? {
      if turns[0].Pipe? { PipeKeepsInv(c, d); } else { WorkerKeepsInv(c, d, turns[0].accept); }
      EnvFrame(c, d, turns[0]);
      NextTurnKeeps(c, EnvTurn(c, d, turns[0]), turns[1..]);
    }
  }

  /** Data, or the end of input, reaches a decoder in use; it is never refused. */
  lemma {:induction false} SendKeeps(c: Codec, d: Dec, turns: seq<Turn>, m: Bytes, data: seq<Bytes>)
    requires Serving(c, d, data) && SendAt(c, d, turns, m).Some?
    ensures var d' := SendAt(c, d, turns, m).value.d;
      && d'.delivered == d.delivered
      && (if m == [] then AtEnd(c, d', data) else Serving(c, d', data + [m]))
    decreases |turns|
  {
    NextTurnKeeps(c, d, turns);
    var n := NextTurn(c, d, turns).value;
    ServingIsRunning(c, n.d, data, data);
    if |n.d.input| < INPUT_CAP {
      PushKeepsInv(c, n.d, m);
    } else {
      SendKeeps(c, n.d, n.rest, m, data);
    }
  }

  lemma TakeKeeps(c: Codec, d: Dec)
    requires Inv(c, d) && d.output != []
    ensures Inv(c, Take(d)) && Payloads(Take(d).delivered) == Payloads(d.delivered) + Block(d.output[0])
  {
    TakeKeepsInv(c, d);
    PayloadsAppend(d.delivered, d.output[0]);
  }

  /** Chunks collected after what a decoder had delivered: in order, and right for the data
      sent, whatever may follow it. */
  ghost predicate Collects(c: Codec, d: Dec, r: Collected, data: seq<Bytes>, more: seq<Bytes>) {
    && Payloads(d.delivered) + r.chunks <= Payloads(Decode(c, more))
    && (r.next.Some? ==>
         Serving(c, r.next.value.d, data) && Payloads(r.next.value.d.delivered) == Payloads(d.delivered) + r.chunks)
  }

  lemma {:induction false} CollectKeeps(c: Codec, d: Dec, turns: seq<Turn>, data: seq<Bytes>, more: seq<Bytes>)
    requires Serving(c, d, data) && data <= more
    ensures Collects(c, d, CollectAt(c, d, turns), data, more)
    decreases |turns|
  {
    ServingIsRunning(c, d, data, more);
    assert Payloads(d.delivered) + [] == Payloads(d.delivered);
    NextTurnKeeps(c, d, turns);
    if NextTurn(c, d, turns).Some? && NextTurn(c, d, turns).value.d.output != [] {
      var n := NextTurn(c, d, turns).value;
      TakeKeeps(c, n.d);
      CollectKeeps(c, Take(n.d), n.rest, data, more);
      Assoc(Payloads(d.delivered), Block(n.d.output[0]), CollectAt(c, Take(n.d), n.rest).chunks);
    }
  }

  lemma FeedOneKeeps(c: Codec, n: Next, feed: Bytes, data: seq<Bytes>, more: seq<Bytes>)
    requires Serving(c, n.d, data) && data + (if feed == [] then [] else [feed]) <= more
    ensures Collects(c, n.d, FeedOne(c, n, feed), data + (if feed == [] then [] else [feed]), more)
  {
    if feed == [] {
      assert data + [] == data;
      CollectKeeps(c, n.d, n.rest, data, more);
    } else if SendAt(c, n.d, n.rest, feed).Some? {
      SendKeeps(c, n.d, n.rest, feed, data);
      var sent := SendAt(c, n.d, n.rest, feed).value;
      CollectKeeps(c, sent.d, sent.rest, data + [feed], more);
    } else {
      assert data <= data + [feed];
      ServingIsRunning(c, n.d, data, more);
      assert Payloads(n.d.delivered) + [] == Payloads(n.d.delivered);
    }
  }

  lemma {:induction false} FeedAllKeeps(c: Codec, plan: seq<Turn>, feeds: seq<Bytes>, more: seq<Bytes>)
    requires NonEmptyOf(feeds) <= more
    ensures Collects(c, FRESH, FeedAll(c, plan, feeds), NonEmptyOf(feeds), more)
    decreases |feeds|
  {
    FreshServes(c);
    if feeds == [] {
      assert [] + Payloads(FRESH.delivered) == Payloads(FRESH.delivered);
    } else {
      var init, feed := feeds[..|feeds| - 1], feeds[|feeds| - 1];
      FeedAllKeeps(c, plan, init, more);
      var before := FeedAll(c, plan, init);
      if before.next.Some? {
        FeedOneKeeps(c, before.next.value, feed, NonEmptyOf(init), more);
        NothingBefore(before.chunks + FeedOne(c, before.next.value, feed).chunks);
        NothingBefore(before.chunks);
      }
    }
  }

  lemma NothingBefore(chunks: seq<Bytes>)
    ensures Payloads(FRESH.delivered) + chunks == chunks
  {
  }

  lemma FreshServes(c: Codec)
    ensures Serving(c, FRESH, [])
  {
    AlwaysInv(c, []);
  }

  /** A drain keeps the order, is complete when it ends whole, sleeps at most ten times for
      each block and ten more, and polls at most once for each result and each sleep, and once
      more; it gives up only after ten sleeps. */
  predicate DrainsWell(c: Codec, d: Dec, tries: nat, data: seq<Bytes>, r: Drained) {
    var all := Payloads(Decode(c, data));
    && Payloads(d.delivered) + r.chunks <= all
    && (r.end.Whole? ==> Payloads(d.delivered) + r.chunks == all)
    && r.sleeps <= 10 * (|r.chunks| + 1) - tries
    && (r.end.GaveUp? ==> r.sleeps >= 10 - tries)
    && r.polls <= |Decode(c, data)| - |d.delivered| + r.sleeps + 1
  }

  lemma DrainTakes(c: Codec, d: Dec, d1: Dec, tries: nat, data: seq<Bytes>, r: Drained)
    requires AtEnd(c, d1, data) && d1.delivered == d.delivered && d1.output != [] && tries <= MAX_TRIES
    requires DrainsWell(c, Take(d1), if d1.output[0].Pcm? then 0 else tries, data, r)
    ensures DrainsWell(c, d, tries, data, r.(chunks := Block(d1.output[0]) + r.chunks, polls := r.polls + 1))
  {
    TakeKeeps(c, d1);
    Assoc(Payloads(d.delivered), Block(d1.output[0]), r.chunks);
  }

  /** A drain that does nothing more. */
  lemma DrainStops(c: Codec, d: Dec, tries: nat, data: seq<Bytes>, r: Drained)
    requires AtEnd(c, d, data) && tries <= MAX_TRIES && r.chunks == [] && r.sleeps == 0 && r.polls <= 1
    requires r.end.GaveUp? ==> tries == MAX_TRIES
    requires r.end.Whole? ==> d.delivered == Decode(c, data)
    ensures DrainsWell(c, d, tries, data, r)
  {
    EndingIsServed(c, d, data);
    PayloadsPrefix(d.delivered, Decode(c, data));
    assert Payloads(d.delivered) + [] == Payloads(d.delivered);
  }

  lemma {:induction false} DrainKeeps(c: Codec, d: Dec, turns: seq<Turn>, tries: nat, data: seq<Bytes>)
    requires AtEnd(c, d, data) && tries <= MAX_TRIES
    ensures DrainsWell(c, d, tries, data, DrainAt(c, d, turns, tries))
    decreases |turns|
  {
    NextTurnKeeps(c, d, turns);
    match NextTurn(c, d, turns)
    case None => DrainStops(c, d, tries, data, DrainAt(c, d, turns, tries));
    case Some(n) =>
      if n.d.output != [] {
        var tries' := if n.d.output[0].Pcm? then 0 else tries;
        TakeKeeps(c, n.d);
        DrainKeeps(c, Take(n.d), n.rest, tries', data);
        DrainTakes(c, d, n.d, tries, data, DrainAt(c, Take(n.d), n.rest, tries'));
      } else if !n.d.worker.Exited? && tries < MAX_TRIES {
        DrainKeeps(c, n.d, n.rest, tries + 1, data);
      } else {
        EndingIsServed(c, n.d, data);
        DrainStops(c, d, tries, data, DrainAt(c, d, turns, tries));
      }
  }

  /** A segment is answered with a beginning of what its data decodes to, in order; with all of
      it if its drain ended whole. */
  lemma SegmentIsSound(c: Codec, plan: seq<Turn>, feeds: seq<Bytes>)
    ensures var r, all := SegmentAnswer(c, plan, feeds), Payloads(Decode(c, NonEmptyOf(feeds)));
      r.chunks <= all && (r.end.Whole? ==> r.chunks == all)
  {
    var data, fed := NonEmptyOf(feeds), FeedAll(c, plan, feeds);
    FeedAllKeeps(c, plan, feeds, data);
    NothingBefore(fed.chunks);
    if fed.next.Some? {
      var n := fed.next.value;
      if SendAt(c, n.d, n.rest, []).Some? {
        SendKeeps(c, n.d, n.rest, [], data);
        var ended := SendAt(c, n.d, n.rest, []).value;
        DrainKeeps(c, ended.d, ended.rest, 0, data);
      }
    }
  }

  // ---------------------------------------------------------------- when a drain ends whole

  /** The job after some turns in which the connection polls and takes what it finds. */
  function Polled(c: Codec, d: Dec, turns: seq<Turn>): Dec
    decreases |turns|
  {
    if turns == [] then d else Polled(c, OnePoll(c, d, turns[0]), turns[1..])
  }

  function OnePoll(c: Codec, d: Dec, t: Turn): Dec {
    if !t.Handler? then EnvTurn(c, d, t) else if d.output != [] then Take(d) else d
  }

  /** How many polls have found nothing since the last audio. */
  function Streak(c: Codec, d: Dec, turns: seq<Turn>, tries: nat): nat
    decreases |turns|
  {
    if turns == [] then tries
    else Streak(c, OnePoll(c, d, turns[0]), turns[1..], StreakAfter(d, turns[0], tries))
  }

  function StreakAfter(d: Dec, t: Turn, tries: nat): nat {
    if !t.Handler? then tries
    else if d.output == [] then tries + 1
    else if d.output[0].Pcm? then 0
    else tries
  }

  /** The k-th turn is a poll that finds the decoder finished and everything taken. */
  predicate FindsEnd(c: Codec, d: Dec, turns: seq<Turn>, k: nat) {
    k < |turns| && turns[k].Handler? && Polled(c, d, turns[..k]).output == [] && Polled(c, d, turns[..k]).worker.Exited?
  }

  /** Until then, polls that find nothing never come eleven in a row. */
  predicate Patient(c: Codec, d: Dec, turns: seq<Turn>, k: nat, tries: nat)
    requires k <= |turns|
  {
    forall j :: 0 <= j <= k ==> Streak(c, d, turns[..j], tries) <= 10
  }

  ghost predicate EndsInTime(c: Codec, d: Dec, turns: seq<Turn>, tries: nat) {
    exists k: nat :: FindsEnd(c, d, turns, k) && Patient(c, d, turns, k, tries)
  }

  lemma PrefixFrom(turns: seq<Turn>, k: nat)
    requires 0 < k <= |turns|
    ensures turns[..k] != [] && turns[..k][0] == turns[0] && turns[..k][1..] == turns[1..][..k - 1]
  {
  }

  lemma PolledFrom(c: Codec, d: Dec, turns: seq<Turn>, k: nat, tries: nat)
    requires 0 < k <= |turns|
    ensures Polled(c, d, turns[..k]) == Polled(c, OnePoll(c, d, turns[0]), turns[1..][..k - 1])
    ensures Streak(c, d, turns[..k], tries) ==
      Streak(c, OnePoll(c, d, turns[0]), turns[1..][..k - 1], StreakAfter(d, turns[0], tries))
  {
    PrefixFrom(turns, k);
  }

  lemma PatientFrom(c: Codec, d: Dec, turns: seq<Turn>, k: nat, tries: nat)
    requires 0 < k <= |turns| && tries <= MAX_TRIES
    ensures var d1, tries1 := OnePoll(c, d, turns[0]), StreakAfter(d, turns[0], tries);
      && (Patient(c, d, turns, k, tries) <==> Patient(c, d1, turns[1..], k - 1, tries1))
      && (Patient(c, d, turns, k, tries) ==> tries1 <= MAX_TRIES)
  {
    var d1, tries1 := OnePoll(c, d, turns[0]), StreakAfter(d, turns[0], tries);
    forall j | 0 < j <= k
      ensures Streak(c, d, turns[..j], tries) == Streak(c, d1, turns[1..][..j - 1], tries1)
    {
      PolledFrom(c, d, turns, j, tries);
    }
    assert Streak(c, d1, turns[1..][..0], tries1) == tries1 && Streak(c, d, turns[..0], tries) == tries;
    if Patient(c, d, turns, k, tries) {
      forall j | 0 <= j <= k - 1 ensures Streak(c, d1, turns[1..][..j], tries1) <= MAX_TRIES {
        assert Streak(c, d, turns[..j + 1], tries) == Streak(c, d1, turns[1..][..j + 1 - 1], tries1);
      }
    }
    if Patient(c, d1, turns[1..], k - 1, tries1) {
      forall j | 0 <= j <= k ensures Streak(c, d, turns[..j], tries) <= MAX_TRIES {
        if j > 0 { assert Streak(c, d, turns[..j], tries) == Streak(c, d1, turns[1..][..j - 1], tries1); }
      }
    }
  }

  /** One turn further, unless that turn already decides. */
  lemma EndsInTimeFrom(c: Codec, d: Dec, turns: seq<Turn>, tries: nat)
    requires turns != [] && tries <= MAX_TRIES
    ensures var d1, tries1 := OnePoll(c, d, turns[0]), StreakAfter(d, turns[0], tries);
      EndsInTime(c, d, turns, tries) <==>
        FindsEnd(c, d, turns, 0) || (tries1 <= MAX_TRIES && EndsInTime(c, d1, turns[1..], tries1))
  {
    var d1, tries1 := OnePoll(c, d, turns[0]), StreakAfter(d, turns[0], tries);
    if FindsEnd(c, d, turns, 0) {
      assert Patient(c, d, turns, 0, tries);
    }
    if EndsInTime(c, d, turns, tries) && !FindsEnd(c, d, turns, 0) {
      var k: nat :| FindsEnd(c, d, turns, k) && Patient(c, d, turns, k, tries);
      PolledFrom(c, d, turns, k, tries);
      PatientFrom(c, d, turns, k, tries);
      assert FindsEnd(c, d1, turns[1..], k - 1) && Patient(c, d1, turns[1..], k - 1, tries1);
    }
    if tries1 <= MAX_TRIES && EndsInTime(c, d1, turns[1..], tries1) {
      var k: nat :| FindsEnd(c, d1, turns[1..], k) && Patient(c, d1, turns[1..], k, tries1);
      PolledFrom(c, d, turns, k + 1, tries);
      PatientFrom(c, d, turns, k + 1, tries);
      assert FindsEnd(c, d, turns, k + 1) && Patient(c, d, turns, k + 1, tries);
    }
  }

  /** A drain ends whole if and only if some poll finds the decoder finished and everything
      taken, before eleven polls have found nothing since the last audio. */
  lemma {:induction false} DrainIsWholeIff(c: Codec, d: Dec, turns: seq<Turn>, tries: nat)
    requires tries <= MAX_TRIES
    ensures DrainAt(c, d, turns, tries).end.Whole? <==> EndsInTime(c, d, turns, tries)
    decreases |turns|
  {
    if turns != [] {
      EndsInTimeFrom(c, d, turns, tries);
      var d1, tries1 := OnePoll(c, d, turns[0]), StreakAfter(d, turns[0], tries);
      if !(turns[0].Handler? && d.output == [] && (d.worker.Exited? || tries == MAX_TRIES)) {
        DrainIsWholeIff(c, d1, turns[1..], tries1);
      }
    }
  }

  // ---------------------------------------------------------------- when a drain takes everything

  /** By the k-th turn everything owed has been taken, and the drain has not given up before. */
  predicate TakenBy(c: Codec, d: Dec, turns: seq<Turn>, k: nat, tries: nat, all: seq<Bytes>) {
    k <= |turns| && Payloads(Polled(c, d, turns[..k]).delivered) == all && Patient(c, d, turns, k, tries)
  }

  ghost predicate TakenInTime(c: Codec, d: Dec, turns: seq<Turn>, tries: nat, all: seq<Bytes>) {
    exists k: nat :: TakenBy(c, d, turns, k, tries, all)
  }

  /** One turn further, unless everything has been taken already. */
  lemma TakenInTimeFrom(c: Codec, d: Dec, turns: seq<Turn>, tries: nat, all: seq<Bytes>)
    requires turns != [] && tries <= MAX_TRIES
    ensures var d1, tries1 := OnePoll(c, d, turns[0]), StreakAfter(d, turns[0], tries);
      TakenInTime(c, d, turns, tries, all) <==>
        Payloads(d.delivered) == all || (tries1 <= MAX_TRIES && TakenInTime(c, d1, turns[1..], tries1, all))
  {
    var d1, tries1 := OnePoll(c, d, turns[0]), StreakAfter(d, turns[0], tries);
    if Payloads(d.delivered) == all {
      assert TakenBy(c, d, turns, 0, tries, all);
    }
    if TakenInTime(c, d, turns, tries, all) && Payloads(d.delivered) != all {
      var k: nat :| TakenBy(c, d, turns, k, tries, all);
      PatientFrom(c, d, turns, k, tries);
      PolledFrom(c, d, turns, k, tries);
      assert TakenBy(c, d1, turns[1..], k - 1, tries1, all);
    }
    if tries1 <= MAX_TRIES && TakenInTime(c, d1, turns[1..], tries1, all) {
      var k: nat :| TakenBy(c, d1, turns[1..], k, tries1, all);
      PatientFrom(c, d, turns, k + 1, tries);
      PolledFrom(c, d, turns, k + 1, tries);
      assert TakenBy(c, d, turns, k + 1, tries, all);
    }
  }

  /** Turns of others deliver nothing; a poll delivers what it takes. */
  lemma OnePollKeeps(c: Codec, d: Dec, t: Turn, data: seq<Bytes>)
    requires AtEnd(c, d, data)
    ensures AtEnd(c, OnePoll(c, d, t), data)
    ensures Payloads(OnePoll(c, d, t).delivered) ==
      Payloads(d.delivered) + if t.Handler? && d.output != [] then Block(d.output[0]) else []
  {
    assert Payloads(d.delivered) + [] == Payloads(d.delivered);
    if !t.Handler? {
      if t.Pipe? { PipeKeepsInv(c, d); } else { WorkerKeepsInv(c, d, t.accept); }
      EnvFrame(c, d, t);
    } else if d.output != [] {
      TakeKeeps(c, d);
    }
  }

  /** One turn of a drain. */
  lemma DrainFrom(c: Codec, d: Dec, turns: seq<Turn>, tries: nat)
    requires turns != [] && tries <= MAX_TRIES
    ensures var d1, tries1 := OnePoll(c, d, turns[0]), StreakAfter(d, turns[0], tries);
      DrainAt(c, d, turns, tries).chunks ==
        if EndsDrain(d, turns[0], tries) then []
        else (if turns[0].Handler? && d.output != [] then Block(d.output[0]) else [])
             + DrainAt(c, d1, turns[1..], tries1).chunks
  {
    var r := DrainAt(c, OnePoll(c, d, turns[0]), turns[1..], StreakAfter(d, turns[0], tries));
    assert [] + r.chunks == r.chunks;
  }

  /** What one turn takes of what is owed, and whether the rest comes to all of it. */
  lemma TakesAllStep(had: seq<Bytes>, now: seq<Bytes>, rest: seq<Bytes>, all: seq<Bytes>, later: bool)
    requires (had + now) + rest <= all && ((had + now) + rest == all <==> later)
    ensures had + (now + rest) == all <==> had == all || later
  {
    Assoc(had, now, rest);
  }

  /** The turn that ends a drain finds everything taken, or the tries used up. */
  predicate EndsDrain(d: Dec, t: Turn, tries: nat) {
    t.Handler? && d.output == [] && (d.worker.Exited? || tries == MAX_TRIES)
  }

  /** A drain brings everything that is owed if and only if, with the schedule it has,
      everything is taken before eleven polls have found nothing since the last audio. It need
      not end whole for that. */
  lemma {:induction false} DrainTakesAllIff(c: Codec, d: Dec, turns: seq<Turn>, tries: nat, data: seq<Bytes>)
    requires AtEnd(c, d, data) && tries <= MAX_TRIES
    ensures var all := Payloads(Decode(c, data));
      Payloads(d.delivered) + DrainAt(c, d, turns, tries).chunks == all <==> TakenInTime(c, d, turns, tries, all)
    decreases |turns|
  {
    var had, all := Payloads(d.delivered), Payloads(Decode(c, data));
    if turns == [] {
      assert had + [] == had;
      TakenWithoutTurns(c, d, tries, all);
    } else {
      TakenInTimeFrom(c, d, turns, tries, all);
      DrainFrom(c, d, turns, tries);
      OnePollKeeps(c, d, turns[0], data);
      if EndsDrain(d, turns[0], tries) {
        assert had + [] == had;
        EndingIsServed(c, d, data);
      } else {
        var d1, tries1 := OnePoll(c, d, turns[0]), StreakAfter(d, turns[0], tries);
        var now := if turns[0].Handler? && d.output != [] then Block(d.output[0]) else [];
        DrainTakesAllIff(c, d1, turns[1..], tries1, data);
        DrainKeeps(c, d1, turns[1..], tries1, data);
        TakesAllStep(had, now, DrainAt(c, d1, turns[1..], tries1).chunks, all,
                     TakenInTime(c, d1, turns[1..], tries1, all));
      }
    }
  }

  lemma TakenWithoutTurns(c: Codec, d: Dec, tries: nat, all: seq<Bytes>)
    requires tries <= MAX_TRIES
    ensures TakenInTime(c, d, [], tries, all) <==> Payloads(d.delivered) == all
  {
    if Payloads(d.delivered) == all { assert TakenBy(c, d, [], 0, tries, all); }
  }

  /** The condition for a whole segment: everything is taken in time by its drain, or, where the
      schedule is used up before the answer's end, has been by its messages. */
  ghost predicate SegmentTakesAll(c: Codec, plan: seq<Turn>, feeds: seq<Bytes>) {
    var all, fed := Payloads(Decode(c, NonEmptyOf(feeds))), FeedAll(c, plan, feeds);
    if SegmentAnswer(c, plan, feeds).end.Cut? then fed.chunks == all
    else
      match SendAt(c, fed.next.value.d, fed.next.value.rest, [])
      case None => false
      case Some(ended) => TakenInTime(c, ended.d, ended.rest, 0, all)
  }

  /** A segment is answered with all it decodes to if and only if everything is taken in time. */
  lemma SegmentIsWholeIff(c: Codec, plan: seq<Turn>, feeds: seq<Bytes>)
    ensures SegmentAnswer(c, plan, feeds).chunks == Payloads(Decode(c, NonEmptyOf(feeds)))
        <==> SegmentTakesAll(c, plan, feeds)
  {
    var data, fed := NonEmptyOf(feeds), FeedAll(c, plan, feeds);
    FeedAllKeeps(c, plan, feeds, data);
    NothingBefore(fed.chunks);
    if !SegmentAnswer(c, plan, feeds).end.Cut? {
      var n := fed.next.value;
      SendKeeps(c, n.d, n.rest, [], data);
      var ended := SendAt(c, n.d, n.rest, []).value;
      DrainTakesAllIff(c, ended.d, ended.rest, 0, data);
    }
  }

  // ---------------------------------------------------------------- a drain that gives up

  lemma TurnFirst(c: Codec, d: Dec, t: Turn, rest: seq<Turn>)
    ensures NextTurn(c, d, [t] + rest) ==
      if t.Handler? then Some(Next(d, rest)) else NextTurn(c, EnvTurn(c, d, t), rest)
  {
    assert ([t] + rest)[1..] == rest;
  }

  /** A turn so many times. */
  function Times(t: Turn, n: nat): (r: seq<Turn>)
    ensures |r| == n
  {
    seq(n, i => t)
  }

  lemma TimesFirst(t: Turn, n: nat, rest: seq<Turn>)
    requires n > 0
    ensures Times(t, n) + rest == [t] + (Times(t, n - 1) + rest)
  {
  }

  function Polls(n: nat): seq<Turn> {
    Times(Handler(true), n)
  }

  lemma {:induction false} IdleDrain(c: Codec, d: Dec, n: nat, tries: nat, rest: seq<Turn>)
    requires d.output == [] && !d.worker.Exited? && n > 0 && n + tries == MAX_TRIES + 1
    ensures var r := DrainAt(c, d, Polls(n) + rest, tries);
      r.chunks == [] && r.end.GaveUp? && r.next == Some(Next(d, rest))
    decreases n
  {
    TimesFirst(Handler(true), n, rest);
    TurnFirst(c, d, Handler(true), Polls(n - 1) + rest);
    if n > 1 {
      IdleDrain(c, d, n - 1, tries + 1, rest);
    } else {
      assert Polls(0) + rest == rest;
    }
  }

  lemma IdleSend(c: Codec, d: Dec, m: Bytes, rest: seq<Turn>)
    requires !d.worker.Exited? && |d.input| < INPUT_CAP
    ensures SendAt(c, d, [Handler(true)] + rest, m) == Some(Next(Push(d, m), rest))
  {
    TurnFirst(c, d, Handler(true), rest);
  }

  /** The pipeline has shown nothing, and the worker looks for input or has just looked for
      results. */
  predicate Quiet(d: Dec) {
    && d.alive && !d.done && !d.eof && (d.worker.Poll? || d.worker.Drain?)
    && d.ready == [] && d.output == [] && d.delivered == []
  }

  /** The turns of one message: a send if there is data, some turns of the worker, and a poll. */
  function QuietTurns(feed: Bytes, work: nat): seq<Turn> {
    if feed == [] then Polls(1) else [Handler(true)] + (Times(Work(true), work) + Polls(1))
  }

  /** The turns the worker needs to take the message's chunk: of the chunks up to the n-th it
      takes each, and looks for input again unless it is the n-th; later ones wait. */
  function WorkFor(before: nat, n: nat): nat {
    if before + 1 < n then 3 else if before + 1 == n then 2 else 0
  }

  function QuietPlan(feeds: seq<Bytes>, n: nat): seq<Turn> {
    if feeds == [] then []
    else
      var init := feeds[..|feeds| - 1];
      QuietPlan(init, n) + QuietTurns(feeds[|feeds| - 1], WorkFor(|NonEmptyOf(init)|, n))
  }

  /** What the worker does with one chunk in its turns. */
  lemma QuietWork(c: Codec, d: Dec, work: nat, rest: seq<Turn>) returns (d': Dec)
    requires Quiet(d) && d.worker.Poll? && |d.input| == 1 && NoneEmpty(d.input) && (work == 2 || work == 3)
    ensures Quiet(d') && d'.input == [] && (if work == 2 then d'.worker.Drain? else d'.worker.Poll?)
    ensures NextTurn(c, d, Times(Work(true), work) + rest) == NextTurn(c, d', rest)
  {
    var w := Work(true);
    var d1 := WorkerTurn(c, d, true);
    var d2 := WorkerTurn(c, d1, true);
    TimesFirst(w, work, rest);
    TurnFirst(c, d, w, Times(w, work - 1) + rest);
    TimesFirst(w, work - 1, rest);
    TurnFirst(c, d1, w, Times(w, work - 2) + rest);
    assert Times(w, 0) + rest == rest;
    d' := d2;
    if work == 3 {
      TimesFirst(w, 1, rest);
      TurnFirst(c, d2, w, rest);
      d' := WorkerTurn(c, d2, true);
    }
  }

  /** How the worker and its input stand after so many chunks. */
  predicate QuietAfter(d: Dec, chunks: nat, n: nat) {
    && |d.input| == (if chunks <= n then 0 else chunks - n)
    && (chunks < n ==> d.worker.Poll?) && (chunks >= n > 0 ==> d.worker.Drain?)
  }

  lemma QuietFeed(c: Codec, d: Dec, feed: Bytes, before: nat, n: nat, rest: seq<Turn>) returns (d': Dec)
    requires Quiet(d) && QuietAfter(d, before, n) && before < n + INPUT_CAP
    ensures Quiet(d') && QuietAfter(d', if feed == [] then before else before + 1, n)
    ensures FeedOne(c, Next(d, QuietTurns(feed, WorkFor(before, n)) + rest), feed) ==
      Collected([], Some(Next(d', rest)))
  {
    var h, work := Handler(true), WorkFor(before, n);
    TimesFirst(h, 1, rest);
    assert Polls(0) + rest == rest;
    if feed == [] {
      d' := d;
    } else {
      var turns := Times(Work(true), work) + Polls(1);
      Assoc([h], turns, rest);
      Assoc(Times(Work(true), work), Polls(1), rest);
      IdleSend(c, d, feed, turns + rest);
      d' := Push(d, feed);
      if work > 0 {
        d' := QuietWork(c, d', work, Polls(1) + rest);
      } else {
        assert Times(Work(true), 0) + (Polls(1) + rest) == Polls(1) + rest;
      }
    }
    TurnFirst(c, d', h, rest);
  }

  /** A segment is fed without anything becoming visible: its first `n` chunks are accepted by
      the pipeline, and the others wait. */
  lemma {:induction false} QuietFeeds(c: Codec, feeds: seq<Bytes>, n: nat, rest: seq<Turn>) returns (d: Dec)
    requires |NonEmptyOf(feeds)| < n + INPUT_CAP
    ensures Quiet(d) && QuietAfter(d, |NonEmptyOf(feeds)|, n)
    ensures FeedAll(c, QuietPlan(feeds, n) + rest, feeds) == Collected([], Some(Next(d, rest)))
    decreases |feeds|
  {
    if feeds == [] {
      assert [] + rest == rest;
      d := FRESH;
    } else {
      var init, feed := feeds[..|feeds| - 1], feeds[|feeds| - 1];
      var before := |NonEmptyOf(init)|;
      var turns := QuietTurns(feed, WorkFor(before, n));
      Assoc(QuietPlan(init, n), turns, rest);
      var d1 := QuietFeeds(c, init, n, turns + rest);
      d := QuietFeed(c, d1, feed, before, n, rest);
    }
  }

  /** The schedule that cuts a segment short: its messages are accepted but nothing becomes
      visible; then come the end of input, eleven polls, and the drop's end of input. */
  function CuttingPlan(feeds: seq<Bytes>): seq<Turn> {
    QuietPlan(feeds, |NonEmptyOf(feeds)|) + ([Handler(true)] + (Polls(MAX_TRIES + 1) + [Handler(true)]))
  }

  lemma CutShort(c: Codec, feeds: seq<Bytes>)
    ensures SegmentAnswer(c, CuttingPlan(feeds), feeds) == Answer([], GaveUp)
  {
    var h := [Handler(true)];
    var d := QuietFeeds(c, feeds, |NonEmptyOf(feeds)|, h + (Polls(MAX_TRIES + 1) + h));
    IdleSend(c, d, [], Polls(MAX_TRIES + 1) + h);
    IdleDrain(c, Push(d, []), MAX_TRIES + 1, 0, h);
    assert h + [] == h;
    IdleSend(c, Push(d, []), [], []);
  }

  /** The answer comes to its end, and not everything is in it. */
  predicate LosesAudio(c: Codec, plan: seq<Turn>, feeds: seq<Bytes>) {
    var r := SegmentAnswer(c, plan, feeds);
    !r.end.Cut? && r.chunks != Payloads(Decode(c, NonEmptyOf(feeds)))
  }

  /** Whatever the codec, a segment can lose audio if and only if it decodes to any. */
  lemma AudioCanBeLostIff(c: Codec, feeds: seq<Bytes>)
    ensures (exists plan :: LosesAudio(c, plan, feeds)) <==> Payloads(Decode(c, NonEmptyOf(feeds))) != []
  {
    if Payloads(Decode(c, NonEmptyOf(feeds))) != [] {
      CutShort(c, feeds);
      assert LosesAudio(c, CuttingPlan(feeds), feeds);
    } else {
      forall plan ensures !LosesAudio(c, plan, feeds) {
        SegmentIsSound(c, plan, feeds);
      }
    }
  }
}
