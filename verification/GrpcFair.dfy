/** Fair rounds answer a gRPC segment to its end, on exactly the inputs that cannot block its
    task; on the others some schedule blocks task and worker for good. */
module GrpcFair {
  import opened Prelude
  import opened Decoder
  import opened Session
  import opened Deadlock
  import opened Termination
  import opened Handle
  import opened Release
  import opened GrpcDrain
  import opened GrpcLive

  // ---------------------------------------------------------------- longer schedules

  function Longer(n: Next, more: seq<Turn>): Next {
    Next(n.d, n.rest + more)
  }

  lemma RestAnd(turns: seq<Turn>, more: seq<Turn>)
    requires turns != []
    ensures turns + more != [] && (turns + more)[0] == turns[0] && (turns + more)[1..] == turns[1..] + more
  {
  }

  lemma {:induction false} NextTurnLonger(c: Codec, d: Dec, turns: seq<Turn>, more: seq<Turn>)
    requires NextTurn(c, d, turns).Some?
    ensures NextTurn(c, d, turns + more) == Some(Longer(NextTurn(c, d, turns).value, more))
    decreases |turns|
  {
    RestAnd(turns, more);
    if !turns[0].Handler? { NextTurnLonger(c, EnvTurn(c, d, turns[0]), turns[1..], more); }
  }

  lemma {:induction false} SendLonger(c: Codec, d: Dec, turns: seq<Turn>, m: Bytes, more: seq<Turn>)
    requires SendAt(c, d, turns, m).Some?
    ensures SendAt(c, d, turns + more, m) == Some(Longer(SendAt(c, d, turns, m).value, more))
    decreases |turns|
  {
    NextTurnLonger(c, d, turns, more);
    var n := NextTurn(c, d, turns).value;
    if !n.d.worker.Exited? && |n.d.input| >= INPUT_CAP { SendLonger(c, n.d, n.rest, m, more); }
  }

  /** A send that the schedule is too short for goes on in what follows. */
  lemma {:induction false} SendGoesOn(c: Codec, d: Dec, turns: seq<Turn>, m: Bytes, more: seq<Turn>)
    requires SendAt(c, d, turns, m).None?
    ensures SendAt(c, d, turns + more, m) == SendAt(c, Alone(c, d, turns), more, m)
    decreases |turns|
  {
    if turns == [] {
      assert turns + more == more;
    } else {
      RestAnd(turns, more);
      SendFrom(c, d, turns, m);
      SendFrom(c, d, turns + more, m);
      SendGoesOn(c, if turns[0].Handler? then d else EnvTurn(c, d, turns[0]), turns[1..], m, more);
    }
  }

  lemma {:induction false} CollectLonger(c: Codec, d: Dec, turns: seq<Turn>, more: seq<Turn>)
    requires CollectAt(c, d, turns).next.Some?
    ensures var r := CollectAt(c, d, turns);
      CollectAt(c, d, turns + more) == Collected(r.chunks, Some(Longer(r.next.value, more)))
    decreases |turns|
  {
    NextTurnLonger(c, d, turns, more);
    var n := NextTurn(c, d, turns).value;
    if n.d.output != [] { CollectLonger(c, Take(n.d), n.rest, more); }
  }

  lemma FeedOneLonger(c: Codec, n: Next, feed: Bytes, more: seq<Turn>)
    requires FeedOne(c, n, feed).next.Some?
    ensures var r := FeedOne(c, n, feed);
      FeedOne(c, Longer(n, more), feed) == Collected(r.chunks, Some(Longer(r.next.value, more)))
  {
    if feed == [] {
      CollectLonger(c, n.d, n.rest, more);
    } else {
      SendLonger(c, n.d, n.rest, feed, more);
      var sent := SendAt(c, n.d, n.rest, feed).value;
      CollectLonger(c, sent.d, sent.rest, more);
    }
  }

  lemma {:induction false} FeedAllLonger(c: Codec, plan: seq<Turn>, feeds: seq<Bytes>, more: seq<Turn>)
    requires FeedAll(c, plan, feeds).next.Some?
    ensures var r := FeedAll(c, plan, feeds);
      FeedAll(c, plan + more, feeds) == Collected(r.chunks, Some(Longer(r.next.value, more)))
    decreases |feeds|
  {
    if feeds != [] {
      var init := feeds[..|feeds| - 1];
      FeedAllLonger(c, plan, init, more);
      FeedOneLonger(c, FeedAll(c, plan, init).next.value, feeds[|feeds| - 1], more);
    }
  }

  // ---------------------------------------------------------------- feeding ends

  /** A send by a gRPC task can wait in vain: the chunks but the last 31 owe more than 32
      results. The last send is the drop's, after all data and the end of input. */
  predicate CanBlockTask(c: Codec, data: seq<Bytes>) {
    |data| + 1 >= INPUT_CAP && |Emitted(c, data[..|data| + 1 - INPUT_CAP])| > OUTPUT_CAP
  }

  lemma SessionBlocksTask(c: Codec, feeds: seq<Bytes>)
    requires CanBlock(c, SourceOf(feeds))
    ensures CanBlockTask(c, NonEmptyOf(feeds))
  {
    SourceFeeds(feeds);
    var data := NonEmptyOf(feeds);
    EmittedPrefix(c, data[..|data| - INPUT_CAP], data[..|data| + 1 - INPUT_CAP]);
  }

  /** A session that still feeds is not settled, unless it is blocked. */
  lemma FeedingIsUnsettled(c: Codec, feeds: seq<Bytes>, s: Sess)
    requires SessInv(c, SourceOf(feeds), s) && (s.phase.Sending? || s.phase.Draining? || s.phase.Ending?)
    requires !CanBlockTask(c, NonEmptyOf(feeds))
    ensures !Settled(s)
  {
    WorkerIsThere(c, SourceOf(feeds), s);
    if Blocked(s) {
      BlockedCanBlock(c, SourceOf(feeds), s);
      SessionBlocksTask(c, feeds);
    }
  }

  /** After enough fair rounds a segment's data and its end of input have been sent. */
  lemma FeedingEnds(c: Codec, feeds: seq<Bytes>, rounds: seq<seq<Turn>>)
    requires forall r :: r in rounds ==> FairRound(r)
    requires |rounds| >= RoundBound(c, SourceOf(feeds)) && !CanBlockTask(c, NonEmptyOf(feeds))
    ensures var next := FeedAll(c, Flatten(rounds), feeds).next;
      next.Some? && SendAt(c, next.value.d, next.value.rest, []).Some?
  {
    var plan := Flatten(rounds);
    var s := FeedAllGoes(c, plan, feeds, |feeds|);
    assert feeds[..|feeds|] == feeds && feeds[|feeds|..] == [];
    SegmentSettles(c, feeds, rounds);
    var fed := FeedAll(c, plan, feeds).next;
    if fed.None? {
      FeedingIsUnsettled(c, feeds, s);
    } else {
      assert s.phase.Ending?;
      SendGoes(c, SourceOf(feeds), s, fed.value.rest);
      if SendAt(c, fed.value.d, fed.value.rest, []).None? {
        FeedingIsUnsettled(c, feeds, GExec(c, s, fed.value.rest));
      }
    }
  }

  // ---------------------------------------------------------------- the drain ends

  function HandlerTurns(turns: seq<Turn>): nat {
    if turns == [] then 0 else (if turns[0].Handler? then 1 else 0) + HandlerTurns(turns[1..])
  }

  lemma {:induction false} HandlerTurnsConcat(a: seq<Turn>, b: seq<Turn>)
    ensures HandlerTurns(a + b) == HandlerTurns(a) + HandlerTurns(b)
  {
    if a == [] {
      assert a + b == b;
    } else {
      assert (a + b)[1..] == a[1..] + b;
      HandlerTurnsConcat(a[1..], b);
    }
  }

  lemma {:induction false} HandlerTurnsCounted(turns: seq<Turn>)
    ensures Count(turns, Handler(true)) <= HandlerTurns(turns)
  {
    if turns != [] { HandlerTurnsCounted(turns[1..]); }
  }

  lemma {:induction false} RoundsHaveTurns(rounds: seq<seq<Turn>>)
    requires forall r :: r in rounds ==> FairRound(r)
    ensures |rounds| <= HandlerTurns(Flatten(rounds))
  {
    if rounds != [] {
      assert rounds[0] in rounds;
      HandlerTurnsCounted(rounds[0]);
      RoundsHaveTurns(rounds[1..]);
      HandlerTurnsConcat(rounds[0], Flatten(rounds[1..]));
    }
  }

  /** A drain that the schedule is too short for has polled at each turn. */
  lemma {:induction false} CutDrainPolls(c: Codec, d: Dec, turns: seq<Turn>, tries: nat)
    requires DrainAt(c, d, turns, tries).end.Cut? && tries <= MAX_TRIES
    ensures DrainAt(c, d, turns, tries).polls == HandlerTurns(turns)
    decreases |turns|
  {
    if turns != [] { CutDrainPolls(c, OnePoll(c, d, turns[0]), turns[1..], StreakAfter(d, turns[0], tries)); }
  }

  /** The polls that end any drain. */
  function PollBound(c: Codec, data: seq<Bytes>): nat {
    11 * |Decode(c, data)| + 12
  }

  lemma DrainEnds(c: Codec, d: Dec, turns: seq<Turn>, data: seq<Bytes>)
    requires AtEnd(c, d, data) && HandlerTurns(turns) >= PollBound(c, data)
    ensures !DrainAt(c, d, turns, 0).end.Cut?
  {
    var r := DrainAt(c, d, turns, 0);
    DrainKeeps(c, d, turns, 0, data);
    PayloadsAreFewer(Decode(c, data));
    if r.end.Cut? { CutDrainPolls(c, d, turns, 0); }
  }

  lemma {:induction false} PayloadsAreFewer(items: seq<Item>)
    ensures |Payloads(items)| <= |items|
  {
    if items != [] { PayloadsAreFewer(items[1..]); }
  }

  lemma {:induction false} DrainLeavesEnding(c: Codec, d: Dec, turns: seq<Turn>, tries: nat, data: seq<Bytes>)
    requires AtEnd(c, d, data) && DrainAt(c, d, turns, tries).next.Some?
    ensures AtEnd(c, DrainAt(c, d, turns, tries).next.value.d, data)
    decreases |turns|
  {
    NextTurnKeeps(c, d, turns);
    var n := NextTurn(c, d, turns).value;
    if n.d.output != [] {
      TakeKeeps(c, n.d);
      DrainLeavesEnding(c, Take(n.d), n.rest, if n.d.output[0].Pcm? then 0 else tries, data);
    } else if !n.d.worker.Exited? && tries < MAX_TRIES {
      DrainLeavesEnding(c, n.d, n.rest, tries + 1, data);
    }
  }

  lemma {:induction false} DrainLonger(c: Codec, d: Dec, turns: seq<Turn>, tries: nat, more: seq<Turn>)
    requires !DrainAt(c, d, turns, tries).end.Cut?
    ensures var r := DrainAt(c, d, turns, tries);
      DrainAt(c, d, turns + more, tries) == r.(next := Some(Longer(r.next.value, more)))
    decreases |turns|
  {
    NextTurnLonger(c, d, turns, more);
    var n := NextTurn(c, d, turns).value;
    if n.d.output != [] {
      DrainLonger(c, Take(n.d), n.rest, if n.d.output[0].Pcm? then 0 else tries, more);
    } else if !n.d.worker.Exited? && tries < MAX_TRIES {
      DrainLonger(c, n.d, n.rest, tries + 1, more);
    }
  }

  // ---------------------------------------------------------------- the drop ends

  lemma EndingIsClosing(c: Codec, d: Dec, data: seq<Bytes>)
    requires AtEnd(c, d, data)
    ensures Closing(c, d)
  {
    assert d.sent[|data|] == [];
  }

  /** With the end of input taken, nothing is queued behind it. */
  lemma TakenEndLeavesRoom(c: Codec, d: Dec, data: seq<Bytes>)
    requires AtEnd(c, d, data)
    ensures d.input != [] ==> !EofTaken(d) && d.sent == d.accepted + Held(d) + d.input
  {
    if EofTaken(d) {
      var before := d.accepted + Held(d);
      assert d.sent[|before|] == [] && |d.sent| == |before| + 1 + |d.input|;
    }
  }

  /** A full input channel behind a full output channel: the task's last send waits in vain. */
  predicate Stuck(d: Dec) {
    d.alive && |d.input| == INPUT_CAP && d.worker.Forward? && |d.output| == OUTPUT_CAP
  }

  lemma StuckCanBlock(c: Codec, d: Dec, data: seq<Bytes>)
    requires AtEnd(c, d, data) && Stuck(d)
    ensures CanBlockTask(c, data)
  {
    TakenEndLeavesRoom(c, d, data);
    assert d.sent == d.accepted + d.input;
    var n := |d.accepted|;
    assert n == |data| + 1 - INPUT_CAP;
    assert d.accepted == d.sent[..n] == data[..n];
    assert Owed(c, d) == Emitted(c, d.accepted);
  }

  lemma StuckForever(c: Codec, d: Dec, t: Turn)
    requires Stuck(d) && !t.Handler?
    ensures Stuck(EnvTurn(c, d, t))
  {
  }

  lemma {:induction false} StuckNeverSends(c: Codec, d: Dec, turns: seq<Turn>, m: Bytes)
    requires Stuck(d)
    ensures SendAt(c, d, turns, m).None?
    decreases |turns|
  {
    if turns != [] {
      SendFrom(c, d, turns, m);
      if turns[0].Handler? {
        StuckNeverSends(c, d, turns[1..], m);
      } else {
        StuckForever(c, d, turns[0]);
        StuckNeverSends(c, EnvTurn(c, d, turns[0]), turns[1..], m);
      }
    }
  }

  /** Behind a full input channel the worker can do something, or both sides are stuck. */
  lemma FullInputMoves(c: Codec, d: Dec, data: seq<Bytes>)
    requires AtEnd(c, d, data) && |d.input| == INPUT_CAP && !Stuck(d)
    ensures EnvTurn(c, d, Work(true)) != d
  {
    TakenEndLeavesRoom(c, d, data);
  }

  lemma {:induction false} RoomIsUsed(c: Codec, d: Dec, turns: seq<Turn>, m: Bytes)
    requires Closing(c, d) && |d.input| < INPUT_CAP && HandlerTurns(turns) > 0
    ensures SendAt(c, d, turns, m).Some?
    decreases |turns|
  {
    SendFrom(c, d, turns, m);
    if !turns[0].Handler? {
      EnvKeepsClosing(c, d, turns[0]);
      RoomIsUsed(c, EnvTurn(c, d, turns[0]), turns[1..], m);
    }
  }

  /** A fair round in which the drop's send still waits leaves less to do. */
  lemma WaitingRound(c: Codec, d: Dec, data: seq<Bytes>, round: seq<Turn>)
    requires AtEnd(c, d, data) && d.alive && FairRound(round) && SendAt(c, d, round, []).None?
    requires !CanBlockTask(c, data)
    ensures AtEnd(c, Alone(c, d, round), data) && Left(c, Alone(c, d, round)) < Left(c, d)
  {
    EndingIsClosing(c, d, data);
    HandlerTurnsCounted(round);
    if |d.input| < INPUT_CAP { RoomIsUsed(c, d, round, []); }
    if Stuck(d) { StuckCanBlock(c, d, data); }
    FullInputMoves(c, d, data);
    AloneProgresses(c, d, round);
    AloneKeeps(c, d, round);
  }

  lemma {:induction false} DropEnds(c: Codec, d: Dec, data: seq<Bytes>, rounds: seq<seq<Turn>>)
    requires AtEnd(c, d, data) && !CanBlockTask(c, data)
    requires (forall r :: r in rounds ==> FairRound(r)) && Left(c, d) < |rounds|
    ensures SendAt(c, d, Flatten(rounds), []).Some?
    decreases |rounds|
  {
    EndingIsClosing(c, d, data);
    LeftIsNat(c, d);
    var rest := Flatten(rounds[1..]);
    assert rounds[0] in rounds;
    if SendAt(c, d, rounds[0], []).Some? {
      SendLonger(c, d, rounds[0], [], rest);
    } else {
      WaitingRound(c, d, data, rounds[0]);
      DropEnds(c, Alone(c, d, rounds[0]), data, rounds[1..]);
      SendGoesOn(c, d, rounds[0], [], rest);
    }
  }

  // ---------------------------------------------------------------- a segment ends

  /** The fair rounds that answer any segment to its end: for feeding, draining and dropping. */
  function SegmentRounds(c: Codec, feeds: seq<Bytes>): nat {
    RoundBound(c, SourceOf(feeds)) + PollBound(c, NonEmptyOf(feeds)) + DropBound(c, NonEmptyOf(feeds))
  }

  function DropBound(c: Codec, data: seq<Bytes>): nat {
    3 * INPUT_CAP + 9 * |Decode(c, data)| + 9
  }

  /** A schedule of enough fair rounds. */
  ghost predicate AmpleFor(c: Codec, feeds: seq<Bytes>, plan: seq<Turn>) {
    exists rounds ::
      (forall r :: r in rounds ==> FairRound(r)) && |rounds| >= SegmentRounds(c, feeds) && plan == Flatten(rounds)
  }

  lemma SplitRounds(rounds: seq<seq<Turn>>, n: nat) returns (first: seq<seq<Turn>>, rest: seq<seq<Turn>>)
    requires (forall r :: r in rounds ==> FairRound(r)) && n <= |rounds|
    ensures (forall r :: r in first ==> FairRound(r)) && (forall r :: r in rest ==> FairRound(r))
    ensures |first| == n && |rest| == |rounds| - n && Flatten(rounds) == Flatten(first) + Flatten(rest)
  {
    first, rest := rounds[..n], rounds[n..];
    assert rounds == first + rest;
    FlattenConcat(first, rest);
  }

  /** Feeding and the end of input, then the drain, on a schedule made of their rounds. */
  lemma FeedAndDrain(c: Codec, feeds: seq<Bytes>, feeding: seq<Turn>, draining: seq<Turn>)
      returns (n: Next, drained: Drained)
    requires var next := FeedAll(c, feeding, feeds).next;
      next.Some? && SendAt(c, next.value.d, next.value.rest, []).Some?
    requires HandlerTurns(draining) >= PollBound(c, NonEmptyOf(feeds))
    ensures FeedAll(c, feeding + draining, feeds).next == Some(n)
    ensures SendAt(c, n.d, n.rest, []).Some?
    ensures var ended := SendAt(c, n.d, n.rest, []).value; drained == DrainAt(c, ended.d, ended.rest, 0)
    ensures !drained.end.Cut? && AtEnd(c, drained.next.value.d, NonEmptyOf(feeds))
  {
    var data, fed := NonEmptyOf(feeds), FeedAll(c, feeding, feeds).next.value;
    FeedAllLonger(c, feeding, feeds, draining);
    n := Longer(fed, draining);
    SendLonger(c, fed.d, fed.rest, [], draining);
    FeedAllKeeps(c, feeding, feeds, data);
    SendKeeps(c, fed.d, fed.rest, [], data);
    var ended := SendAt(c, n.d, n.rest, []).value;
    var left := SendAt(c, fed.d, fed.rest, []).value.rest;
    HandlerTurnsConcat(left, draining);
    DrainEnds(c, ended.d, ended.rest, data);
    drained := DrainAt(c, ended.d, ended.rest, 0);
    DrainLeavesEnding(c, ended.d, ended.rest, 0, data);
  }

  /** What the drop still needs, it gets from further rounds. */
  lemma DropAfter(c: Codec, d: Dec, left: seq<Turn>, data: seq<Bytes>, rounds: seq<seq<Turn>>)
    requires AtEnd(c, d, data) && !CanBlockTask(c, data)
    requires (forall r :: r in rounds ==> FairRound(r)) && |rounds| >= DropBound(c, data)
    ensures SendAt(c, d, left + Flatten(rounds), []).Some?
  {
    EndingIsClosing(c, d, data);
    if SendAt(c, d, left, []).Some? {
      SendLonger(c, d, left, [], Flatten(rounds));
    } else {
      var d1 := Alone(c, d, left);
      AloneKeeps(c, d, left);
      NoneEmptyIsItsOwnPrefix(data);
      LeftIsBounded(c, d1);
      DropEnds(c, d1, data, rounds);
      SendGoesOn(c, d, left, [], Flatten(rounds));
    }
  }

  /** A segment is answered to its end under every ample schedule, if its data cannot block the
      task. */
  lemma AmpleAnswers(c: Codec, feeds: seq<Bytes>, plan: seq<Turn>)
    requires AmpleFor(c, feeds, plan) && !CanBlockTask(c, NonEmptyOf(feeds))
    ensures !SegmentAnswer(c, plan, feeds).end.Cut?
  {
    var rounds :| (forall r :: r in rounds ==> FairRound(r)) && |rounds| >= SegmentRounds(c, feeds)
      && plan == Flatten(rounds);
    var data := NonEmptyOf(feeds);
    var feeding, later := SplitRounds(rounds, RoundBound(c, SourceOf(feeds)));
    var draining, dropping := SplitRounds(later, PollBound(c, data));
    FeedingEnds(c, feeds, feeding);
    RoundsHaveTurns(draining);
    var n, drained := FeedAndDrain(c, feeds, Flatten(feeding), Flatten(draining));
    Assoc(Flatten(feeding), Flatten(draining), Flatten(dropping));
    AnswerLonger(c, feeds, Flatten(feeding) + Flatten(draining), Flatten(dropping), n, drained);
    if drained.end.GaveUp? {
      DropAfter(c, drained.next.value.d, drained.next.value.rest, data, dropping);
    }
  }

  lemma AnswerLonger(c: Codec, feeds: seq<Bytes>, plan: seq<Turn>, more: seq<Turn>, n: Next, drained: Drained)
    requires FeedAll(c, plan, feeds).next == Some(n) && SendAt(c, n.d, n.rest, []).Some?
    requires var ended := SendAt(c, n.d, n.rest, []).value; drained == DrainAt(c, ended.d, ended.rest, 0)
    requires !drained.end.Cut?
    ensures SegmentAnswer(c, plan + more, feeds) ==
      Finish(c, FeedAll(c, plan, feeds).chunks, drained.(next := Some(Longer(drained.next.value, more))))
  {
    FeedAllLonger(c, plan, feeds, more);
    SendLonger(c, n.d, n.rest, [], more);
    var ended := SendAt(c, n.d, n.rest, []).value;
    DrainLonger(c, ended.d, ended.rest, 0, more);
  }
}
