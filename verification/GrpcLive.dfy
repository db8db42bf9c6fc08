/** When a gRPC segment is answered to its end: feeding it is a session in which reading takes
    no turn of the schedule, so fair rounds bring it to its end of input; a drain needs only
    polls; and the drop after a drain that gave up needs room in the input channel. */
module GrpcLive {
  import opened Prelude
  import opened Decoder
  import opened Session
  import opened Deadlock
  import opened Reach
  import opened Termination
  import opened Handle
  import opened Release
  import opened GrpcDrain

  // ---------------------------------------------------------------- a segment as a session

  /** A message as a frame: data is fed, anything else leads to a drain only. */
  function ArrivalOf(feed: Bytes): Arrival {
    if feed == [] then Got(Frame(OtherTag, [])) else Got(Frame(DCOD, feed))
  }

  function SourceOf(feeds: seq<Bytes>): Source {
    Tcp(seq(|feeds|, i requires 0 <= i < |feeds| => ArrivalOf(feeds[i])))
  }

  lemma SourceFirst(feeds: seq<Bytes>)
    requires feeds != []
    ensures ReadNext(SourceOf(feeds)) ==
      (if feeds[0] == [] then Draining else Sending(feeds[0]), SourceOf(feeds[1..]))
  {
    assert SourceOf(feeds).arrivals[1..] == SourceOf(feeds[1..]).arrivals;
  }

  /** The session is fed the segment's data. */
  lemma {:induction false} SourceFeeds(feeds: seq<Bytes>)
    ensures Fed(SourceOf(feeds)) == NonEmptyOf(feeds)
    decreases |feeds|
  {
    if feeds != [] {
      SourceFeeds(feeds[1..]);
      assert SourceOf(feeds).arrivals[1..] == SourceOf(feeds[1..]).arrivals;
      NonEmptyConcat([feeds[0]], feeds[1..]);
      assert [feeds[0]] + feeds[1..] == feeds;
      assert NonEmptyOf([feeds[0]]) == if feeds[0] == [] then [] else [feeds[0]] by { NonEmptyOne(feeds[0]); }
    }
  }

  /** Reading comes at once. */
  function Skip(s: Sess): Sess {
    if s.phase.Reading? then HandlerTurn(s, true) else s
  }

  function GStep(c: Codec, s: Sess, t: Turn): Sess {
    Skip(Step(c, s, Erase(t)))
  }

  function GExec(c: Codec, s: Sess, turns: seq<Turn>): Sess
    decreases |turns|
  {
    if turns == [] then s else GExec(c, GStep(c, s, turns[0]), turns[1..])
  }

  lemma GStepKeeps(c: Codec, src0: Source, s: Sess, t: Turn)
    requires SessInv(c, src0, s)
    ensures SessInv(c, src0, GStep(c, s, t))
  {
    StepKeepsSessInv(c, src0, s, Erase(t));
    var s1 := Step(c, s, Erase(t));
    if s1.phase.Reading? { HandlerKeepsSessInv(c, src0, s1, true); }
  }

  // ---------------------------------------------------------------- operations as runs

  /** One turn of a send. */
  lemma SendFrom(c: Codec, d: Dec, turns: seq<Turn>, m: Bytes)
    requires turns != []
    ensures SendAt(c, d, turns, m) ==
      if !turns[0].Handler? then SendAt(c, EnvTurn(c, d, turns[0]), turns[1..], m)
      else if d.worker.Exited? then Some(Next(d, turns[1..]))
      else if |d.input| < INPUT_CAP then Some(Next(Push(d, m), turns[1..]))
      else SendAt(c, d, turns[1..], m)
  {
  }

  lemma CollectFrom(c: Codec, d: Dec, turns: seq<Turn>)
    requires turns != []
    ensures CollectAt(c, d, turns).next ==
      if !turns[0].Handler? then CollectAt(c, EnvTurn(c, d, turns[0]), turns[1..]).next
      else if d.output == [] then Some(Next(d, turns[1..]))
      else CollectAt(c, Take(d), turns[1..]).next
  {
  }

  /** The chunk that the phase is about to send. */
  function ToSendNow(p: Phase): Bytes {
    if p.Sending? then p.chunk else []
  }

  /** The state after the send. */
  function SentNow(s: Sess, d: Dec): Sess {
    s.(phase := if s.phase.Sending? then Draining else Flushing, d := d)
  }

  /** A send is a run of the session, turn for turn. */
  lemma {:induction false} SendGoes(c: Codec, src0: Source, s: Sess, turns: seq<Turn>)
    requires SessInv(c, src0, s) && (s.phase.Sending? || s.phase.Ending?)
    ensures match SendAt(c, s.d, turns, ToSendNow(s.phase))
      case None => GExec(c, s, turns).phase == s.phase && SessInv(c, src0, GExec(c, s, turns))
      case Some(n) => GExec(c, s, turns) == GExec(c, SentNow(s, n.d), n.rest) && SessInv(c, src0, SentNow(s, n.d))
    decreases |turns|
  {
    if turns != [] {
      SendFrom(c, s.d, turns, ToSendNow(s.phase));
      WorkerIsThere(c, src0, s);
      GStepKeeps(c, src0, s, turns[0]);
      var s1 := GStep(c, s, turns[0]);
      if s1.phase == s.phase {
        SendGoes(c, src0, s1, turns[1..]);
      }
    }
  }

  /** Collecting is a run of the session, up to the next message. */
  lemma {:induction false} CollectGoes(c: Codec, src0: Source, s: Sess, turns: seq<Turn>) returns (s': Sess)
    requires SessInv(c, src0, s) && s.phase.Draining?
    ensures SessInv(c, src0, s')
    ensures match CollectAt(c, s.d, turns).next
      case None => s' == GExec(c, s, turns) && s'.phase.Draining?
      case Some(n) => GExec(c, s, turns) == GExec(c, s', n.rest) && s'.d == n.d && (s'.phase, s'.src) == ReadNext(s.src)
    decreases |turns|
  {
    if turns == [] {
      s' := s;
    } else {
      CollectFrom(c, s.d, turns);
      GStepKeeps(c, src0, s, turns[0]);
      var s1 := GStep(c, s, turns[0]);
      if turns[0].Handler? && s.d.output == [] {
        s' := s1;
      } else {
        s' := CollectGoes(c, src0, s1, turns[1..]);
      }
    }
  }

  /** The session before a segment's messages from the i-th on. */
  predicate AtMessage(feeds: seq<Bytes>, i: nat, s: Sess) {
    i <= |feeds| && (s.phase, s.src) == ReadNext(SourceOf(feeds[i..]))
  }

  /** One message. */
  lemma FeedOneGoes(c: Codec, feeds: seq<Bytes>, i: nat, s: Sess, turns: seq<Turn>) returns (s': Sess)
    requires i < |feeds| && AtMessage(feeds, i, s) && SessInv(c, SourceOf(feeds), s)
    ensures SessInv(c, SourceOf(feeds), s')
    ensures match FeedOne(c, Next(s.d, turns), feeds[i]).next
      case None => s' == GExec(c, s, turns) && (s'.phase.Sending? || s'.phase.Draining?)
      case Some(n) => GExec(c, s, turns) == GExec(c, s', n.rest) && s'.d == n.d && AtMessage(feeds, i + 1, s')
  {
    var src0 := SourceOf(feeds);
    SourceFirst(feeds[i..]);
    assert feeds[i..][1..] == feeds[i + 1..];
    if feeds[i] == [] {
      s' := CollectGoes(c, src0, s, turns);
    } else {
      SendGoes(c, src0, s, turns);
      var sent := SendAt(c, s.d, turns, feeds[i]);
      if sent.None? {
        s' := GExec(c, s, turns);
      } else {
        s' := CollectGoes(c, src0, SentNow(s, sent.value.d), sent.value.rest);
      }
    }
  }

  function Started(feeds: seq<Bytes>): Sess {
    Skip(Start(SourceOf(feeds)))
  }

  lemma StartedIsSound(c: Codec, feeds: seq<Bytes>)
    ensures SessInv(c, SourceOf(feeds), Started(feeds)) && AtMessage(feeds, 0, Started(feeds))
    ensures Started(feeds).d == FRESH
  {
    AlwaysSessInv(c, SourceOf(feeds), []);
    HandlerKeepsSessInv(c, SourceOf(feeds), Start(SourceOf(feeds)), true);
    assert feeds[0..] == feeds;
  }

  /** Feeding a segment is a run of the session, up to the messages fed. */
  lemma {:induction false} FeedAllGoes(c: Codec, plan: seq<Turn>, feeds: seq<Bytes>, i: nat) returns (s: Sess)
    requires i <= |feeds|
    ensures SessInv(c, SourceOf(feeds), s)
    ensures match FeedAll(c, plan, feeds[..i]).next
      case None => s == GExec(c, Started(feeds), plan) && (s.phase.Sending? || s.phase.Draining?)
      case Some(n) => GExec(c, Started(feeds), plan) == GExec(c, s, n.rest) && s.d == n.d && AtMessage(feeds, i, s)
  {
    if i == 0 {
      StartedIsSound(c, feeds);
      s := Started(feeds);
    } else {
      assert feeds[..i][..i - 1] == feeds[..i - 1];
      s := FeedAllGoes(c, plan, feeds, i - 1);
      var before := FeedAll(c, plan, feeds[..i - 1]).next;
      if before.Some? {
        s := FeedOneGoes(c, feeds, i - 1, s, before.value.rest);
      }
    }
  }

  // ---------------------------------------------------------------- fair rounds

  /** The session's turns in such a run, with the reads. */
  function WithReads(c: Codec, s: Sess, turns: seq<Turn>): seq<Turn>
    decreases |turns|
  {
    if turns == [] then []
    else
      var t := Erase(turns[0]);
      var read := if Step(c, s, t).phase.Reading? then [Handler(true)] else [];
      [t] + read + WithReads(c, GStep(c, s, turns[0]), turns[1..])
  }

  lemma {:induction false} WithReadsRuns(c: Codec, s: Sess, turns: seq<Turn>)
    ensures Exec(c, s, WithReads(c, s, turns)) == GExec(c, s, turns)
    decreases |turns|
  {
    if turns != [] {
      var t, s1 := Erase(turns[0]), GStep(c, s, turns[0]);
      var read := if Step(c, s, t).phase.Reading? then [Handler(true)] else [];
      var rest := WithReads(c, s1, turns[1..]);
      WithReadsRuns(c, s1, turns[1..]);
      ExecConcat(c, s, [t] + read, rest);
      ExecConcat(c, s, [t], read);
      ExecOne(c, s, t);
      ExecOne(c, Step(c, s, t), Handler(true));
    }
  }

  lemma ExecOne(c: Codec, s: Sess, t: Turn)
    ensures Exec(c, s, [t]) == Step(c, s, t)
  {
    assert [t][..0] == [];
  }

  lemma {:induction false} WithReadsCount(c: Codec, s: Sess, turns: seq<Turn>, t: Turn)
    requires Erase(t) == t
    ensures Count(WithReads(c, s, turns), t) >= Count(turns, t)
    decreases |turns|
  {
    if turns != [] {
      var e, s1 := Erase(turns[0]), GStep(c, s, turns[0]);
      var read := if Step(c, s, e).phase.Reading? then [Handler(true)] else [];
      WithReadsCount(c, s1, turns[1..], t);
      CountConcat([e] + read, WithReads(c, s1, turns[1..]), t);
      CountConcat([e], read, t);
      assert Count([e], t) == if e == t then 1 else 0 by { assert [e][1..] == []; }
    }
  }

  lemma WithReadsIsFair(c: Codec, s: Sess, round: seq<Turn>)
    requires FairRound(round)
    ensures FairRound(WithReads(c, s, round))
  {
    WithReadsCount(c, s, round, Handler(true));
    WithReadsCount(c, s, round, Pipe);
    WithReadsCount(c, s, round, Work(true));
  }

  lemma {:induction false} GExecConcat(c: Codec, s: Sess, a: seq<Turn>, b: seq<Turn>)
    ensures GExec(c, s, a + b) == GExec(c, GExec(c, s, a), b)
    decreases |a|
  {
    if a == [] {
      assert a + b == b;
    } else {
      assert (a + b)[1..] == a[1..] + b;
      GExecConcat(c, GStep(c, s, a[0]), a[1..], b);
    }
  }

  /** Fair rounds stay fair rounds with the reads. */
  lemma {:induction false} RoundsWithReads(c: Codec, s: Sess, rounds: seq<seq<Turn>>) returns (rounds': seq<seq<Turn>>)
    requires forall r :: r in rounds ==> FairRound(r)
    ensures (forall r :: r in rounds' ==> FairRound(r)) && |rounds'| == |rounds|
    ensures Exec(c, s, Flatten(rounds')) == GExec(c, s, Flatten(rounds))
    decreases |rounds|
  {
    if rounds == [] {
      rounds' := [];
    } else {
      assert rounds[0] in rounds;
      var first := WithReads(c, s, rounds[0]);
      WithReadsIsFair(c, s, rounds[0]);
      WithReadsRuns(c, s, rounds[0]);
      var rest := RoundsWithReads(c, GExec(c, s, rounds[0]), rounds[1..]);
      rounds' := [first] + rest;
      assert rounds'[1..] == rest;
      ExecConcat(c, s, first, Flatten(rest));
      GExecConcat(c, s, rounds[0], Flatten(rounds[1..]));
    }
  }

  /** Enough fair rounds settle the session of a segment. */
  lemma SegmentSettles(c: Codec, feeds: seq<Bytes>, rounds: seq<seq<Turn>>)
    requires forall r :: r in rounds ==> FairRound(r)
    requires |rounds| >= RoundBound(c, SourceOf(feeds))
    ensures Settled(GExec(c, Started(feeds), Flatten(rounds)))
  {
    var src, s := SourceOf(feeds), Started(feeds);
    StartedIsSound(c, feeds);
    var rounds' := RoundsWithReads(c, s, rounds);
    if !Settled(s) { StartedMeasure(c, feeds); }
    RoundsSettle(c, src, s, rounds');
  }

  lemma StartedMeasure(c: Codec, feeds: seq<Bytes>)
    ensures Started(feeds).phase.Sending? || Started(feeds).phase.Draining? || Started(feeds).phase.Ending?
    ensures Measure(c, SourceOf(feeds), Started(feeds)) < RoundBound(c, SourceOf(feeds))
  {
    var src := SourceOf(feeds);
    ReadDescends(c, src, Start(src));
    if feeds != [] { SourceFirst(feeds); }
  }
}
