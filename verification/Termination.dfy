/** How every fairly scheduled session ends. A measure over unread input, queued chunks,
    results in flight and phases falls whenever anything but idle polling happens; every
    fair round makes it fall, except in four outcomes that nothing can change any more. */
module Termination {
  import opened Prelude
  import opened Decoder
  import opened Session
  import opened Deadlock
  import opened Reach

  // ---------------------------------------------------------------- the outcomes

  /** The end-of-input send to the pipeline failed; it is not retried. */
  predicate EofLost(s: Sess) {
    s.d.done && !s.d.eof
  }

  /** An early return of the handler, after a write or a read failed. */
  predicate Abandoned(s: Sess) {
    s.phase.Dropping? || s.phase.Gone?
  }

  predicate Settled(s: Sess) {
    s.phase.Finished? || Blocked(s) || EofLost(s) || Abandoned(s)
  }

  lemma SettledForever(c: Codec, src0: Source, s: Sess, t: Turn)
    requires SessInv(c, src0, s) && Settled(s)
    ensures Settled(Step(c, s, t))
    ensures EofLost(s) ==> EofLost(Step(c, s, t))
    ensures Abandoned(s) ==> Abandoned(Step(c, s, t))
    ensures s.phase.Finished? ==> Step(c, s, t).phase.Finished?
  {
    if EofLost(s) { LostStaysLost(c, s, t); }
    if Blocked(s) { BlockedForever(c, s, t); }
  }

  lemma LostStaysLost(c: Codec, s: Sess, t: Turn)
    requires PhasesAgree(s.d) && EofLost(s)
    ensures EofLost(Step(c, s, t))
  {
  }

  // ---------------------------------------------------------------- the measure

  function PhaseWeight(p: Phase): nat {
    match p
    case Sending(_) => 11
    case Draining => 7
    case Reading => 6
    case Ending => 5
    case Flushing => 1
    case _ => 0
  }

  function WorkerWeight(w: Worker): nat {
    match w
    case Poll => 2
    case Drain => 2
    case Feed(_) => 4
    case FeedEof => 4
    case Forward(_, last) => if last then 1 else 2
    case Final => 1
    case Exited(_) => 0
  }

  function Unread(src: Source): nat {
    if src.Http? then |src.body| else |src.arrivals|
  }

  /** Results not yet delivered, each weighted by the stages still ahead of it. */
  function ResultsWeight(c: Codec, src0: Source, d: Dec): int {
    5 * (|Decode(c, Fed(src0))| - |Owed(c, d)|)
    + 4 * |d.latent| + 3 * |d.ready| + 2 * |InHand(d)| + |d.output|
  }

  function Measure(c: Codec, src0: Source, s: Sess): int {
    6 * Unread(s.src) + PhaseWeight(s.phase) + 3 * |s.d.input| + WorkerWeight(s.d.worker)
    + ResultsWeight(c, src0, s.d)
  }

  /** Every result owed is part of the full decoding. */
  lemma OwedWithinFed(c: Codec, src0: Source, s: Sess)
    requires SessInv(c, src0, s) && !Abandoned(s)
    ensures |Owed(c, s.d)| <= |Decode(c, Fed(src0))|
  {
    FedNoneEmpty(src0);
    AcceptedIsPrefix(c, s.d);
    if s.phase.Flushing? || s.phase.Finished? {
      NoneEmptyIsItsOwnPrefix(Fed(src0));
    } else {
      WorkerIsThere(c, src0, s);
      NoneEmptyIsItsOwnPrefix(s.d.sent);
    }
    PrefixOfSum(s.d.accepted, Held(s.d), Fed(src0));
    EmittedPrefix(c, s.d.accepted, Fed(src0));
  }

  lemma MeasureIsNat(c: Codec, src0: Source, s: Sess)
    requires SessInv(c, src0, s) && !Abandoned(s)
    ensures Measure(c, src0, s) >= 0
  {
    OwedWithinFed(c, src0, s);
  }

  /** The only turns that leave the measure alone change nothing, or move an idle worker
      between looking for input and looking for results. */
  predicate OnlyIdled(s: Sess, s': Sess) {
    || s' == s
    || (&& !s.d.done
        && (s.d.worker.Poll? || s.d.worker.Drain?)
        && (s'.d.worker.Poll? || s'.d.worker.Drain?)
        && s' == s.(d := s.d.(worker := s'.d.worker, pass := s'.d.pass)))
  }

  /** What the pipeline accepts it comes to owe, and nothing else. */
  lemma FeedOwes(c: Codec, d: Dec)
    requires !d.eof && (d.worker.Feed? || d.worker.FeedEof?)
    ensures var d' := WorkerTurn(c, d, true);
      |Owed(c, d')| - |Owed(c, d)| == |d'.latent| - |d.latent| >= 0
  {
    if d.worker.Feed? {
      EmittedAppend(c, d.accepted, d.worker.chunk);
    }
  }

  lemma FeedDescends(c: Codec, src0: Source, s: Sess)
    requires !s.d.eof && (s.d.worker.Feed? || s.d.worker.FeedEof?)
    ensures Measure(c, src0, Step(c, s, Work(true))) < Measure(c, src0, s)
  {
    var d, d' := s.d, WorkerTurn(c, s.d, true);
    FeedOwes(c, d);
    assert d'.ready == d.ready && d'.output == d.output && d'.input == d.input && InHand(d') == InHand(d) == [];
    assert WorkerWeight(d'.worker) == WorkerWeight(d.worker) - 2;
  }

  lemma WorkerTurnDescends(c: Codec, src0: Source, s: Sess, accept: bool)
    requires PhasesAgree(s.d) && s.d.alive
    ensures var s' := Step(c, s, Work(accept));
      Measure(c, src0, s') < Measure(c, src0, s) || OnlyIdled(s, s')
  {
    if s.d.worker.Feed? || s.d.worker.FeedEof? { FeedDescends(c, src0, s); }
  }

  lemma WriteDescends(c: Codec, src0: Source, s: Sess, writeOk: bool)
    requires s.d.output != []
    ensures var s' := Write(s, writeOk);
      Abandoned(s') || Measure(c, src0, s') < Measure(c, src0, s)
  {
    var d' := Take(s.d);
    assert Owed(c, d') == Owed(c, s.d);
  }

  lemma SendDescends(c: Codec, src0: Source, s: Sess, p: Phase, m: Bytes)
    requires PhaseWeight(p) + 3 < PhaseWeight(s.phase)
    ensures Measure(c, src0, s.(phase := p, d := Push(s.d, m))) < Measure(c, src0, s)
  {
    assert Owed(c, Push(s.d, m)) == Owed(c, s.d);
  }

  lemma ReadDescends(c: Codec, src0: Source, s: Sess)
    requires s.phase.Reading?
    ensures var s' := HandlerTurn(s, true);
      Abandoned(s') || Measure(c, src0, s') < Measure(c, src0, s)
  {
  }

  lemma HandlerTurnDescends(c: Codec, src0: Source, s: Sess, writeOk: bool)
    requires AboutToSend(s) ==> !s.d.worker.Exited?
    ensures var s' := Step(c, s, Handler(writeOk));
      Abandoned(s') || Measure(c, src0, s') < Measure(c, src0, s) || s' == s
  {
    match s.phase
    case Reading => ReadDescends(c, src0, s);
    case Sending(m) => SendDescends(c, src0, s, Draining, m);
    case Ending => SendDescends(c, src0, s, Flushing, []);
    case Draining => if s.d.output != [] { WriteDescends(c, src0, s, writeOk); }
    case Flushing => if s.d.output != [] { WriteDescends(c, src0, s, writeOk); }
    case _ =>
  }

  lemma PipeTurnDescends(c: Codec, src0: Source, s: Sess)
    ensures var s' := Step(c, s, Pipe);
      Measure(c, src0, s') < Measure(c, src0, s) || s' == s
  {
    assert Owed(c, PipeTurn(s.d)) == Owed(c, s.d);
  }

  lemma IdlingKeepsMeasure(c: Codec, src0: Source, s: Sess, s': Sess)
    requires OnlyIdled(s, s')
    ensures Measure(c, src0, s') == Measure(c, src0, s)
  {
  }

  /** No turn raises the measure. */
  lemma TurnDescends(c: Codec, src0: Source, s: Sess, t: Turn)
    requires SessInv(c, src0, s) && !Abandoned(s)
    ensures var s' := Step(c, s, t);
      Abandoned(s') || Measure(c, src0, s') < Measure(c, src0, s)
      || (OnlyIdled(s, s') && Measure(c, src0, s') == Measure(c, src0, s))
  {
    if AboutToSend(s) { WorkerIsThere(c, src0, s); }
    match t
    case Handler(writeOk) => HandlerTurnDescends(c, src0, s, writeOk);
    case Work(accept) => WorkerTurnDescends(c, src0, s, accept);
    case Pipe => PipeTurnDescends(c, src0, s);
    if OnlyIdled(s, Step(c, s, t)) { IdlingKeepsMeasure(c, src0, s, Step(c, s, t)); }
  }

  // ---------------------------------------------------------------- who can move

  predicate HandlerCanMove(s: Sess) {
    || s.phase.Reading? || s.phase.Draining?
    || ((s.phase.Sending? || s.phase.Ending?) && |s.d.input| < INPUT_CAP)
    || (s.phase.Flushing? && (s.d.output != [] || s.d.worker.Exited?))
  }

  predicate PipeCanMove(s: Sess) {
    s.d.worker.Final? && s.d.ready == [] && s.d.latent != []
  }

  /** The number of accepted worker turns within which the worker makes progress; zero if
      it cannot move at all. */
  function WorkerMovesWithin(d: Dec): nat {
    match d.worker
    case Poll => if d.input != [] then 1 else 0
    case Feed(_) => 1
    case FeedEof => 1
    case Drain => if d.ready != [] || d.done then 1 else if d.input != [] then 2 else 0
    case Forward(_, _) => if |d.output| < OUTPUT_CAP then 1 else 0
    case Final => if d.ready != [] || (d.latent == [] && d.eof) then 1 else 0
    case Exited(_) => 0
  }

  /** While the handler flushes, the end of input it sent is queued or has been taken. */
  lemma EofIsQueued(c: Codec, src0: Source, s: Sess)
    requires SessInv(c, src0, s) && s.phase.Flushing?
    ensures EofTaken(s.d) || s.d.input != []
  {
    assert s.d.sent[|Fed(src0)|] == [];
  }

  /** In every unsettled state someone can make progress. This is where deadlock freedom
      and the arrival of the end of input are needed. */
  lemma SomeoneCanMove(c: Codec, src0: Source, s: Sess)
    requires SessInv(c, src0, s) && !Settled(s)
    ensures HandlerCanMove(s) || PipeCanMove(s) || WorkerMovesWithin(s.d) > 0
  {
    if s.phase.Flushing? { EofIsQueued(c, src0, s); }
    if AboutToSend(s) { WorkerIsThere(c, src0, s); }
  }

  // ---------------------------------------------------------------- fair rounds

  function Count(turns: seq<Turn>, t: Turn): nat {
    if turns == [] then 0 else (if turns[0] == t then 1 else 0) + Count(turns[1..], t)
  }

  /** In a fair round everyone gets a turn that can succeed, the worker two. Other turns, with
      the pipeline refusing data for instance, may come in between in any number. */
  predicate FairRound(turns: seq<Turn>) {
    Count(turns, Handler(true)) >= 1 && Count(turns, Pipe) >= 1 && Count(turns, Work(true)) >= 2
  }

  function Progressed(c: Codec, src0: Source, s: Sess, s': Sess): bool {
    Abandoned(s') || EofLost(s') || Measure(c, src0, s') < Measure(c, src0, s)
  }

  lemma ExecFirst(c: Codec, s: Sess, turns: seq<Turn>)
    requires turns != []
    ensures Exec(c, s, turns) == Exec(c, Step(c, s, turns[0]), turns[1..])
  {
    assert turns == [turns[0]] + turns[1..];
    ExecConcat(c, s, [turns[0]], turns[1..]);
    assert [turns[0]][..0] == [];
    assert Exec(c, s, [turns[0]]) == Step(c, s, turns[0]);
  }

  lemma ProgressKept(c: Codec, src0: Source, s: Sess, s1: Sess, t: Turn)
    requires SessInv(c, src0, s1) && Progressed(c, src0, s, s1)
    ensures Progressed(c, src0, s, Step(c, s1, t))
  {
    if Abandoned(s1) || EofLost(s1) {
      SettledForever(c, src0, s1, t);
    } else {
      TurnDescends(c, src0, s1, t);
    }
  }

  /** Progress is not undone by later turns. */
  lemma {:induction false} ProgressStays(c: Codec, src0: Source, s: Sess, s1: Sess, turns: seq<Turn>)
    requires SessInv(c, src0, s1) && Progressed(c, src0, s, s1)
    ensures Progressed(c, src0, s, Exec(c, s1, turns)) && SessInv(c, src0, Exec(c, s1, turns))
    decreases |turns|
  {
    if turns != [] {
      var n := |turns| - 1;
      ProgressStays(c, src0, s, s1, turns[..n]);
      StepKeepsSessInv(c, src0, Exec(c, s1, turns[..n]), turns[n]);
      ProgressKept(c, src0, s, Exec(c, s1, turns[..n]), turns[n]);
    }
  }

  /** How many turns of each kind the state still needs before progress is certain. */
  predicate Suffices(s: Sess, turns: seq<Turn>) {
    || (HandlerCanMove(s) && Count(turns, Handler(true)) >= 1)
    || (PipeCanMove(s) && Count(turns, Pipe) >= 1)
    || (WorkerMovesWithin(s.d) > 0 && Count(turns, Work(true)) >= WorkerMovesWithin(s.d))
  }

  predicate CanMove(s: Sess, t: Turn) {
    || (t == Handler(true) && HandlerCanMove(s))
    || (t == Pipe && PipeCanMove(s))
    || (t == Work(true) && WorkerMovesWithin(s.d) == 1)
  }

  lemma MoverIsNotIdle(c: Codec, s: Sess, t: Turn)
    requires CanMove(s, t) && (AboutToSend(s) ==> !s.d.worker.Exited?)
    ensures !OnlyIdled(s, Step(c, s, t))
  {
    if !t.Work? {
      assert Step(c, s, t).phase != s.phase || Step(c, s, t).src != s.src || Step(c, s, t).d != s.d;
    }
  }

  /** A turn of someone who can move makes progress. */
  lemma MoverProgresses(c: Codec, src0: Source, s: Sess, t: Turn)
    requires SessInv(c, src0, s) && !Settled(s) && CanMove(s, t)
    ensures Progressed(c, src0, s, Step(c, s, t))
  {
    TurnDescends(c, src0, s, t);
    if AboutToSend(s) { WorkerIsThere(c, src0, s); }
    MoverIsNotIdle(c, s, t);
  }

  /** An idle step leaves everyone who could move able to move. */
  lemma IdlingKeepsMovers(c: Codec, s: Sess, t: Turn)
    requires OnlyIdled(s, Step(c, s, t))
    ensures var s' := Step(c, s, t);
      && (HandlerCanMove(s) ==> HandlerCanMove(s'))
      && (PipeCanMove(s) ==> PipeCanMove(s'))
      && (WorkerMovesWithin(s.d) == 1 ==> WorkerMovesWithin(s'.d) == 1)
      && (WorkerMovesWithin(s.d) == 2 ==>
           (t == Work(true) ==> WorkerMovesWithin(s'.d) == 1) && 1 <= WorkerMovesWithin(s'.d) <= 2)
  {
  }

  /** A turn makes progress or leaves enough turns in the rest of the round. */
  lemma OneTurn(c: Codec, src0: Source, s: Sess, turns: seq<Turn>)
    requires SessInv(c, src0, s) && !Settled(s) && turns != [] && Suffices(s, turns)
    ensures var s' := Step(c, s, turns[0]);
      Progressed(c, src0, s, s')
      || (Suffices(s', turns[1..]) && !Settled(s') && Measure(c, src0, s') == Measure(c, src0, s))
  {
    var t, s' := turns[0], Step(c, s, turns[0]);
    TurnDescends(c, src0, s, t);
    if !Progressed(c, src0, s, s') {
      IdlingKeepsMovers(c, s, t);
      if (t == Handler(true) && HandlerCanMove(s)) || (t == Pipe && PipeCanMove(s))
          || (t == Work(true) && WorkerMovesWithin(s.d) == 1) {
        MoverProgresses(c, src0, s, t);
        assert false;
      }
    }
  }

  lemma {:induction false} RoundProgresses(c: Codec, src0: Source, s: Sess, turns: seq<Turn>)
    requires SessInv(c, src0, s) && !Settled(s) && Suffices(s, turns)
    ensures Progressed(c, src0, s, Exec(c, s, turns)) && SessInv(c, src0, Exec(c, s, turns))
    decreases |turns|
  {
    OneTurn(c, src0, s, turns);
    ExecFirst(c, s, turns);
    var s1 := Step(c, s, turns[0]);
    StepKeepsSessInv(c, src0, s, turns[0]);
    if Progressed(c, src0, s, s1) {
      ProgressStays(c, src0, s, s1, turns[1..]);
    } else {
      RoundProgresses(c, src0, s1, turns[1..]);
    }
  }

  lemma {:induction false} StaysSettled(c: Codec, src0: Source, s: Sess, turns: seq<Turn>)
    requires SessInv(c, src0, s) && Settled(s)
    ensures SessInv(c, src0, Exec(c, s, turns)) && Settled(Exec(c, s, turns))
    ensures EofLost(s) ==> EofLost(Exec(c, s, turns))
    decreases |turns|
  {
    if turns != [] {
      var n := |turns| - 1;
      StaysSettled(c, src0, s, turns[..n]);
      StepKeepsSessInv(c, src0, Exec(c, s, turns[..n]), turns[n]);
      SettledForever(c, src0, Exec(c, s, turns[..n]), turns[n]);
    }
  }

  lemma FairRoundSuffices(c: Codec, src0: Source, s: Sess, turns: seq<Turn>)
    requires SessInv(c, src0, s) && !Settled(s) && FairRound(turns)
    ensures Suffices(s, turns)
  {
    SomeoneCanMove(c, src0, s);
  }

  /** After more fair rounds than the measure counts, the session is settled. */
  lemma {:induction false} RoundsSettle(c: Codec, src0: Source, s: Sess, rounds: seq<seq<Turn>>)
    requires SessInv(c, src0, s)
    requires forall r :: r in rounds ==> FairRound(r)
    requires Settled(s) || Measure(c, src0, s) < |rounds|
    ensures Settled(Exec(c, s, Flatten(rounds))) && SessInv(c, src0, Exec(c, s, Flatten(rounds)))
    decreases |rounds|
  {
    if Settled(s) {
      StaysSettled(c, src0, s, Flatten(rounds));
    } else {
      MeasureIsNat(c, src0, s);
      var s1 := Exec(c, s, rounds[0]);
      FairRoundSuffices(c, src0, s, rounds[0]);
      RoundProgresses(c, src0, s, rounds[0]);
      RoundsSettle(c, src0, s1, rounds[1..]);
      ExecConcat(c, s, rounds[0], Flatten(rounds[1..]));
    }
  }

  /** The number of fair rounds that settles any session. */
  function RoundBound(c: Codec, src: Source): nat {
    5 * |Decode(c, Fed(src))| + 6 * Unread(src) + 9
  }

  /** Every fair schedule ends a session in one of four ways: it finishes, with everything
      written; handler and worker block each other, inside a drain pass of more than 32
      results; the pipeline refused the end of input; or a read or write failed. */
  lemma FairOutcome(c: Codec, src: Source, rounds: seq<seq<Turn>>)
    requires forall r :: r in rounds ==> FairRound(r)
    requires |rounds| >= RoundBound(c, src)
    ensures var s := Exec(c, Start(src), Flatten(rounds));
      || (s.phase.Finished? && s.written == Decoded(c, src))
      || (Blocked(s) && s.d.pass > OUTPUT_CAP)
      || EofLost(s)
      || Abandoned(s)
  {
    AlwaysSessInv(c, src, []);
    RoundsSettle(c, src, Start(src), rounds);
    EndToEnd(c, src, Flatten(rounds));
    BlockedInALongPass(c, src, Flatten(rounds));
  }

  lemma FinishedHadEof(c: Codec, src0: Source, s: Sess)
    requires SessInv(c, src0, s) && s.phase.Finished?
    ensures !EofLost(s)
  {
  }

  /** For a fair schedule without a failed read or write, the session finishes exactly if the
      pipeline did not refuse the end of input and the two sides are not blocked; on an input
      that cannot block them, exactly if the end of input was not refused. */
  lemma FinishesIffEofAccepted(c: Codec, src: Source, rounds: seq<seq<Turn>>)
    requires forall r :: r in rounds ==> FairRound(r)
    requires |rounds| >= RoundBound(c, src)
    requires !Abandoned(Exec(c, Start(src), Flatten(rounds)))
    ensures var s := Exec(c, Start(src), Flatten(rounds));
      && (s.phase.Finished? <==> !EofLost(s) && !Blocked(s))
      && (!CanBlock(c, src) ==> (s.phase.Finished? <==> !EofLost(s)))
  {
    var s := Exec(c, Start(src), Flatten(rounds));
    FairOutcome(c, src, rounds);
    AlwaysSessInv(c, src, Flatten(rounds));
    BlockedMeansCanBlock(c, src, Flatten(rounds));
    if s.phase.Finished? { FinishedHadEof(c, src, s); }
  }

  /** Every input can lose its end in the pipeline. */
  lemma EofCanBeLost(c: Codec, src: Source) returns (turns: seq<Turn>)
    ensures EofLost(Exec(c, Start(src), turns))
  {
    var s := ReachEof(c, src);
    turns :| Cooperative(turns) && Exec(c, Start(src), turns) == s;
    ExecAppend(c, Start(src), turns, Work(false));
    turns := turns + [Work(false)];
  }

  /** Once the end of input is lost, no continuation of any length finishes the session. */
  lemma LostEofNeverFinishes(c: Codec, src: Source, turns: seq<Turn>, more: seq<Turn>)
    requires EofLost(Exec(c, Start(src), turns))
    ensures !Exec(c, Start(src), turns + more).phase.Finished?
  {
    AlwaysSessInv(c, src, turns);
    var s := Exec(c, Start(src), turns);
    StaysSettled(c, src, s, more);
    ExecConcat(c, Start(src), turns, more);
    if Exec(c, s, more).phase.Finished? { FinishedHadEof(c, src, Exec(c, s, more)); }
  }

  /** The handler has not come to the end of its session's input. */
  predicate StillReading(s: Sess) {
    s.phase.Reading? || s.phase.Sending? || s.phase.Draining?
  }

  predicate NothingFailed(s: Sess) {
    !EofLost(s) && !Abandoned(s) && (StillReading(s) ==> ReadsCleanly(s.src)) && PhasesAgree(s.d)
  }

  lemma CooperativeStep(c: Codec, src0: Source, s: Sess, t: Turn)
    requires NothingFailed(s) && t in {Handler(true), Work(true), Pipe}
    requires PhasesAgree(Step(c, s, t).d)
    ensures NothingFailed(Step(c, s, t))
  {
    ReadNextCleanly(s.src);
  }

  lemma {:induction false} CooperativeNeverFails(c: Codec, src: Source, turns: seq<Turn>)
    requires Cooperative(turns) && ReadsCleanly(src)
    ensures NothingFailed(Exec(c, Start(src), turns))
    decreases |turns|
  {
    if turns != [] {
      var n := |turns| - 1;
      CooperativeNeverFails(c, src, turns[..n]);
      AlwaysSessInv(c, src, turns);
      CooperativeStep(c, src, Exec(c, Start(src), turns[..n]), turns[n]);
    }
  }

  /** A session cut off by a failed read never comes to its end. */
  lemma {:induction false} FailedReadNeverFinishes(c: Codec, src: Source, turns: seq<Turn>)
    requires !ReadsCleanly(src)
    ensures var s := Exec(c, Start(src), turns);
      && (StillReading(s) ==> !ReadsCleanly(s.src))
      && (StillReading(s) || Abandoned(s))
    decreases |turns|
  {
    if turns != [] {
      var n := |turns| - 1;
      var s := Exec(c, Start(src), turns[..n]);
      FailedReadNeverFinishes(c, src, turns[..n]);
      AlwaysSessInv(c, src, turns[..n]);
      ReadNextCleanly(s.src);
      if AboutToSend(s) || s.phase.Draining? { WorkerIsThere(c, src, s); }
    }
  }

  /** Enough fair rounds in which peer and pipeline cooperate. */
  ghost predicate Ample(c: Codec, src: Source, rounds: seq<seq<Turn>>) {
    && (forall r :: r in rounds ==> FairRound(r))
    && |rounds| >= RoundBound(c, src)
    && Cooperative(Flatten(rounds))
  }

  /** With a cooperative peer and pipeline every fair schedule finishes a session whose input
      cannot block it, and everything is written. */
  lemma CooperationFinishes(c: Codec, src: Source, rounds: seq<seq<Turn>>)
    requires Ample(c, src, rounds) && ReadsCleanly(src) && !CanBlock(c, src)
    ensures var s := Exec(c, Start(src), Flatten(rounds)); s.phase.Finished? && s.written == Decoded(c, src)
  {
    FairOutcome(c, src, rounds);
    CooperativeNeverFails(c, src, Flatten(rounds));
    BlockedMeansCanBlock(c, src, Flatten(rounds));
  }

  lemma {:induction false} BlockedStays(c: Codec, s: Sess, turns: seq<Turn>)
    requires Blocked(s)
    ensures Blocked(Exec(c, s, turns))
    decreases |turns|
  {
    if turns != [] {
      BlockedStays(c, s, turns[..|turns| - 1]);
      BlockedForever(c, Exec(c, s, turns[..|turns| - 1]), turns[|turns| - 1]);
    }
  }

  const ROUND: seq<Turn> := [Handler(true), Pipe, Work(true), Work(true)]

  lemma {:induction false} CountConcat(a: seq<Turn>, b: seq<Turn>, t: Turn)
    ensures Count(a + b, t) == Count(a, t) + Count(b, t)
  {
    if a == [] {
      assert a + b == b;
    } else {
      assert (a + b)[1..] == a[1..] + b;
      CountConcat(a[1..], b, t);
    }
  }

  lemma RoundIsFair(before: seq<Turn>)
    ensures FairRound(before + ROUND) && FairRound(ROUND)
  {
    assert Count(ROUND, Handler(true)) == 1 && Count(ROUND, Pipe) == 1 && Count(ROUND, Work(true)) == 2 by {
      assert ROUND[1..] == [Pipe, Work(true), Work(true)] && ROUND[1..][1..] == [Work(true), Work(true)];
      assert ROUND[1..][1..][1..] == [Work(true)] && ROUND[1..][1..][1..][1..] == [];
    }
    CountConcat(before, ROUND, Handler(true));
    CountConcat(before, ROUND, Pipe);
    CountConcat(before, ROUND, Work(true));
  }

  /** Any turns can be the beginning of fair rounds, as many as wanted. */
  lemma {:induction false} RoundsAfter(before: seq<Turn>, n: nat) returns (rounds: seq<seq<Turn>>, more: seq<Turn>)
    ensures (forall r :: r in rounds ==> FairRound(r)) && |rounds| == n + 1
    ensures Flatten(rounds) == before + more && Cooperative(more)
    decreases n
  {
    RoundIsFair(before);
    if n == 0 {
      rounds, more := [before + ROUND], ROUND;
      assert Flatten(rounds) == (before + ROUND) + Flatten([]);
    } else {
      var rest, tail := RoundsAfter([], n - 1);
      rounds, more := [before + ROUND] + rest, ROUND + tail;
      assert rounds[1..] == rest && [] + tail == tail;
      Assoc(before, ROUND, tail);
    }
  }

  ghost predicate FinishesUnder(c: Codec, src: Source, rounds: seq<seq<Turn>>) {
    Exec(c, Start(src), Flatten(rounds)).phase.Finished?
  }

  /** Every fair cooperative schedule finishes a session if and only if it can be read to its end
      and its input cannot block it. */
  lemma CooperationFinishesIff(c: Codec, src: Source)
    ensures (forall rounds :: Ample(c, src, rounds) ==> FinishesUnder(c, src, rounds))
        <==> ReadsCleanly(src) && !CanBlock(c, src)
  {
    if !ReadsCleanly(src) || CanBlock(c, src) {
      var turns := [];
      if CanBlock(c, src) { turns := BlockingSchedule(c, src); }
      var rounds, more := RoundsAfter(turns, RoundBound(c, src));
      ExecConcat(c, Start(src), turns, more);
      if CanBlock(c, src) {
        BlockedStays(c, Exec(c, Start(src), turns), more);
      } else {
        FailedReadNeverFinishes(c, src, Flatten(rounds));
      }
      assert Ample(c, src, rounds) && !FinishesUnder(c, src, rounds);
    } else {
      forall rounds | Ample(c, src, rounds) ensures FinishesUnder(c, src, rounds) {
        CooperationFinishes(c, src, rounds);
      }
    }
  }
}
