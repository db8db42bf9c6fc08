/** What becomes of the worker once the handle is gone: under every fair schedule the pool gets
    it back, unless the pipeline refused the end of input after its last result. */
module Release {
  import opened Prelude
  import opened Decoder
  import opened Session
  import opened Termination

  /** The end of input has been sent, or the worker is gone. */
  predicate Closing(c: Codec, d: Dec) {
    Inv(c, d) && ([] in d.sent || d.worker.Exited?)
  }

  /** The handle is gone, having sent an empty chunk before or found the worker gone. */
  predicate Released(c: Codec, d: Dec) {
    Inv(c, d) && !d.alive
  }

  lemma ReleasedIsClosing(c: Codec, d: Dec)
    requires Released(c, d)
    ensures Closing(c, d)
  {
  }

  /** A worker that looks for input finds the end of input there, or something before it. */
  lemma EndIsQueued(c: Codec, d: Dec)
    requires Closing(c, d) && d.worker.Poll?
    ensures d.input != []
  {
    assert d.sent == d.accepted + d.input;
  }

  /** The worker waits for the end of a pipeline that has not been told to end. */
  predicate Stranded(d: Dec) {
    d.worker.Final? && !d.eof && d.ready == [] && d.latent == []
  }

  predicate Over(d: Dec) {
    d.worker.Exited? || Stranded(d)
  }

  function Weight(w: Worker): nat {
    match w
    case Poll => 2
    case Feed(_) => 4
    case FeedEof => 4
    case Drain => 3
    case Forward(_, last) => if last then 1 else 2
    case Final => 1
    case Exited(_) => 0
  }

  /** What is under way, weighted by the stages still ahead of it. */
  function Pending(d: Dec): int {
    3 * |d.input| + Weight(d.worker) + 4 * |d.latent| + 3 * |d.ready| + 2 * |InHand(d)|
  }

  /** What is left to do: that, and the results that are not owed yet. */
  function Left(c: Codec, d: Dec): int {
    Pending(d) + 5 * (|Decode(c, UpToEof(d.sent))| - |Owed(c, d)|)
  }

  lemma LeftIsNat(c: Codec, d: Dec)
    requires Inv(c, d)
    ensures Left(c, d) >= 0
  {
    AcceptedIsPrefix(c, d);
    PrefixOfSum(d.accepted, Held(d), UpToEof(d.sent));
    EmittedPrefix(c, d.accepted, UpToEof(d.sent));
  }

  lemma EnvKeepsClosing(c: Codec, d: Dec, t: Turn)
    requires Closing(c, d) && !t.Handler?
    ensures var d' := EnvTurn(c, d, t);
      && Closing(c, d') && d'.sent == d.sent && d'.alive == d.alive && d'.delivered == d.delivered
      && |d'.input| <= |d.input|
  {
    if t.Pipe? { PipeKeepsInv(c, d); } else { WorkerKeepsInv(c, d, t.accept); }
    EnvFrame(c, d, t);
  }

  lemma OverStays(c: Codec, d: Dec, t: Turn)
    requires Over(d) && !t.Handler?
    ensures Over(EnvTurn(c, d, t))
  {
  }

  lemma FeedLeaves(c: Codec, d: Dec)
    requires !d.eof && (d.worker.Feed? || d.worker.FeedEof?)
    ensures Left(c, WorkerTurn(c, d, true)) < Left(c, d)
  {
    FeedOwes(c, d);
    var d' := WorkerTurn(c, d, true);
    assert d'.sent == d.sent && d'.input == d.input && d'.ready == d.ready && InHand(d') == InHand(d) == [];
  }

  lemma PendingFalls(c: Codec, d: Dec, accept: bool)
    requires PhasesAgree(d) && (d.worker.Poll? ==> d.input != [])
    requires !accept || !(d.worker.Feed? || d.worker.FeedEof?)
    ensures var d' := WorkerTurn(c, d, accept); Pending(d') < Pending(d) || d' == d
  {
  }

  lemma OtherTurnLeaves(c: Codec, d: Dec, accept: bool)
    requires PhasesAgree(d) && (d.worker.Poll? ==> d.input != [])
    requires !accept || !(d.worker.Feed? || d.worker.FeedEof?)
    ensures var d' := WorkerTurn(c, d, accept); Left(c, d') < Left(c, d) || d' == d
  {
    PendingFalls(c, d, accept);
    var d' := WorkerTurn(c, d, accept);
    assert d'.sent == d.sent && d'.accepted == d.accepted && d'.eof == d.eof;
  }

  /** A turn does something, and then less is left, or it changes nothing. */
  lemma TurnLeaves(c: Codec, d: Dec, t: Turn)
    requires Closing(c, d) && !t.Handler?
    ensures Left(c, EnvTurn(c, d, t)) < Left(c, d) || EnvTurn(c, d, t) == d
  {
    if t.Work? {
      if d.worker.Poll? { EndIsQueued(c, d); }
      if t.accept && (d.worker.Feed? || d.worker.FeedEof?) {
        FeedLeaves(c, d);
      } else {
        OtherTurnLeaves(c, d, t.accept);
      }
    }
  }

  /** Unless it is over, the worker or the pipeline can do something. */
  lemma SomethingHappens(c: Codec, d: Dec)
    requires Released(c, d) && !Over(d)
    ensures EnvTurn(c, d, Work(true)) != d || EnvTurn(c, d, Pipe) != d
  {
    if d.worker.Poll? { EndIsQueued(c, d); }
  }

  /** The worker's and the pipeline's part of some turns; the handle takes no more. */
  function Alone(c: Codec, d: Dec, turns: seq<Turn>): Dec
    decreases |turns|
  {
    if turns == [] then d
    else Alone(c, if turns[0].Handler? then d else EnvTurn(c, d, turns[0]), turns[1..])
  }

  lemma {:induction false} AloneKeeps(c: Codec, d: Dec, turns: seq<Turn>)
    requires Closing(c, d)
    ensures var d' := Alone(c, d, turns);
      && Closing(c, d') && d'.sent == d.sent && d'.alive == d.alive && d'.delivered == d.delivered
      && Left(c, d') <= Left(c, d) && (Over(d) ==> Over(d'))
    decreases |turns|
  {
    if turns != [] {
      if turns[0].Handler? {
        AloneKeeps(c, d, turns[1..]);
      } else {
        EnvKeepsClosing(c, d, turns[0]);
        if Over(d) { OverStays(c, d, turns[0]); }
        TurnLeaves(c, d, turns[0]);
        AloneKeeps(c, EnvTurn(c, d, turns[0]), turns[1..]);
      }
    }
  }

  /** Turns that hold one that can do something leave less to do. */
  lemma {:induction false} AloneProgresses(c: Codec, d: Dec, turns: seq<Turn>)
    requires Closing(c, d)
    requires (EnvTurn(c, d, Work(true)) != d && Count(turns, Work(true)) > 0)
          || (EnvTurn(c, d, Pipe) != d && Count(turns, Pipe) > 0)
    ensures Left(c, Alone(c, d, turns)) < Left(c, d)
    decreases |turns|
  {
    var t := turns[0];
    var d1 := if t.Handler? then d else EnvTurn(c, d, t);
    if d1 == d {
      AloneProgresses(c, d, turns[1..]);
    } else {
      EnvKeepsClosing(c, d, t);
      TurnLeaves(c, d, t);
      AloneKeeps(c, d1, turns[1..]);
    }
  }

  lemma {:induction false} AloneConcat(c: Codec, d: Dec, a: seq<Turn>, b: seq<Turn>)
    ensures Alone(c, d, a + b) == Alone(c, Alone(c, d, a), b)
    decreases |a|
  {
    if a == [] {
      assert a + b == b;
    } else {
      assert (a + b)[1..] == a[1..] + b;
      AloneConcat(c, if a[0].Handler? then d else EnvTurn(c, d, a[0]), a[1..], b);
    }
  }

  lemma RoundLeaves(c: Codec, d: Dec, round: seq<Turn>)
    requires Released(c, d) && FairRound(round)
    ensures Released(c, Alone(c, d, round))
    ensures if Over(d) then Over(Alone(c, d, round)) else Left(c, Alone(c, d, round)) < Left(c, d)
  {
    ReleasedIsClosing(c, d);
    AloneKeeps(c, d, round);
    if !Over(d) {
      SomethingHappens(c, d);
      AloneProgresses(c, d, round);
    }
  }

  lemma {:induction false} RoundsEnd(c: Codec, d: Dec, rounds: seq<seq<Turn>>)
    requires Released(c, d) && (forall r :: r in rounds ==> FairRound(r))
    requires Over(d) || Left(c, d) < |rounds|
    ensures Released(c, Alone(c, d, Flatten(rounds))) && Over(Alone(c, d, Flatten(rounds)))
    decreases |rounds|
  {
    if rounds == [] {
      LeftIsNat(c, d);
    } else {
      var d1 := Alone(c, d, rounds[0]);
      assert rounds[0] in rounds;
      RoundLeaves(c, d, rounds[0]);
      RoundsEnd(c, d1, rounds[1..]);
      AloneConcat(c, d, rounds[0], Flatten(rounds[1..]));
    }
  }

  /** The fair rounds that end any job whose handle is gone. */
  function ReleaseBound(c: Codec, d: Dec): nat {
    3 * INPUT_CAP + 9 * |Decode(c, UpToEof(d.sent))| + 8
  }

  lemma LeftIsBounded(c: Codec, d: Dec)
    requires Closing(c, d)
    ensures Left(c, d) < ReleaseBound(c, d)
  {
    AcceptedIsPrefix(c, d);
    PrefixOfSum(d.accepted, Held(d), UpToEof(d.sent));
    EmittedPrefix(c, d.accepted, UpToEof(d.sent));
  }

  /** After the handle is gone, enough fair rounds bring the worker back to the pool if and only
      if the pipeline took the end of input or some result was left to forward; otherwise the
      worker never comes back. */
  lemma WorkerReturnsIff(c: Codec, d: Dec, rounds: seq<seq<Turn>>, more: seq<Turn>)
    requires Released(c, d) && (forall r :: r in rounds ==> FairRound(r)) && |rounds| >= ReleaseBound(c, d)
    ensures var d' := Alone(c, d, Flatten(rounds));
      && (d'.worker.Exited? <==> d'.eof || |d'.delivered + d'.output| < |Owed(c, d')|)
      && (!d'.worker.Exited? ==> !Alone(c, d', more).worker.Exited?)
  {
    ReleasedIsClosing(c, d);
    LeftIsBounded(c, d);
    RoundsEnd(c, d, rounds);
    var d' := Alone(c, d, Flatten(rounds));
    if Stranded(d') { StrandedStays(c, d', more); }
  }

  lemma {:induction false} StrandedStays(c: Codec, d: Dec, turns: seq<Turn>)
    requires Stranded(d)
    ensures Alone(c, d, turns) == d
    decreases |turns|
  {
    if turns != [] { StrandedStays(c, d, turns[1..]); }
  }

  lemma {:induction false} GoneIsAlone(c: Codec, s: Sess, turns: seq<Turn>)
    requires s.phase.Gone?
    ensures Exec(c, s, turns) == s.(d := Alone(c, s.d, turns))
    decreases |turns|
  {
    if turns != [] {
      ExecFirst(c, s, turns);
      GoneIsAlone(c, Step(c, s, turns[0]), turns[1..]);
    }
  }

  /** So it is with the worker of a session that was given up, however it had run before. */
  lemma AbandonedWorkerReturnsIff(c: Codec, src: Source, turns: seq<Turn>, rounds: seq<seq<Turn>>, more: seq<Turn>)
    requires var s := Exec(c, Start(src), turns);
      s.phase.Gone? && (forall r :: r in rounds ==> FairRound(r)) && |rounds| >= ReleaseBound(c, s.d)
    ensures var d := Exec(c, Start(src), turns + Flatten(rounds)).d;
      && (d.worker.Exited? <==> d.eof || |d.delivered + d.output| < |Owed(c, d)|)
      && (!d.worker.Exited? ==> !Exec(c, Start(src), turns + Flatten(rounds) + more).d.worker.Exited?)
  {
    var s := Exec(c, Start(src), turns);
    AlwaysSessInv(c, src, turns);
    ExecConcat(c, Start(src), turns, Flatten(rounds));
    ExecConcat(c, Start(src), turns + Flatten(rounds), more);
    GoneIsAlone(c, s, Flatten(rounds));
    GoneIsAlone(c, Exec(c, s, Flatten(rounds)), more);
    WorkerReturnsIff(c, s.d, rounds, more);
  }
}
