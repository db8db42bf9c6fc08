/** The steps the HTTP and TCP handlers share, on a real handle: each is tied to the turn
    of the session machine that it performs. */
module Drive {
  import opened Prelude
  import opened Decoder
  import opened Session
  import opened Handle
  import opened Deadlock
  import opened Reach
  import opened Termination

  /** The handle's history is a schedule that takes the session of `src` to `s`, and it is what
      the plan said first, but for the outcomes of writes. */
  ghost predicate Tracks(h: PooledDecoder, src: Source, s: Sess)
    reads h
  {
    h.Valid() && s == Exec(h.codec, Start(src), h.log) && s.d == h.d && h.taken == Erased(h.log)
  }

  /** As above, but the connection's own turn that has just come is not in the history yet. */
  ghost predicate InTurn(h: PooledDecoder, src: Source, s1: Sess)
    reads h
  {
    h.Valid() && s1 == Exec(h.codec, Start(src), h.log) && h.taken == Erased(h.log) + [Handler(true)]
  }

  /** The log and the turns taken grow alike. */
  lemma KeepsStep(log: seq<Turn>, taken: seq<Turn>, turns: seq<Turn>)
    requires taken == Erased(log) && Erased(turns) == turns
    ensures taken + turns == Erased(log + turns)
    ensures forall ok :: taken + turns + [Handler(true)] == Erased(log + turns + [Handler(ok)])
  {
    ErasedConcat(log, turns);
    forall ok ensures taken + turns + [Handler(true)] == Erased(log + turns + [Handler(ok)]) {
      ErasedAppend(log + turns, Handler(ok));
    }
  }

  lemma Advance(c: Codec, src: Source, s: Sess, want: Want, log: seq<Turn>, turns: seq<Turn>)
    requires s == Exec(c, Start(src), log) && Waited(c, s.d, want, turns)
    requires match want
      case ToSend => s.phase.Sending? || s.phase.Ending? || s.phase.Dropping? || NoHandler(turns)
      case ToReceive => s.phase.Flushing? || NoHandler(turns)
    ensures Exec(c, Start(src), log + turns) == s.(d := Env(c, s.d, turns))
  {
    ExecConcat(c, Start(src), log, turns);
    WaitingIsExec(c, s, want, turns);
  }

  lemma {:induction false} NoHandlerWaits(c: Codec, d: Dec, want: Want, turns: seq<Turn>)
    requires NoHandler(turns)
    ensures Waited(c, d, want, turns)
    decreases |turns|
  {
    if turns != [] { NoHandlerWaits(c, d, want, turns[..|turns| - 1]); }
  }

  // ---------------------------------------------------------------- ample plans

  /** A schedule of enough fair rounds in which pipeline and peer cooperate. */
  ghost predicate AmplePlan(c: Codec, src: Source, plan: seq<Turn>) {
    exists rounds :: Ample(c, src, rounds) && plan == Flatten(rounds)
  }

  /** A run that was not abandoned went as if every write had been accepted. */
  lemma {:induction false} ErasedRun(c: Codec, s: Sess, turns: seq<Turn>)
    requires !Abandoned(Exec(c, s, turns))
    ensures Exec(c, s, Erased(turns)) == Exec(c, s, turns)
    decreases |turns|
  {
    if turns != [] {
      var n := |turns| - 1;
      assert turns == turns[..n] + [turns[n]];
      ErasedRun(c, s, turns[..n]);
      ErasedAppend(turns[..n], turns[n]);
      ExecAppend(c, s, Erased(turns[..n]), Erase(turns[n]));
    }
  }

  /** A session that has used up an ample plan, on an input that cannot block it, has finished
      or met a failed write. */
  lemma AmpleFinishes(c: Codec, src: Source, log: seq<Turn>, plan: seq<Turn>)
    requires AmplePlan(c, src, plan) && ReadsCleanly(src) && !CanBlock(c, src) && Erased(log) == Erased(plan)
    ensures var s := Exec(c, Start(src), log); s.phase.Finished? || Abandoned(s)
  {
    if !Abandoned(Exec(c, Start(src), log)) {
      var rounds :| Ample(c, src, rounds) && plan == Flatten(rounds);
      assert Erased(plan) == plan;
      ErasedRun(c, Start(src), log);
      CooperationFinishes(c, src, rounds);
    }
  }

  // ---------------------------------------------------------------- operations

  /** Asking the peer for the next body event or frame. */
  method Read(h: PooledDecoder, ghost src: Source, ghost s: Sess) returns (go: bool, ghost s': Sess)
    requires Tracks(h, src, s) && s.phase.Reading?
    modifies h
    ensures Tracks(h, src, s') && |h.schedule| <= |old(h.schedule)|
    ensures if go then (s'.phase, s'.src) == ReadNext(s.src) && |h.schedule| < |old(h.schedule)|
            else h.schedule == [] && s'.phase == s.phase
    ensures s'.written == s.written && s'.d.alive == s.d.alive
  {
    ghost var turns;
    go, turns := h.Await();
    NoHandlerWaits(h.codec, s.d, ToSend, turns);
    Advance(h.codec, src, s, ToSend, old(h.log), turns);
    ErasedSame(turns);
    KeepsStep(old(h.log), old(h.taken), turns);
    s' := s.(d := h.d);
    if go {
      ExecAppend(h.codec, Start(src), h.log, Handler(true));
      h.Log(true);
      s' := HandlerTurn(s', true);
    }
  }

  /** `decoder.send`, of a chunk or of the end of input. It cannot be refused. */
  method SendOn(h: PooledDecoder, m: Bytes, ghost src: Source, ghost s: Sess) returns (go: bool, ghost s': Sess)
    requires Tracks(h, src, s)
    requires s.phase == Sending(m) || (s.phase.Ending? && m == [])
    modifies h
    ensures Tracks(h, src, s') && |h.schedule| <= |old(h.schedule)|
    ensures if go then s'.phase == if s.phase.Sending? then Draining else Flushing
            else h.schedule == [] && s'.phase == s.phase
    ensures s'.src == s.src && s'.written == s.written && s'.d.alive
  {
    AlwaysSessInv(h.codec, src, h.log);
    ghost var turns;
    var r;
    r, turns := h.Send(m);
    KeepsStep(old(h.log), old(h.taken), turns);
    ghost var s1 := s.(d := Env(h.codec, s.d, turns));
    Advance(h.codec, src, s, ToSend, old(h.log), turns);
    go, s' := !r.SendSuspended?, s1;
    if go {
      ExecAppend(h.codec, Start(src), old(h.log) + turns, Handler(true));
      AlwaysSessInv(h.codec, src, old(h.log) + turns);
      WorkerIsThere(h.codec, src, s1);
      s' := HandlerTurn(s1, true);
    } else {
      assert old(h.log) + turns + [] == old(h.log) + turns;
      assert old(h.taken) + turns + [] == old(h.taken) + turns;
    }
  }

  /** `decoder.try_recv`. The caller still has to log the turn: `s1` is the session before it. */
  method TryRecv(h: PooledDecoder, ghost src: Source, ghost s: Sess) returns (r: TryResult, ghost s1: Sess)
    requires Tracks(h, src, s) && s.d.alive
    modifies h
    ensures s1 == s.(d := s1.d)
    ensures if r.TrySuspended? then Tracks(h, src, s1) else InTurn(h, src, s1)
    ensures s1.d.alive && TryOutcome(s1.d, r, h.d)
    ensures |h.schedule| <= |old(h.schedule)| && (!r.TrySuspended? ==> |h.schedule| < |old(h.schedule)|)
    ensures r.TrySuspended? ==> h.schedule == []
  {
    ghost var turns;
    r, turns := h.TryRecv();
    NoHandlerWaits(h.codec, s.d, ToReceive, turns);
    ErasedSame(turns);
    KeepsStep(old(h.log), old(h.taken), turns);
    assert old(h.taken) + turns + [] == old(h.taken) + turns;
    Advance(h.codec, src, s, ToReceive, old(h.log), turns);
    s1 := s.(d := Env(h.codec, s.d, turns));
  }

  /** `decoder.recv`, likewise. */
  method Recv(h: PooledDecoder, ghost src: Source, ghost s: Sess) returns (r: RecvResult, ghost s1: Sess)
    requires Tracks(h, src, s) && s.d.alive && s.phase.Flushing?
    modifies h
    ensures s1 == s.(d := s1.d)
    ensures if r.RecvSuspended? then Tracks(h, src, s1) else InTurn(h, src, s1)
    ensures s1.d.alive && RecvOutcome(s1.d, r, h.d)
    ensures |h.schedule| <= |old(h.schedule)| && (!r.RecvSuspended? ==> |h.schedule| < |old(h.schedule)|)
    ensures r.RecvSuspended? ==> h.schedule == []
  {
    ghost var turns;
    r, turns := h.Recv();
    KeepsStep(old(h.log), old(h.taken), turns);
    assert old(h.taken) + turns + [] == old(h.taken) + turns;
    Advance(h.codec, src, s, ToReceive, old(h.log), turns);
    s1 := s.(d := Env(h.codec, s.d, turns));
  }

  /** The turn that follows a receive: the handler has written the result, or not. */
  ghost method Took(h: PooledDecoder, src: Source, s1: Sess, writeOk: bool) returns (s': Sess)
    requires InTurn(h, src, s1) && HandlerTurn(s1, writeOk).d == h.d
    modifies h`log
    ensures Tracks(h, src, s') && s' == HandlerTurn(s1, writeOk)
    ensures h.log == old(h.log) + [Handler(writeOk)]
  {
    ErasedAppend(h.log, Handler(writeOk));
    ExecAppend(h.codec, Start(src), h.log, Handler(writeOk));
    h.Log(writeOk);
    s' := HandlerTurn(s1, writeOk);
  }

  /** An early return drops the handle. */
  method DropOn(h: PooledDecoder, ghost src: Source, ghost s: Sess) returns (go: bool, ghost s': Sess)
    requires Tracks(h, src, s) && s.phase.Dropping? && s.d.alive
    modifies h
    ensures Tracks(h, src, s') && s'.written == s.written
    ensures if go then s'.phase.Gone? else h.schedule == [] && s'.phase.Dropping?
  {
    ghost var turns;
    go, turns := h.Drop();
    KeepsStep(old(h.log), old(h.taken), turns);
    Advance(h.codec, src, s, ToSend, old(h.log), turns);
    s' := s.(d := Env(h.codec, s.d, turns));
    if go {
      ExecAppend(h.codec, Start(src), old(h.log) + turns, Handler(true));
      s' := HandlerTurn(s', true);
    } else {
      assert old(h.log) + turns + [] == old(h.log) + turns;
      assert old(h.taken) + turns + [] == old(h.taken) + turns;
    }
  }
}
