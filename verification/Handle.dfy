/** The handle a connection holds on its pooled decoder (src/pool.rs): blocking send,
    polling and blocking receive, and drop. Between two of the connection's own turns the
    worker and the pipeline act as the schedule says. */
module Handle {
  import opened Prelude
  import opened Decoder
  import opened Session

  /** What a waiting connection wants to do next. */
  datatype Want = ToSend | ToReceive

  predicate MustWait(d: Dec, want: Want) {
    && !d.worker.Exited?
    && (match want case ToSend => |d.input| == INPUT_CAP case ToReceive => d.output == [])
  }

  /** The worker's and the pipeline's part of a list of turns. */
  function Env(c: Codec, d: Dec, turns: seq<Turn>): Dec {
    if turns == [] then d
    else
      var n := |turns| - 1;
      var d1 := Env(c, d, turns[..n]);
      if turns[n].Handler? then d1 else EnvTurn(c, d1, turns[n])
  }

  /** In each of its own turns of the list, the connection had to wait. */
  predicate Waited(c: Codec, d: Dec, want: Want, turns: seq<Turn>) {
    turns == [] ||
    var n := |turns| - 1;
    (turns[n].Handler? ==> MustWait(Env(c, d, turns[..n]), want)) && Waited(c, d, want, turns[..n])
  }

  lemma EnvAppend(c: Codec, d: Dec, turns: seq<Turn>, t: Turn)
    ensures Env(c, d, turns + [t]) == if t.Handler? then Env(c, d, turns) else EnvTurn(c, Env(c, d, turns), t)
  {
    assert (turns + [t])[..|turns|] == turns;
  }

  lemma WaitedAppend(c: Codec, d: Dec, want: Want, turns: seq<Turn>, t: Turn)
    requires Waited(c, d, want, turns)
    requires t.Handler? ==> MustWait(Env(c, d, turns), want)
    ensures Waited(c, d, want, turns + [t])
  {
    assert (turns + [t])[..|turns|] == turns;
  }

  /** Waiting leaves the handler's side of a session as it was. */
  lemma {:induction false} WaitingIsExec(c: Codec, s: Sess, want: Want, turns: seq<Turn>)
    requires Waited(c, s.d, want, turns)
    requires match want
      case ToSend => s.phase.Sending? || s.phase.Ending? || s.phase.Dropping? || NoHandler(turns)
      case ToReceive => s.phase.Flushing? || NoHandler(turns)
    ensures Exec(c, s, turns) == s.(d := Env(c, s.d, turns))
    decreases |turns|
  {
    if turns != [] {
      WaitingIsExec(c, s, want, turns[..|turns| - 1]);
    }
  }

  predicate NoHandler(turns: seq<Turn>) {
    forall i :: 0 <= i < |turns| ==> !turns[i].Handler?
  }

  /** The environment keeps the invariant and touches nothing the handle records. */
  predicate Untouched(d: Dec, d': Dec) {
    && d'.sent == d.sent && d'.delivered == d.delivered && d'.alive == d.alive
    && (d.worker.Exited? ==> d'.worker == d.worker && d'.output == d.output)
  }

  datatype SendResult = Sent | Refused | SendSuspended
  datatype TryResult = Received(item: Item) | NothingYet | Closed | TrySuspended
  datatype RecvResult = Result(item: Item) | Ended | RecvSuspended

  /** How a send ends, from the state `d1` in which the waiting ended. */
  predicate SendOutcome(d1: Dec, m: Bytes, r: SendResult, d: Dec) {
    match r
    case Sent => HasRoom(d1) && d == Push(d1, m)
    case Refused => d1.worker.Exited? && d == d1
    case SendSuspended => d == d1
  }

  predicate TryOutcome(d1: Dec, r: TryResult, d: Dec) {
    match r
    case Received(x) => d1.output != [] && x == d1.output[0] && d == Take(d1)
    case NothingYet => d1.output == [] && !d1.worker.Exited? && d == d1
    case Closed => d1.output == [] && d1.worker.Exited? && d == d1
    case TrySuspended => d == d1
  }

  predicate RecvOutcome(d1: Dec, r: RecvResult, d: Dec) {
    match r
    case Result(x) => d1.output != [] && x == d1.output[0] && d == Take(d1)
    case Ended => d1.output == [] && d1.worker.Exited? && d == d1
    case RecvSuspended => d == d1
  }

  predicate DropOutcome(d1: Dec, done: bool, d: Dec) {
    if !done then d == d1
    else if d1.worker.Exited? then d == d1.(alive := false)
    else HasRoom(d1) && d == Push(d1, []).(alive := false)
  }

  // ---------------------------------------------------------------- schedules

  /** A turn without what only its own outcome says. */
  function Erase(t: Turn): Turn {
    if t.Handler? then Handler(true) else t
  }

  function Erased(turns: seq<Turn>): (r: seq<Turn>)
    ensures |r| == |turns|
  {
    seq(|turns|, i requires 0 <= i < |turns| => Erase(turns[i]))
  }

  lemma ErasedConcat(a: seq<Turn>, b: seq<Turn>)
    ensures Erased(a + b) == Erased(a) + Erased(b)
  {
  }

  lemma ErasedAppend(turns: seq<Turn>, t: Turn)
    ensures Erased(turns + [t]) == Erased(turns) + [Erase(t)]
  {
  }

  lemma ErasedSame(turns: seq<Turn>)
    requires NoHandler(turns)
    ensures Erased(turns) == turns
  {
  }

  lemma ErasedFirst(turns: seq<Turn>)
    requires turns != []
    ensures Erased(turns) == [Erase(turns[0])] + Erased(turns[1..])
  {
  }

  /** What has been taken of a plan, and what is left. */
  predicate OnPlan(plan: seq<Turn>, taken: seq<Turn>, schedule: seq<Turn>) {
    plan == taken + Erased(schedule)
  }

  lemma TakesTurn(plan: seq<Turn>, taken: seq<Turn>, schedule: seq<Turn>)
    requires OnPlan(plan, taken, schedule) && schedule != []
    ensures OnPlan(plan, taken + [Erase(schedule[0])], schedule[1..])
  {
    ErasedFirst(schedule);
    Assoc(taken, [Erase(schedule[0])], Erased(schedule[1..]));
  }

  /** The job when the connection's next turn comes, and the schedule after that turn. */
  datatype Next = Next(d: Dec, rest: seq<Turn>)

  function NextTurn(c: Codec, d: Dec, turns: seq<Turn>): (r: Option<Next>)
    ensures r.Some? ==> |r.value.rest| < |turns|
    decreases |turns|
  {
    if turns == [] then None
    else if turns[0].Handler? then Some(Next(d, turns[1..]))
    else NextTurn(c, EnvTurn(c, d, turns[0]), turns[1..])
  }

  /** A send: where it ends, unless the schedule is used up first. */
  function SendAt(c: Codec, d: Dec, turns: seq<Turn>, m: Bytes): (r: Option<Next>)
    ensures r.Some? ==> |r.value.rest| < |turns|
    decreases |turns|
  {
    match NextTurn(c, d, turns)
    case None => None
    case Some(n) =>
      if n.d.worker.Exited? then Some(n)
      else if |n.d.input| < INPUT_CAP then Some(Next(Push(n.d, m), n.rest))
      else SendAt(c, n.d, n.rest, m)
  }

  class PooledDecoder {
    const codec: Codec
    var d: Dec
    var schedule: seq<Turn>
    ghost const plan: seq<Turn>
    ghost var taken: seq<Turn>
    ghost var log: seq<Turn>
    ghost var acts: seq<Act>

    /** The job's state is what its history of actions makes it, so its invariant holds; and
        the turns that have come are those the schedule had first. */
    ghost predicate Valid()
      reads this
    {
      d == ApplyAll(codec, FRESH, acts) && OnPlan(plan, taken, schedule)
    }

    /** Nothing has happened yet. */
    ghost predicate Unused()
      reads this
    {
      Valid() && d == FRESH && log == [] && taken == [] && plan == Erased(schedule)
    }

    lemma ValidMeansInv()
      requires Valid()
      ensures Inv(codec, d)
    {
      AlwaysInv(codec, acts);
    }

    /** Performing and recording one action on the job. */
    method Do(a: Act)
      requires Valid()
      modifies this`d, this`acts
      ensures Valid() && d == Apply(codec, old(d), a)
    {
      assert OnPlan(plan, taken, schedule);
      assert Apply(codec, d, a) == ApplyAll(codec, FRESH, acts + [a]) by { ApplyAllAppend(codec, FRESH, acts, a); }
      d, acts := Apply(codec, d, a), acts + [a];
    }

    constructor (codec: Codec, schedule: seq<Turn>)
      ensures Unused() && this.codec == codec && this.schedule == schedule
    {
      this.codec, this.schedule, d, log, acts := codec, schedule, FRESH, [], [];
      taken, plan := [], Erased(schedule);
      new;
      assert [] + Erased(schedule) == Erased(schedule);
    }

    /** Lets the others act until the connection's next turn; fails if there is none. */
    method Await() returns (go: bool, ghost turns: seq<Turn>)
      requires Valid()
      modifies this
      ensures Valid() && Untouched(old(d), d)
      ensures NoHandler(turns) && log == old(log) + turns && d == Env(codec, old(d), turns)
      ensures |schedule| <= |old(schedule)|
      ensures if go then |schedule| < |old(schedule)| else schedule == []
      ensures taken == old(taken) + turns + if go then [Handler(true)] else []
      ensures NextTurn(codec, old(d), old(schedule)) == if go then Some(Next(d, schedule)) else None
    {
      turns := [];
      while schedule != [] && !schedule[0].Handler?
        invariant Valid() && Untouched(old(d), d)
        invariant NoHandler(turns) && log == old(log) + turns && d == Env(codec, old(d), turns)
        invariant |schedule| <= |old(schedule)| && taken == old(taken) + turns
        invariant NextTurn(codec, old(d), old(schedule)) == NextTurn(codec, d, schedule)
        decreases |schedule|
      {
        turns := LetOneAct(old(d), turns, old(log), old(taken));
      }
      go := schedule != [];
      if go {
        TakesTurn(plan, taken, schedule);
        taken, schedule := taken + [Handler(true)], schedule[1..];
      } else {
        assert taken + [] == taken;
      }
    }

    /** One turn of the worker or the pipeline, after the turns before it. */
    method LetOneAct(ghost d0: Dec, ghost before: seq<Turn>, ghost log0: seq<Turn>, ghost taken0: seq<Turn>)
        returns (ghost turns: seq<Turn>)
      requires Valid() && schedule != [] && !schedule[0].Handler?
      requires Untouched(d0, d) && NoHandler(before) && d == Env(codec, d0, before)
      requires log == log0 + before && taken == taken0 + before
      modifies this
      ensures Valid() && Untouched(d0, d) && NoHandler(turns) && d == Env(codec, d0, turns)
      ensures log == log0 + turns && taken == taken0 + turns && |schedule| < |old(schedule)|
      ensures NextTurn(codec, old(d), old(schedule)) == NextTurn(codec, d, schedule)
    {
      var t := schedule[0];
      EnvAppend(codec, d0, before, t);
      Assoc(log0, before, [t]);
      Assoc(taken0, before, [t]);
      TakesTurn(plan, taken, schedule);
      ValidMeansInv();
      EnvFrame(codec, d, t);
      taken, schedule := taken + [t], schedule[1..];
      Do(if t.Pipe? then PipeAct else WorkerAct(t.accept));
      turns := before + [t];
      log := log + [t];
    }

    /** Records a turn of the connection. */
    ghost method Log(writeOk: bool)
      modifies this`log
      ensures log == old(log) + [Handler(writeOk)]
    {
      log := log + [Handler(writeOk)];
    }

    /** `send`: waits for room; fails if the worker is gone. `turns` is the wait. */
    method Send(m: Bytes) returns (r: SendResult, ghost turns: seq<Turn>)
      requires Valid() && d.alive
      modifies this
      ensures Valid() && |schedule| <= |old(schedule)|
      ensures Waited(codec, old(d), ToSend, turns) && Erased(turns) == turns
      ensures log == old(log) + turns + if r.SendSuspended? then [] else [Handler(true)]
      ensures taken == old(taken) + turns + if r.SendSuspended? then [] else [Handler(true)]
      ensures Untouched(old(d), Env(codec, old(d), turns))
      ensures SendOutcome(Env(codec, old(d), turns), m, r, d)
      ensures r.SendSuspended? ==> schedule == []
      ensures !r.SendSuspended? ==> |schedule| < |old(schedule)|
      ensures SendAt(codec, old(d), old(schedule), m) ==
        if r.SendSuspended? then None else Some(Next(d, schedule))
    {
      turns := [];
      while true
        invariant Valid() && Untouched(old(d), d) && d == Env(codec, old(d), turns)
        invariant Waited(codec, old(d), ToSend, turns) && Erased(turns) == turns
        invariant log == old(log) + turns && taken == old(taken) + turns
        invariant |schedule| <= |old(schedule)|
        invariant SendAt(codec, old(d), old(schedule), m) == SendAt(codec, d, schedule, m)
        decreases |schedule|
      {
        var go;
        go, turns := AwaitMore(ToSend, old(d), turns, old(log), old(taken));
        if !go { return SendSuspended, turns; }
        if d.worker.Exited? {
          Log(true);
          return Refused, turns;
        } else if |d.input| < INPUT_CAP {
          Do(PushAct(m));
          Log(true);
          return Sent, turns;
        }
        ValidMeansInv();
        turns := WaitOn(ToSend, old(d), turns, old(log), old(taken));
      }
    }

    /** Waiting on from a wait in progress, for the connection's next turn. */
    method AwaitMore(ghost want: Want, ghost d0: Dec, ghost before: seq<Turn>,
                     ghost log0: seq<Turn>, ghost taken0: seq<Turn>)
        returns (go: bool, ghost turns: seq<Turn>)
      requires Valid() && Untouched(d0, d) && d == Env(codec, d0, before)
      requires Waited(codec, d0, want, before) && Erased(before) == before
      requires log == log0 + before && taken == taken0 + before
      modifies this
      ensures Valid() && Untouched(d0, d) && d == Env(codec, d0, turns)
      ensures Waited(codec, d0, want, turns) && Erased(turns) == turns && log == log0 + turns
      ensures taken == taken0 + turns + if go then [Handler(true)] else []
      ensures |schedule| <= |old(schedule)|
      ensures if go then |schedule| < |old(schedule)| else schedule == []
      ensures NextTurn(codec, old(d), old(schedule)) == if go then Some(Next(d, schedule)) else None
    {
      ghost var more;
      go, more := Await();
      EnvConcat(codec, d0, want, before, more);
      ErasedConcat(before, more);
      Assoc(log0, before, more);
      Assoc(taken0, before, more);
      turns := before + more;
    }

    /** A turn in which the connection has to wait. */
    ghost method WaitOn(want: Want, d0: Dec, before: seq<Turn>, log0: seq<Turn>, taken0: seq<Turn>)
        returns (turns: seq<Turn>)
      requires Waited(codec, d0, want, before) && Erased(before) == before && d == Env(codec, d0, before)
      requires MustWait(d, want) && log == log0 + before && taken == taken0 + before + [Handler(true)]
      modifies this`log
      ensures d == Env(codec, d0, turns) && Waited(codec, d0, want, turns) && Erased(turns) == turns
      ensures log == log0 + turns && taken == taken0 + turns
    {
      Log(true);
      EnvAppend(codec, d0, before, Handler(true));
      WaitedAppend(codec, d0, want, before, Handler(true));
      ErasedAppend(before, Handler(true));
      Assoc(log0, before, [Handler(true)]);
      Assoc(taken0, before, [Handler(true)]);
      turns := before + [Handler(true)];
    }

    /** `try_recv`. The turn itself is logged by the caller, who knows how the write went. */
    method TryRecv() returns (r: TryResult, ghost turns: seq<Turn>)
      requires Valid() && d.alive
      modifies this
      ensures Valid() && |schedule| <= |old(schedule)|
      ensures NoHandler(turns) && log == old(log) + turns
      ensures taken == old(taken) + turns + if r.TrySuspended? then [] else [Handler(true)]
      ensures Untouched(old(d), Env(codec, old(d), turns))
      ensures TryOutcome(Env(codec, old(d), turns), r, d)
      ensures r.TrySuspended? ==> schedule == []
      ensures !r.TrySuspended? ==> |schedule| < |old(schedule)|
      ensures NextTurn(codec, old(d), old(schedule)) ==
        if r.TrySuspended? then None else Some(Next(Env(codec, old(d), turns), schedule))
    {
      var go;
      go, turns := Await();
      if !go { return TrySuspended, turns; }
      if d.output != [] {
        r := Received(d.output[0]);
        Do(TakeAct);
      } else {
        r := if d.worker.Exited? then Closed else NothingYet;
      }
    }

    /** `recv`: waits for a result or for the channel to close. */
    method Recv() returns (r: RecvResult, ghost turns: seq<Turn>)
      requires Valid() && d.alive
      modifies this
      ensures Valid() && |schedule| <= |old(schedule)|
      ensures Waited(codec, old(d), ToReceive, turns) && Erased(turns) == turns && log == old(log) + turns
      ensures taken == old(taken) + turns + if r.RecvSuspended? then [] else [Handler(true)]
      ensures Untouched(old(d), Env(codec, old(d), turns))
      ensures RecvOutcome(Env(codec, old(d), turns), r, d)
      ensures r.RecvSuspended? ==> schedule == []
      ensures !r.RecvSuspended? ==> |schedule| < |old(schedule)|
    {
      turns := [];
      while true
        invariant Valid() && Untouched(old(d), d) && d == Env(codec, old(d), turns)
        invariant Waited(codec, old(d), ToReceive, turns) && Erased(turns) == turns
        invariant log == old(log) + turns && taken == old(taken) + turns
        invariant |schedule| <= |old(schedule)|
        decreases |schedule|
      {
        var go;
        go, turns := AwaitMore(ToReceive, old(d), turns, old(log), old(taken));
        if !go { return RecvSuspended, turns; }
        if d.output != [] {
          var x := d.output[0];
          Do(TakeAct);
          return Result(x), turns;
        } else if d.worker.Exited? {
          return Ended, turns;
        }
        turns := WaitOn(ToReceive, old(d), turns, old(log), old(taken));
      }
    }

    /** `Drop`: a last end-of-input send, then both channel ends go away. */
    method Drop() returns (done: bool, ghost turns: seq<Turn>)
      requires Valid() && d.alive
      modifies this
      ensures Valid() && |schedule| <= |old(schedule)|
      ensures Waited(codec, old(d), ToSend, turns) && Erased(turns) == turns
      ensures log == old(log) + turns + if done then [Handler(true)] else []
      ensures taken == old(taken) + turns + if done then [Handler(true)] else []
      ensures !done ==> schedule == []
      ensures Untouched(old(d), Env(codec, old(d), turns))
      ensures DropOutcome(Env(codec, old(d), turns), done, d)
      ensures done <==> SendAt(codec, old(d), old(schedule), []).Some?
    {
      var r;
      r, turns := Send([]);
      done := !r.SendSuspended?;
      if done {
        assert r.Sent? ==> d.sent[|d.sent| - 1] == [];
        Do(CloseAct);
      }
    }

    /** `Drop` after the worker is gone: the last send fails at once. */
    method DropFinished()
      requires Valid() && d.alive && d.worker.Exited?
      modifies this`d, this`acts
      ensures Valid() && d == old(d).(alive := false)
    {
      Do(CloseAct);
    }
  }

  lemma {:induction false} EnvConcat(c: Codec, d0: Dec, want: Want, before: seq<Turn>, more: seq<Turn>)
    requires Waited(c, d0, want, before) && NoHandler(more)
    ensures Env(c, d0, before + more) == Env(c, Env(c, d0, before), more)
    ensures Waited(c, d0, want, before + more)
    decreases |more|
  {
    if more == [] {
      assert before + more == before;
    } else {
      var n := |more| - 1;
      EnvConcat(c, d0, want, before, more[..n]);
      SplitLast(before, more);
      EnvAppend(c, d0, before + more[..n], more[n]);
      WaitedAppend(c, d0, want, before + more[..n], more[n]);
    }
  }
}
