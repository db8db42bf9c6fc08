/** When the handler and the worker can block each other for good: both wait on a full
    channel. The input and what the pipeline makes of it decide it, exactly. */
module Deadlock {
  import opened Prelude
  import opened Decoder
  import opened Session
  import opened Reach

  /** The handler waits to send into a full input channel while its worker waits to send
      into a full output channel. */
  predicate Blocked(s: Sess) {
    && (s.phase.Sending? || s.phase.Ending? || s.phase == Dropping(true))
    && |s.d.input| == INPUT_CAP
    && s.d.alive
    && s.d.worker.Forward?
    && |s.d.output| == OUTPUT_CAP
  }

  /** No turn of anyone ends such a wait. */
  lemma BlockedForever(c: Codec, s: Sess, t: Turn)
    requires Blocked(s)
    ensures Blocked(Step(c, s, t))
  {
  }

  /** Any blocked state is inside a drain pass that has pulled more results than the
      output channel holds. */
  lemma BlockedInALongPass(c: Codec, src: Source, turns: seq<Turn>)
    ensures var s := Exec(c, Start(src), turns); Blocked(s) ==> s.d.pass > OUTPUT_CAP
  {
    AlwaysSessInv(c, src, turns);
  }

  // ---------------------------------------------------------------- the exact condition

  /** The chunks before the last 32 owe more results than the output channel holds. */
  predicate CanBlock(c: Codec, src: Source) {
    var fed := Fed(src);
    |fed| >= INPUT_CAP && |Emitted(c, fed[..|fed| - INPUT_CAP])| > OUTPUT_CAP
  }

  /** In a blocked state the pipeline has accepted all that was sent but the last 32 chunks. */
  lemma BlockedAccepted(c: Codec, src: Source, s: Sess)
    requires SessInv(c, src, s) && Blocked(s)
    ensures |Fed(src)| >= |s.d.accepted| + INPUT_CAP && s.d.accepted <= Fed(src)
    ensures |Emitted(c, s.d.accepted)| > OUTPUT_CAP
  {
    WorkerIsThere(c, src, s);
    assert s.d.sent == s.d.accepted + s.d.input;
    PrefixOfSum(s.d.accepted, s.d.input, Fed(src));
    assert Owed(c, s.d) == Emitted(c, s.d.accepted);
  }

  lemma BlockedCanBlock(c: Codec, src: Source, s: Sess)
    requires SessInv(c, src, s) && Blocked(s)
    ensures CanBlock(c, src)
  {
    BlockedAccepted(c, src, s);
    assert s.d.accepted <= Fed(src)[..|Fed(src)| - INPUT_CAP];
    EmittedPrefix(c, s.d.accepted, Fed(src)[..|Fed(src)| - INPUT_CAP]);
  }

  /** No schedule blocks a session whose input does not meet the condition. */
  lemma BlockedMeansCanBlock(c: Codec, src: Source, turns: seq<Turn>)
    ensures Blocked(Exec(c, Start(src), turns)) ==> CanBlock(c, src)
  {
    var s := Exec(c, Start(src), turns);
    AlwaysSessInv(c, src, turns);
    if Blocked(s) { BlockedCanBlock(c, src, s); }
  }

  /** The handler waits with its last send at a full input channel, having found no output yet. */
  lemma FullInput(c: Codec, src: Source) returns (s: Sess)
    requires |Fed(src)| >= INPUT_CAP
    ensures Reaches(c, Start(src), s)
    ensures (s.phase.Ending? || s.phase == Dropping(true)) && |s.d.input| == INPUT_CAP && s.d.alive
    ensures s.d.worker.Drain? && s.d.output == [] && s.d.ready == []
    ensures s.d.latent == Emitted(c, Fed(src)[..|Fed(src)| - INPUT_CAP])
  {
    var s1 := AcceptFirst(c, src, |Fed(src)| - INPUT_CAP);
    var s2 := Fill(c, s1, INPUT_CAP);
    s := ReachEnd(c, s2);
    ReachesOn(c, Start(src), s1, s2);
    ReachesOn(c, Start(src), s2, s);
  }

  lemma FullOutput(c: Codec, s: Sess) returns (s': Sess)
    requires (s.phase.Ending? || s.phase == Dropping(true)) && |s.d.input| == INPUT_CAP && s.d.alive
    requires s.d.worker.Drain? && s.d.output == [] && s.d.ready == [] && |s.d.latent| > OUTPUT_CAP
    ensures Reaches(c, s, s') && Blocked(s')
  {
    var s1 := Show(c, s, OUTPUT_CAP + 1);
    var s2 := ForwardSome(c, s1, OUTPUT_CAP);
    ReachesOn(c, s, s1, s2);
    Go(c, s, s2, Work(true));
    s' := Step(c, s2, Work(true));
  }

  /** A run that blocks both sides although peer and pipeline cooperate. */
  lemma BlockingSchedule(c: Codec, src: Source) returns (turns: seq<Turn>)
    requires CanBlock(c, src)
    ensures Cooperative(turns) && Blocked(Exec(c, Start(src), turns))
  {
    var s := FullInput(c, src);
    var s' := FullOutput(c, s);
    ReachesOn(c, Start(src), s, s');
    turns :| Cooperative(turns) && Exec(c, Start(src), turns) == s';
  }

  predicate BlocksUnder(c: Codec, src: Source, turns: seq<Turn>) {
    Blocked(Exec(c, Start(src), turns))
  }

  /** Handler and worker can block each other on an input if and only if its chunks but the
      last 32 owe more than 32 results. */
  lemma DeadlocksIff(c: Codec, src: Source)
    ensures (exists turns :: BlocksUnder(c, src, turns)) <==> CanBlock(c, src)
    ensures CanBlock(c, src) <==> |Fed(src)| >= 32 && |Emitted(c, Fed(src)[..|Fed(src)| - 32])| > 32
  {
    if CanBlock(c, src) {
      var turns := BlockingSchedule(c, src);
      assert BlocksUnder(c, src, turns);
    } else {
      forall turns ensures !BlocksUnder(c, src, turns) {
        BlockedMeansCanBlock(c, src, turns);
      }
    }
  }

  // ---------------------------------------------------------------- the worker's passes

  /** In no reachable state does the worker's current pass exceed the bound. */
  ghost predicate PassBounded(c: Codec, src: Source, turns: seq<Turn>, bound: nat) {
    forall k :: 0 <= k <= |turns| ==> Exec(c, Start(src), turns[..k]).d.pass <= bound
  }

  ghost predicate DeadlockFree(isHttp: bool, bound: nat) {
    forall c: Codec, src: Source, turns: seq<Turn> ::
      src.Http? == isHttp && PassBounded(c, src, turns, bound) ==> !Blocked(Exec(c, Start(src), turns))
  }

  /** A source of `n` one-byte chunks. */
  function Repeated(isHttp: bool, n: nat): Source {
    if isHttp then Http(seq(n, i => Chunk([0]))) else Tcp(seq(n, i => Got(Frame(DCOD, [0]))))
  }

  lemma {:induction false} RepeatedFeeds(isHttp: bool, n: nat)
    ensures |Fed(Repeated(isHttp, n))| == n
  {
    if n > 0 {
      var src := Repeated(isHttp, n);
      RepeatedFeeds(isHttp, n - 1);
      if isHttp {
        assert src.body[1..] == Repeated(isHttp, n - 1).body;
      } else {
        assert src.arrivals[1..] == Repeated(isHttp, n - 1).arrivals;
      }
    }
  }

  /** A pipeline that answers its first chunk with one result more than the channel holds. */
  function Burst(): Codec {
    Codec(
      (history: seq<Bytes>, m: Bytes) =>
        if history == [] then seq(OUTPUT_CAP + 1, i => Fault("corrupt")) else [],
      (history: seq<Bytes>) => [])
  }

  lemma {:induction false} BurstSize(chunks: seq<Bytes>)
    ensures |Emitted(Burst(), chunks)| == |Decode(Burst(), chunks)| == if chunks == [] then 0 else OUTPUT_CAP + 1
  {
    if |chunks| > 1 {
      BurstSize(chunks[..|chunks| - 1]);
    } else if |chunks| == 1 {
      assert chunks[..0] == [];
    }
  }

  lemma BurstPassesAreShort(src: Source, turns: seq<Turn>, bound: nat)
    requires bound > OUTPUT_CAP
    ensures PassBounded(Burst(), src, turns, bound)
  {
    forall k | 0 <= k <= |turns| ensures Exec(Burst(), Start(src), turns[..k]).d.pass <= bound {
      AlwaysSessInv(Burst(), src, turns[..k]);
      BurstSize(Exec(Burst(), Start(src), turns[..k]).d.accepted);
    }
  }

  /** Of all bounds on a drain pass, those up to 32 results, and no others, rule out blocking
      for every pipeline and every input. */
  lemma DeadlockFreeIff(isHttp: bool, bound: nat)
    ensures DeadlockFree(isHttp, bound) <==> bound <= 32
  {
    if bound <= OUTPUT_CAP {
      forall c: Codec, src: Source, turns: seq<Turn> | src.Http? == isHttp && PassBounded(c, src, turns, bound)
        ensures !Blocked(Exec(c, Start(src), turns))
      {
        BlockedInALongPass(c, src, turns);
        assert turns[..|turns|] == turns;
      }
    } else {
      var src := Repeated(isHttp, INPUT_CAP + 1);
      RepeatedFeeds(isHttp, INPUT_CAP + 1);
      BurstSize(Fed(src)[..1]);
      var turns := BlockingSchedule(Burst(), src);
      BurstPassesAreShort(src, turns, bound);
    }
  }
}
