/** Runs built on purpose: what a session can be brought to when its peer takes every write
    and its pipeline accepts everything. */
module Reach {
  import opened Prelude
  import opened Decoder
  import opened Session

  /** Turns in which the peer accepts writes and the pipeline accepts what it is sent. */
  predicate Cooperative(turns: seq<Turn>) {
    forall i :: 0 <= i < |turns| ==> turns[i] in {Handler(true), Work(true), Pipe}
  }

  ghost predicate Reaches(c: Codec, s: Sess, s': Sess) {
    exists turns :: Cooperative(turns) && Exec(c, s, turns) == s'
  }

  lemma ReachesItself(c: Codec, s: Sess)
    ensures Reaches(c, s, s)
  {
    assert Cooperative([]) && Exec(c, s, []) == s;
  }

  lemma ReachesOn(c: Codec, s: Sess, s1: Sess, s2: Sess)
    requires Reaches(c, s, s1) && Reaches(c, s1, s2)
    ensures Reaches(c, s, s2)
  {
    var a :| Cooperative(a) && Exec(c, s, a) == s1;
    var b :| Cooperative(b) && Exec(c, s1, b) == s2;
    ExecConcat(c, s, a, b);
    assert Cooperative(a + b);
  }

  /** One more turn. */
  lemma Go(c: Codec, s: Sess, s1: Sess, t: Turn)
    requires Reaches(c, s, s1) && t in {Handler(true), Work(true), Pipe}
    ensures Reaches(c, s, Step(c, s1, t))
  {
    var a :| Cooperative(a) && Exec(c, s, a) == s1;
    ExecAppend(c, s, a, t);
    assert Cooperative(a + [t]);
  }

  /** The handler sends its next chunk, finds no output, and is back at reading. */
  lemma {:induction false} SendOne(c: Codec, s: Sess) returns (s': Sess)
    requires s.phase.Reading? && Fed(s.src) != [] && s.d.output == [] && HasRoom(s.d)
    ensures Reaches(c, s, s') && s'.phase.Reading? && Fed(s'.src) == Fed(s.src)[1..]
    ensures s'.d == Push(s.d, Fed(s.src)[0])
    decreases if s.src.Http? then |s.src.body| else |s.src.arrivals|
  {
    var h := Handler(true);
    var s1 := Step(c, s, h);
    ReachesItself(c, s);
    Go(c, s, s, h);
    ReadNextFeeds(s.src);
    if s1.phase.Sending? {
      s' := Step(c, Step(c, s1, h), h);
      Go(c, s, s1, h);
      Go(c, s, Step(c, s1, h), h);
    } else if s1.phase.Reading? {
      s' := SendOne(c, s1);
      ReachesOn(c, s, s1, s');
    } else {
      Go(c, s, s1, h);
      var s2 := Step(c, s1, h);
      s' := SendOne(c, s2);
      ReachesOn(c, s, s2, s');
    }
  }

  /** Reading leads to the drop of a failed read, or leaves the rest as readable as before. */
  lemma ReadNextCleanly(src: Source)
    ensures var (p, rest) := ReadNext(src);
      && (ReadsCleanly(src) ==> !p.Dropping?)
      && (!ReadsCleanly(src) ==> !p.Ending?)
      && (!p.Ending? && !p.Dropping? ==> (ReadsCleanly(rest) <==> ReadsCleanly(src)))
  {
  }

  /** With all chunks sent, the handler comes to its last send: the end of input, or the drop
      after a failed read. */
  lemma {:induction false} ReachEnd(c: Codec, s: Sess) returns (s': Sess)
    requires s.phase.Reading? && Fed(s.src) == [] && s.d.output == []
    ensures Reaches(c, s, s') && (s'.phase.Ending? || s'.phase == Dropping(true)) && s'.d == s.d
    ensures s'.phase.Ending? <==> ReadsCleanly(s.src)
    decreases if s.src.Http? then |s.src.body| else |s.src.arrivals|
  {
    var h := Handler(true);
    var s1 := Step(c, s, h);
    ReachesItself(c, s);
    Go(c, s, s, h);
    ReadNextFeeds(s.src);
    ReadNextCleanly(s.src);
    if s1.phase.Reading? {
      s' := ReachEnd(c, s1);
      ReachesOn(c, s, s1, s');
    } else if s1.phase.Draining? {
      Go(c, s, s1, h);
      var s2 := Step(c, s1, h);
      s' := ReachEnd(c, s2);
      ReachesOn(c, s, s2, s');
    } else {
      s' := s1;
    }
  }

  /** Everything sent has been accepted; its results are still in the pipeline. */
  predicate CaughtUp(c: Codec, src0: Source, s: Sess) {
    && s.phase.Reading? && Fed(src0) == s.d.accepted + Fed(s.src)
    && s.d.worker.Drain? && !s.d.done && !s.d.eof && s.d.alive
    && s.d.input == [] && s.d.ready == [] && s.d.output == [] && s.d.latent == Emitted(c, s.d.accepted)
  }

  lemma StartsCaughtUp(c: Codec, src: Source) returns (s: Sess)
    ensures Reaches(c, Start(src), s) && CaughtUp(c, src, s) && s.d.accepted == [] && s.src == src
  {
    ReachesItself(c, Start(src));
    Go(c, Start(src), Start(src), Work(true));
    s := Step(c, Start(src), Work(true));
  }

  /** The worker takes the one chunk in its input, and the pipeline accepts it. */
  lemma AcceptOne(c: Codec, s: Sess) returns (s': Sess)
    requires s.d.worker.Drain? && !s.d.done && s.d.ready == [] && |s.d.input| == 1 && s.d.input[0] != []
    ensures Reaches(c, s, s')
    ensures s' == s.(d := s.d.(input := [], accepted := s.d.accepted + s.d.input,
      latent := s.d.latent + c.emit(s.d.accepted, s.d.input[0]), pass := 0))
  {
    var w := Work(true);
    ReachesItself(c, s);
    Go(c, s, s, w);
    Go(c, s, Step(c, s, w), w);
    Go(c, s, Step(c, Step(c, s, w), w), w);
    s' := Step(c, Step(c, Step(c, s, w), w), w);
  }

  lemma SendAndAccept(c: Codec, src0: Source, s: Sess) returns (s': Sess)
    requires CaughtUp(c, src0, s) && Fed(s.src) != []
    ensures Reaches(c, s, s') && CaughtUp(c, src0, s')
    ensures s'.d.accepted == s.d.accepted + [Fed(s.src)[0]] && Fed(s'.src) == Fed(s.src)[1..]
  {
    FedNoneEmpty(s.src);
    var m := Fed(s.src)[0];
    var s1 := SendOne(c, s);
    s' := AcceptOne(c, s1);
    ReachesOn(c, s, s1, s');
    assert s1.d.input == [m];
    EmittedAppend(c, s.d.accepted, m);
    MoveOne(s.d.accepted, Fed(s.src));
  }

  /** The first `k` chunks are sent and accepted. */
  lemma {:induction false} AcceptFirst(c: Codec, src: Source, k: nat) returns (s: Sess)
    requires k <= |Fed(src)|
    ensures Reaches(c, Start(src), s) && CaughtUp(c, src, s)
    ensures s.d.accepted == Fed(src)[..k] && Fed(s.src) == Fed(src)[k..]
  {
    if k == 0 {
      s := StartsCaughtUp(c, src);
    } else {
      var s1 := AcceptFirst(c, src, k - 1);
      s := SendAndAccept(c, src, s1);
      ReachesOn(c, Start(src), s1, s);
      assert Fed(src)[..k] == Fed(src)[..k - 1] + [Fed(src)[k - 1]];
    }
  }

  /** The handler sends `k` chunks while the worker rests. */
  lemma {:induction false} Fill(c: Codec, s: Sess, k: nat) returns (s': Sess)
    requires s.phase.Reading? && s.d.output == [] && !s.d.worker.Exited?
    requires k <= |Fed(s.src)| && |s.d.input| + k <= INPUT_CAP
    ensures Reaches(c, s, s') && s'.phase.Reading? && Fed(s'.src) == Fed(s.src)[k..]
    ensures |s'.d.input| == |s.d.input| + k && s'.d == s.d.(input := s'.d.input, sent := s'.d.sent)
  {
    if k == 0 {
      ReachesItself(c, s);
      s' := s;
    } else {
      var s1 := Fill(c, s, k - 1);
      s' := SendOne(c, s1);
      ReachesOn(c, s, s1, s');
    }
  }

  /** The pipeline makes `k` results visible. */
  lemma {:induction false} Show(c: Codec, s: Sess, k: nat) returns (s': Sess)
    requires k <= |s.d.latent|
    ensures Reaches(c, s, s') && |s'.d.ready| == |s.d.ready| + k
    ensures s' == s.(d := s.d.(ready := s'.d.ready, latent := s'.d.latent))
    ensures |s'.d.latent| == |s.d.latent| - k
  {
    if k == 0 {
      ReachesItself(c, s);
      s' := s;
    } else {
      var s1 := Show(c, s, k - 1);
      Go(c, s, s1, Pipe);
      s' := Step(c, s1, Pipe);
    }
  }

  /** The worker pulls and forwards `k` results in one pass. */
  lemma {:induction false} ForwardSome(c: Codec, s: Sess, k: nat) returns (s': Sess)
    requires s.d.worker.Drain? && s.d.alive && k <= |s.d.ready| && |s.d.output| + k <= OUTPUT_CAP
    ensures Reaches(c, s, s') && |s'.d.output| == |s.d.output| + k && |s'.d.ready| == |s.d.ready| - k
    ensures s' == s.(d := s.d.(ready := s'.d.ready, output := s'.d.output, pass := s'.d.pass))
  {
    if k == 0 {
      ReachesItself(c, s);
      s' := s;
    } else {
      var s1 := ForwardSome(c, s, k - 1);
      Go(c, s, s1, Work(true));
      Go(c, s, Step(c, s1, Work(true)), Work(true));
      s' := Step(c, Step(c, s1, Work(true)), Work(true));
    }
  }

  /** The handler sends its last empty chunk, and a worker that has caught up takes it. */
  lemma TakeEof(c: Codec, s: Sess) returns (s': Sess)
    requires (s.phase.Ending? || s.phase == Dropping(true))
    requires s.d.worker.Drain? && !s.d.done && s.d.input == [] && s.d.ready == []
    ensures Reaches(c, s, s') && s'.d.worker.FeedEof? && s'.d.eof == s.d.eof
  {
    var h, w := Handler(true), Work(true);
    ReachesItself(c, s);
    Go(c, s, s, h);
    var s1 := Step(c, s, h);
    Go(c, s, s1, w);
    var s2 := Step(c, s1, w);
    assert s2.d.input == [[]] && s2.d.worker.Poll?;
    Go(c, s, s2, w);
    s' := Step(c, s2, w);
  }

  /** Every source comes to its last empty chunk with everything before it accepted. */
  lemma ReachEof(c: Codec, src: Source) returns (s: Sess)
    ensures Reaches(c, Start(src), s) && s.d.worker.FeedEof? && !s.d.eof
  {
    var s1 := AcceptFirst(c, src, |Fed(src)|);
    var s2 := ReachEnd(c, s1);
    s := TakeEof(c, s2);
    ReachesOn(c, Start(src), s1, s2);
    ReachesOn(c, Start(src), s2, s);
  }
}
