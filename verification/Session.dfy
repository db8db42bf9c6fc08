/** A connection handler driving one pooled decoder: the feed, drain and flush loops of the
    HTTP handler (src/router.rs) and of one session of the TCP handler (src/tcp_handler.rs).

    A schedule is any list of turns of the handler, the worker and the pipeline, so a
    statement about all schedules is a statement about all interleavings. */
module Session {
  import opened Prelude
  import opened Decoder

  datatype BodyEvent = Chunk(data: Bytes) | BodyError

  datatype Tag = DCOD | PCMS | DONE | META | OtherTag
  datatype Frame = Frame(tag: Tag, data: Bytes)
  datatype Arrival = Got(frame: Frame) | ReadError

  /** What the handler still has to read. A TCP source starts at the frame that opens the session. */
  datatype Source = Http(body: seq<BodyEvent>) | Tcp(arrivals: seq<Arrival>)

  /** `Dropping` is an early return: the decoder handle is being dropped, after a failed read
      (when the output had been drained since the last send) or after a failed write. */
  datatype Phase =
    | Reading
    | Sending(chunk: Bytes)
    | Draining
    | Ending
    | Flushing
    | Finished
    | Dropping(drained: bool)
    | Gone

  datatype Sess = Sess(phase: Phase, src: Source, d: Dec, written: seq<Audio>)

  /** A handler turn says whether the peer would accept a write in it. */
  datatype Turn = Handler(writeOk: bool) | Work(accept: bool) | Pipe

  function Start(src: Source): Sess {
    Sess(Reading, src, FRESH, [])
  }

  /** Reading the next body event or frame. */
  function ReadNext(src: Source): (Phase, Source) {
    match src
    case Http(body) =>
      if body == [] then (Ending, src)
      else if body[0].BodyError? then (Ending, Http([]))
      else if body[0].data == [] then (Reading, Http(body[1..]))
      else (Sending(body[0].data), Http(body[1..]))
    case Tcp(arrivals) =>
      if arrivals == [] then (Ending, src)
      else
        var rest := Tcp(arrivals[1..]);
        if arrivals[0].ReadError? then (Dropping(true), rest)
        else
          var f := arrivals[0].frame;
          match f.tag
          case DCOD => (if f.data == [] then Ending else Sending(f.data), rest)
          case DONE => (Ending, rest)
          case _ => (Draining, rest)
  }

  /** Handing one received result on to the peer. */
  function Write(s: Sess, writeOk: bool): Sess
    requires s.d.output != []
  {
    var x, s' := s.d.output[0], s.(d := Take(s.d));
    if x.Fault? then s'
    else if writeOk then s'.(written := s.written + [x.audio])
    else s'.(phase := Dropping(false))
  }

  /** One turn of the handler. A send into a full channel, and a flush that finds nothing,
      leave the state as it is: the HTTP handler polls there and the TCP handler blocks. */
  function HandlerTurn(s: Sess, writeOk: bool): Sess {
    match s.phase
    case Reading => var (p, rest) := ReadNext(s.src); s.(phase := p, src := rest)
    case Sending(m) =>
      if s.d.worker.Exited? then s.(phase := if s.src.Http? then Ending else Flushing)
      else if HasRoom(s.d) then s.(phase := Draining, d := Push(s.d, m))
      else s
    case Draining => if s.d.output != [] then Write(s, writeOk) else s.(phase := Reading)
    case Ending =>
      if s.d.worker.Exited? then s.(phase := Flushing)
      else if HasRoom(s.d) then s.(phase := Flushing, d := Push(s.d, []))
      else s
    case Flushing =>
      if s.d.output != [] then Write(s, writeOk)
      else if s.d.worker.Exited? then s.(phase := Finished)
      else s
    case Dropping(_) =>
      if s.d.worker.Exited? then s.(phase := Gone, d := s.d.(alive := false))
      else if HasRoom(s.d) then s.(phase := Gone, d := Push(s.d, []).(alive := false))
      else s
    case Finished => s
    case Gone => s
  }

  function EnvTurn(c: Codec, d: Dec, t: Turn): Dec
    requires !t.Handler?
  {
    if t.Pipe? then PipeTurn(d) else WorkerTurn(c, d, t.accept)
  }

  function Step(c: Codec, s: Sess, t: Turn): Sess {
    if t.Handler? then HandlerTurn(s, t.writeOk) else s.(d := EnvTurn(c, s.d, t))
  }

  function Exec(c: Codec, s: Sess, turns: seq<Turn>): Sess {
    if turns == [] then s
    else Step(c, Exec(c, s, turns[..|turns| - 1]), turns[|turns| - 1])
  }

  lemma ExecAppend(c: Codec, s: Sess, turns: seq<Turn>, t: Turn)
    ensures Exec(c, s, turns + [t]) == Step(c, Exec(c, s, turns), t)
  {
    assert (turns + [t])[..|turns|] == turns;
  }

  lemma {:induction false} ExecConcat(c: Codec, s: Sess, a: seq<Turn>, b: seq<Turn>)
    ensures Exec(c, s, a + b) == Exec(c, Exec(c, s, a), b)
    decreases |b|
  {
    if b == [] {
      assert a + b == a;
    } else {
      var n := |b| - 1;
      ExecConcat(c, s, a, b[..n]);
      SplitLast(a, b);
      ExecAppend(c, s, a + b[..n], b[n]);
    }
  }

  // ---------------------------------------------------------------- what is fed

  /** The chunks a source feeds to its decoder: the non-empty chunks before the first error,
      or the DCOD payloads before the first empty DCOD, DONE or read error. */
  function Fed(src: Source): seq<Bytes>
    decreases if src.Http? then |src.body| else |src.arrivals|
  {
    match src
    case Http(body) =>
      if body == [] || body[0].BodyError? then []
      else (if body[0].data == [] then [] else [body[0].data]) + Fed(Http(body[1..]))
    case Tcp(arrivals) =>
      if arrivals == [] || EndsSession(arrivals[0]) then []
      else (if arrivals[0].frame.tag.DCOD? then [arrivals[0].frame.data] else []) + Fed(Tcp(arrivals[1..]))
  }

  /** The audio a source's complete input decodes to. */
  function Decoded(c: Codec, src: Source): seq<Audio> {
    Audios(Decode(c, Fed(src)))
  }

  predicate EndsSession(a: Arrival) {
    a.ReadError? || a.frame.tag.DONE? || (a.frame.tag.DCOD? && a.frame.data == [])
  }

  /** The session at the front is cut off by a read error. */
  predicate ReadFails(arrivals: seq<Arrival>) {
    arrivals != [] && (arrivals[0].ReadError? || (!EndsSession(arrivals[0]) && ReadFails(arrivals[1..])))
  }

  /** The source can be read to the end of its session. */
  predicate ReadsCleanly(src: Source) {
    src.Tcp? ==> !ReadFails(src.arrivals)
  }

  lemma {:induction false} FedNoneEmpty(src: Source)
    ensures NoneEmpty(Fed(src))
    decreases if src.Http? then |src.body| else |src.arrivals|
  {
    match src
    case Http(body) => if body != [] { FedNoneEmpty(Http(body[1..])); }
    case Tcp(arrivals) => if arrivals != [] { FedNoneEmpty(Tcp(arrivals[1..])); }
  }

  function Chunks(chunks: seq<Bytes>): (r: seq<BodyEvent>)
    ensures |r| == |chunks|
  {
    seq(|chunks|, i requires 0 <= i < |chunks| => Chunk(chunks[i]))
  }

  /** A body of some chunks that then ends or fails feeds its non-empty chunks, whatever may come
      after the failure. */
  lemma {:induction false} BodyFeeds(chunks: seq<Bytes>, rest: seq<BodyEvent>)
    requires rest == [] || rest[0].BodyError?
    ensures Fed(Http(Chunks(chunks) + rest)) == NonEmptyOf(chunks)
  {
    var body := Chunks(chunks) + rest;
    if chunks == [] {
      assert body == rest;
    } else {
      assert body[1..] == Chunks(chunks[1..]) + rest;
      BodyFeeds(chunks[1..], rest);
      NonEmptyConcat([chunks[0]], chunks[1..]);
      NonEmptyOne(chunks[0]);
      assert [chunks[0]] + chunks[1..] == chunks;
    }
  }

  /** Reading accounts for every chunk of the source. */
  lemma ReadNextFeeds(src: Source)
    ensures var (p, rest) := ReadNext(src);
      && rest.Http? == src.Http?
      && (p.Reading? || p.Draining? ==> Fed(src) == Fed(rest))
      && (p.Sending? ==> p.chunk != [] && Fed(src) == [p.chunk] + Fed(rest))
      && (p.Ending? || p.Dropping? ==> Fed(src) == [])
      && (p.Reading? || p.Draining? || p.Sending? || p.Ending? || p.Dropping?)
      && (p.Reading? ==> src.Http?)
      && (p.Dropping? ==> p.drained)
  {
  }

  lemma NoneEmptyIsItsOwnPrefix(chunks: seq<Bytes>)
    requires NoneEmpty(chunks)
    ensures UpToEof(chunks) == chunks && UpToEof(chunks + [[]]) == chunks
  {
    UpToEofConcat(chunks, []);
    assert chunks + [] == chunks;
    UpToEofConcat(chunks, [[]]);
  }

  // ---------------------------------------------------------------- the invariant

  /** What has been sent, against what the source holds. */
  predicate FeedAgrees(src0: Source, s: Sess) {
    match s.phase
    case Reading => NoneEmpty(s.d.sent) && Fed(src0) == s.d.sent + Fed(s.src)
    case Draining => NoneEmpty(s.d.sent) && Fed(src0) == s.d.sent + Fed(s.src)
    case Sending(m) => m != [] && NoneEmpty(s.d.sent) && Fed(src0) == s.d.sent + [m] + Fed(s.src)
    case Ending => NoneEmpty(s.d.sent) && Fed(src0) == s.d.sent
    case Flushing => s.d.sent == Fed(src0) + [[]]
    case Finished => s.d.sent == Fed(src0) + [[]] && s.d.worker.Exited? && s.d.output == []
    case Dropping(drained) => drained ==> NoneEmpty(s.d.sent) && Fed(src0) == s.d.sent
    case Gone => true
  }

  predicate WriteAgrees(c: Codec, src0: Source, s: Sess) {
    if s.phase.Dropping? || s.phase.Gone? then s.written <= Decoded(c, src0)
    else s.written == Audios(s.d.delivered)
  }

  predicate AboutToSend(s: Sess) {
    s.phase.Reading? || s.phase.Sending? || s.phase.Ending? || s.phase == Dropping(true)
  }

  /** The heart of deadlock freedom: a handler that has drained since its last send and
      meets a full input channel finds in the output channel, and in the worker's hand,
      only results of the worker's current drain pass. */
  predicate OnePassOutstanding(s: Sess) {
    AboutToSend(s) && |s.d.input| == INPUT_CAP ==> |s.d.output| + |InHand(s.d)| <= s.d.pass
  }

  predicate SessInv(c: Codec, src0: Source, s: Sess) {
    && Inv(c, s.d)
    && (s.d.alive <==> !s.phase.Gone?)
    && s.src.Http? == src0.Http?
    && FeedAgrees(src0, s)
    && WriteAgrees(c, src0, s)
    && OnePassOutstanding(s)
  }

  /** Until it has signalled the end of input, the handler finds its worker running. */
  lemma WorkerIsThere(c: Codec, src0: Source, s: Sess)
    requires SessInv(c, src0, s) && (AboutToSend(s) || s.phase.Draining?)
    ensures !s.d.worker.Exited? && !EofTaken(s.d)
  {
    DataSendsNeverFail(c, s.d);
  }

  /** Between two handler turns the worker and the pipeline add to the outstanding results
      only what they count in the current pass, and leave the handler's side alone. */
  lemma EnvFrame(c: Codec, d: Dec, t: Turn)
    requires !t.Handler? && PhasesAgree(d)
    ensures var d' := EnvTurn(c, d, t);
      && d'.sent == d.sent && d'.delivered == d.delivered && d'.alive == d.alive
      && |d'.input| <= |d.input|
      && (d.worker.Exited? ==> d'.worker == d.worker && d'.output == d.output)
      && (|d'.input| == |d.input| > 0 && !d.done ==>
           |d'.output| + |InHand(d')| - d'.pass <= |d.output| + |InHand(d)| - d.pass)
  {
  }

  lemma EnvKeepsSessInv(c: Codec, src0: Source, s: Sess, t: Turn)
    requires SessInv(c, src0, s) && !t.Handler?
    ensures SessInv(c, src0, Step(c, s, t))
  {
    if t.Pipe? { PipeKeepsInv(c, s.d); } else { WorkerKeepsInv(c, s.d, t.accept); }
    EnvFrame(c, s.d, t);
    if AboutToSend(s) { WorkerIsThere(c, src0, s); }
  }

  /** While the handle is open, what has been delivered is a prefix of the full decoding. */
  lemma DeliveredWithinFed(c: Codec, src0: Source, s: Sess)
    requires SessInv(c, src0, s) && !s.phase.Dropping? && !s.phase.Gone?
    ensures s.d.delivered <= Decode(c, Fed(src0))
  {
    FedNoneEmpty(src0);
    AcceptedIsPrefix(c, s.d);
    if s.phase.Flushing? || s.phase.Finished? {
      NoneEmptyIsItsOwnPrefix(Fed(src0));
      DeliveredIsPrefix(c, s.d);
    } else {
      WorkerIsThere(c, src0, s);
      NoneEmptyIsItsOwnPrefix(s.d.sent);
      PrefixOfSum(s.d.accepted, Held(s.d), s.d.sent);
      assert s.d.sent <= Fed(src0);
      EmittedPrefix(c, s.d.accepted, Fed(src0));
      DeliveredIsOwed(c, s.d);
    }
  }

  lemma WriteKeepsSessInv(c: Codec, src0: Source, s: Sess, writeOk: bool)
    requires SessInv(c, src0, s) && s.d.output != [] && (s.phase.Draining? || s.phase.Flushing?)
    ensures SessInv(c, src0, Write(s, writeOk))
  {
    TakeKeepsInv(c, s.d);
    AudiosAppend(s.d.delivered, s.d.output[0]);
    DeliveredWithinFed(c, src0, s);
    AudiosPrefix(s.d.delivered, Decode(c, Fed(src0)));
  }

  lemma SendKeepsSessInv(c: Codec, src0: Source, s: Sess, writeOk: bool)
    requires SessInv(c, src0, s) && s.phase.Sending?
    ensures SessInv(c, src0, HandlerTurn(s, writeOk))
  {
    var m := s.phase.chunk;
    WorkerIsThere(c, src0, s);
    if HasRoom(s.d) {
      PushKeepsInv(c, s.d, m);
      assert s.d.sent + [m] + Fed(s.src) == (s.d.sent + [m]) + Fed(s.src);
    }
  }

  lemma EndKeepsSessInv(c: Codec, src0: Source, s: Sess, writeOk: bool)
    requires SessInv(c, src0, s) && (s.phase.Ending? || s.phase.Dropping?)
    ensures SessInv(c, src0, HandlerTurn(s, writeOk))
  {
    if s.phase.Ending? { WorkerIsThere(c, src0, s); }
    if HasRoom(s.d) {
      PushKeepsInv(c, s.d, []);
      assert (s.d.sent + [[]])[|s.d.sent|] == [];
    }
  }

  lemma ReadKeepsSessInv(c: Codec, src0: Source, s: Sess, writeOk: bool)
    requires SessInv(c, src0, s) && s.phase.Reading?
    ensures SessInv(c, src0, HandlerTurn(s, writeOk))
  {
    ReadNextFeeds(s.src);
    DeliveredWithinFed(c, src0, s);
    AudiosPrefix(s.d.delivered, Decode(c, Fed(src0)));
    var (p, rest) := ReadNext(s.src);
    if p.Sending? {
      assert s.d.sent + ([p.chunk] + Fed(rest)) == s.d.sent + [p.chunk] + Fed(rest);
    }
  }

  lemma HandlerKeepsSessInv(c: Codec, src0: Source, s: Sess, writeOk: bool)
    requires SessInv(c, src0, s)
    ensures SessInv(c, src0, HandlerTurn(s, writeOk))
  {
    match s.phase
    case Reading => ReadKeepsSessInv(c, src0, s, writeOk);
    case Sending(_) => SendKeepsSessInv(c, src0, s, writeOk);
    case Ending => EndKeepsSessInv(c, src0, s, writeOk);
    case Dropping(_) => EndKeepsSessInv(c, src0, s, writeOk);
    case Draining =>
      WorkerIsThere(c, src0, s);
      if s.d.output != [] { WriteKeepsSessInv(c, src0, s, writeOk); }
    case Flushing => if s.d.output != [] { WriteKeepsSessInv(c, src0, s, writeOk); }
    case Finished =>
    case Gone =>
  }

  lemma StepKeepsSessInv(c: Codec, src0: Source, s: Sess, t: Turn)
    requires SessInv(c, src0, s)
    ensures SessInv(c, src0, Step(c, s, t))
  {
    if t.Handler? { HandlerKeepsSessInv(c, src0, s, t.writeOk); } else { EnvKeepsSessInv(c, src0, s, t); }
  }

  /** The invariant holds after every schedule. */
  lemma {:induction false} AlwaysSessInv(c: Codec, src: Source, turns: seq<Turn>)
    ensures SessInv(c, src, Exec(c, Start(src), turns))
    decreases |turns|
  {
    if turns == [] {
      assert Emitted(c, []) == [];
      assert [] + Fed(src) == Fed(src);
    } else {
      var n := |turns| - 1;
      AlwaysSessInv(c, src, turns[..n]);
      StepKeepsSessInv(c, src, Exec(c, Start(src), turns[..n]), turns[n]);
    }
  }

  // ---------------------------------------------------------------- end to end

  lemma InvMeansServed(c: Codec, src0: Source, s: Sess)
    requires SessInv(c, src0, s)
    ensures s.written <= Decoded(c, src0)
    ensures s.phase.Finished? ==> s.written == Decoded(c, src0)
  {
    if !s.phase.Dropping? && !s.phase.Gone? {
      DeliveredWithinFed(c, src0, s);
      AudiosPrefix(s.d.delivered, Decode(c, Fed(src0)));
    }
    if s.phase.Finished? {
      FedNoneEmpty(src0);
      NoneEmptyIsItsOwnPrefix(Fed(src0));
      ClosedMeansComplete(c, s.d);
    }
  }

  /** Over every interleaving: what the HTTP loop or a TCP session has written is a prefix of
      the audio decoded from the chunks of its source, and all of it once it finishes. */
  lemma EndToEnd(c: Codec, src: Source, turns: seq<Turn>)
    ensures var s := Exec(c, Start(src), turns);
      && s.written <= Decoded(c, src)
      && (s.phase.Finished? ==> s.written == Decoded(c, src))
  {
    AlwaysSessInv(c, src, turns);
    InvMeansServed(c, src, Exec(c, Start(src), turns));
  }

  /** When the handler takes an audio, it is one that the complete decoding still holds. */
  lemma NextAudioIsDecoded(c: Codec, src: Source, log: seq<Turn>)
    requires var s := Exec(c, Start(src), log);
      (s.phase.Draining? || s.phase.Flushing?) && s.d.output != [] && s.d.output[0].Pcm?
    ensures var s := Exec(c, Start(src), log); s.written + [s.d.output[0].audio] <= Decoded(c, src)
  {
    ExecAppend(c, Start(src), log, Handler(true));
    EndToEnd(c, src, log + [Handler(true)]);
  }

  // ---------------------------------------------------------------- independence of chunking

  /** The PCM a complete input decodes to depends on its bytes only, not on how they are cut. */
  ghost predicate ByteDetermined(c: Codec) {
    forall a: seq<Bytes>, b: seq<Bytes> :: NoneEmpty(a) && NoneEmpty(b) && Flatten(a) == Flatten(b) ==>
      PcmBytes(Audios(Decode(c, a))) == PcmBytes(Audios(Decode(c, b)))
  }

  lemma PrefixesAgree(a: Bytes, b: Bytes, whole: Bytes)
    requires a <= whole && b <= whole
    ensures a <= b || b <= a
  {
    if |a| <= |b| {
      assert a == whole[..|a|] == b[..|a|];
    } else {
      assert b == whole[..|b|] == a[..|b|];
    }
  }

  /** Two handlers, HTTP or TCP, fed the same bytes in any chunks and run under any two
      schedules never contradict each other, and agree when both have finished. */
  lemma ChunkingDoesNotMatter(c: Codec, src1: Source, src2: Source, turns1: seq<Turn>, turns2: seq<Turn>)
    requires ByteDetermined(c) && Flatten(Fed(src1)) == Flatten(Fed(src2))
    ensures var s1, s2 := Exec(c, Start(src1), turns1), Exec(c, Start(src2), turns2);
      var pcm1, pcm2 := PcmBytes(s1.written), PcmBytes(s2.written);
      && (pcm1 <= pcm2 || pcm2 <= pcm1)
      && (s1.phase.Finished? && s2.phase.Finished? ==> pcm1 == pcm2)
  {
    EndToEnd(c, src1, turns1);
    EndToEnd(c, src2, turns2);
    FedNoneEmpty(src1);
    FedNoneEmpty(src2);
    PcmBytesPrefix(Exec(c, Start(src1), turns1).written, Decoded(c, src1));
    PcmBytesPrefix(Exec(c, Start(src2), turns2).written, Decoded(c, src2));
    PrefixesAgree(PcmBytes(Exec(c, Start(src1), turns1).written), PcmBytes(Exec(c, Start(src2), turns2).written),
                  PcmBytes(Decoded(c, src1)));
  }
}
