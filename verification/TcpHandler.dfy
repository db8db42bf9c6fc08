/** The persistent TCP connection loop, in its own shape (src/tcp_handler.rs). */
module TcpHandler {
  import opened Prelude
  import opened Decoder
  import opened Session
  import opened Deadlock
  import opened Termination
  import opened Handle
  import opened Drive
  import opened TcpProtocol

  /** `encode_meta`: fills a seven-byte buffer in place. */
  method EncodeMeta(rate: u32, channels: byte, bits: byte, encoding: Encoding) returns (buf: array<byte>)
    ensures fresh(buf) && buf[..] == MetaBytes(rate, channels, bits, encoding)
  {
    buf := new byte[7](_ => 0);
    buf[0], buf[1] := rate / 0x100_0000, rate / 0x1_0000 % 0x100;
    buf[2], buf[3] := rate / 0x100 % 0x100, rate % 0x100;
    buf[4] := channels;
    buf[5] := bits;
    buf[6] := if encoding.Float? then 1 else 0;
  }

  /** The write half of the connection; the peer takes `room` more frames. */
  class Writer {
    var frames: seq<Frame>
    var room: nat
    ghost const capacity: nat

    constructor (room: nat)
      ensures frames == [] && this.room == room == capacity
    {
      frames, this.room, capacity := [], room, room;
    }

    ghost predicate Valid()
      reads this
    {
      |frames| + room == capacity
    }

    method WriteFrame(tag: Tag, data: Bytes) returns (ok: bool)
      requires Valid()
      modifies this
      ensures Valid() && (ok <==> old(room) > 0)
      ensures frames == old(frames) + if ok then [Frame(tag, data)] else []
    {
      ok := room > 0;
      if ok {
        frames, room := frames + [Frame(tag, data)], room - 1;
      }
    }

    /** One decoded block, preceded by the metadata if it is the session's first. */
    method WriteAudio(a: Audio, metaSent: bool) returns (ok: bool)
      requires Valid()
      modifies this
      ensures Valid()
      ensures ok ==> frames == old(frames) + (if metaSent then [] else [MetaFrame(a)]) + [Frame(PCMS, a.data)]
      ensures old(frames) <= frames
      ensures frames <= old(frames) + (if metaSent then [] else [MetaFrame(a)]) + [Frame(PCMS, a.data)]
      ensures !ok ==> |frames| == capacity < |old(frames)| + (if metaSent then 0 else 1) + 1
    {
      if !metaSent {
        var meta := EncodeMeta(a.rate, a.channels, a.bits, EncodingOf(a));
        ok := WriteFrame(META, meta[..]);
        if !ok { return; }
      }
      ok := WriteFrame(PCMS, a.data);
    }
  }

  datatype Outcome = Completed | IoFailed | Suspended

  /** What has been written for a session whose answer starts at `base`. */
  ghost predicate Answering(w: Writer, base: seq<Frame>, s: Sess, metaSent: bool)
    reads w
  {
    w.Valid() && w.frames == base + Stream(s.written) && (metaSent <==> s.written != [])
  }

  /** However a session stops before its end, what it wrote is part of its answer. */
  ghost predicate PartlyAnswered(w: Writer, base: seq<Frame>, c: Codec, src: Source)
    reads w
  {
    w.Valid() && base <= w.frames <= base + Stream(Decoded(c, src))
  }

  /** Why a write of the session's answer fails. */
  ghost predicate PeerFull(w: Writer, base: seq<Frame>, c: Codec, src: Source)
    reads w
  {
    |w.frames| == w.capacity < |base| + |Answer(Decoded(c, src))|
  }

  /** Why the session that starts at `start` fails, seen from its `i`-th frame on. */
  ghost predicate IoCause(w: Writer, base: seq<Frame>, c: Codec, arrivals: seq<Arrival>, start: nat, i: nat)
    requires start <= i <= |arrivals|
    reads w
  {
    ReadFails(arrivals[i..]) || PeerFull(w, base, c, Tcp(arrivals[start..]))
  }

  lemma AnsweringIsPart(w: Writer, base: seq<Frame>, c: Codec, src: Source, log: seq<Turn>, metaSent: bool)
    requires Answering(w, base, Exec(c, Start(src), log), metaSent)
    ensures PartlyAnswered(w, base, c, src)
  {
    EndToEnd(c, src, log);
    StreamPrefix(Exec(c, Start(src), log).written, Decoded(c, src));
  }

  lemma AnswerIsWhole(w: Writer, base: seq<Frame>, c: Codec, src: Source, log: seq<Turn>, metaSent: bool)
    requires Answering(w, base, Exec(c, Start(src), log), metaSent) && Exec(c, Start(src), log).phase.Finished?
    ensures PartlyAnswered(w, base, c, src) && w.frames == base + Stream(Decoded(c, src))
  {
    EndToEnd(c, src, log);
  }

  /** Writing one block behind those already written of a session. */
  method WriteBlock(w: Writer, a: Audio, metaSent: bool,
                    ghost base: seq<Frame>, ghost written: seq<Audio>, ghost whole: seq<Audio>) returns (ok: bool)
    requires w.Valid() && w.frames == base + Stream(written) && (metaSent <==> written != [])
    requires written + [a] <= whole
    modifies w
    ensures w.Valid()
    ensures if ok then w.frames == base + Stream(written + [a])
      else base <= w.frames <= base + Stream(whole) && |w.frames| == w.capacity < |base| + |Answer(whole)|
  {
    StreamAppend(written, a);
    StreamPrefix(written + [a], whole);
    ghost var added := (if metaSent then [] else [MetaFrame(a)]) + [Frame(PCMS, a.data)];
    ok := w.WriteAudio(a, metaSent);
    WholeIsPart(base, Stream(written), added, Stream(whole), w.frames);
    Assoc(base + Stream(written), if metaSent then [] else [MetaFrame(a)], [Frame(PCMS, a.data)]);
    Assoc(Stream(written), if metaSent then [] else [MetaFrame(a)], [Frame(PCMS, a.data)]);
  }

  /** Writing the result just received, from the state `s1` before the turn. */
  method Deliver(h: PooledDecoder, w: Writer, x: Item, metaSent0: bool,
                 ghost base: seq<Frame>, ghost src: Source, ghost s1: Sess)
      returns (ok: bool, metaSent: bool, ghost s: Sess)
    requires InTurn(h, src, s1) && (s1.phase.Draining? || s1.phase.Flushing?)
    requires s1.d.output != [] && x == s1.d.output[0] && h.d == Take(s1.d)
    requires Answering(w, base, s1, metaSent0)
    modifies h`log, w
    ensures Tracks(h, src, s) && s.d.alive == s1.d.alive && s.src == s1.src
    ensures ok ==> s.phase == s1.phase && Answering(w, base, s, metaSent)
    ensures !ok ==> s.phase.Dropping? && PartlyAnswered(w, base, h.codec, src) && PeerFull(w, base, h.codec, src)
  {
    ok, metaSent := true, metaSent0;
    if x.Pcm? {
      NextAudioIsDecoded(h.codec, src, h.log);
      ok := WriteBlock(w, x.audio, metaSent0, base, s1.written, Decoded(h.codec, src));
      metaSent := true;
    }
    s := Took(h, src, s1, ok);
  }

  lemma WholeIsPart(base: seq<Frame>, had: seq<Frame>, added: seq<Frame>, whole: seq<Frame>, now: seq<Frame>)
    requires had + added <= whole && base + had <= now <= base + had + added
    ensures base <= now <= base + whole && |base| + |had| + |added| <= |base| + |whole|
    ensures base + (had + added) == base + had + added
  {
    Assoc(base, had, added);
    assert base + (had + added) <= base + whole;
  }

  /** The drain loop before each read. */
  method Drain(h: PooledDecoder, w: Writer, metaSent0: bool, ghost base: seq<Frame>, ghost src: Source, ghost s0: Sess)
      returns (outcome: Outcome, metaSent: bool, ghost s: Sess)
    requires Tracks(h, src, s0) && s0.phase.Draining? && s0.d.alive && Answering(w, base, s0, metaSent0)
    modifies h, w
    ensures Tracks(h, src, s) && s.d.alive && s.src == s0.src && |h.schedule| <= |old(h.schedule)|
    ensures outcome.Completed? ==> s.phase.Reading? && Answering(w, base, s, metaSent)
    ensures outcome.IoFailed? ==> s.phase.Dropping? && PeerFull(w, base, h.codec, src)
    ensures outcome.Suspended? ==> h.schedule == [] && s.phase.Draining?
    ensures !outcome.Completed? ==> PartlyAnswered(w, base, h.codec, src)
  {
    metaSent, s := metaSent0, s0;
    while true
      invariant Tracks(h, src, s) && s.phase.Draining? && s.d.alive && Answering(w, base, s, metaSent)
      invariant |h.schedule| <= |old(h.schedule)| && s.src == s0.src
      decreases |h.schedule|
    {
      var r;
      ghost var s1;
      r, s1 := TryRecv(h, src, s);
      match r
      case Received(x) =>
        var ok;
        ok, metaSent, s := Deliver(h, w, x, metaSent, base, src, s1);
        if !ok { return IoFailed, metaSent, s; }
      case NothingYet =>
        s := Took(h, src, s1, true);
        return Completed, metaSent, s;
      case Closed =>
        s := Took(h, src, s1, true);
        return Completed, metaSent, s;
      case TrySuspended =>
        s := s1;
        AnsweringIsPart(w, base, h.codec, src, h.log, metaSent);
        return Suspended, metaSent, s;
    }
  }

  /** The flush loop after the end of input. */
  method Flush(h: PooledDecoder, w: Writer, metaSent0: bool, ghost base: seq<Frame>, ghost src: Source, ghost s0: Sess)
      returns (outcome: Outcome, ghost s: Sess)
    requires Tracks(h, src, s0) && s0.phase.Flushing? && s0.d.alive && Answering(w, base, s0, metaSent0)
    modifies h, w
    ensures Tracks(h, src, s) && s.d.alive
    ensures outcome.Completed? ==> s.phase.Finished? && w.frames == base + Stream(Decoded(h.codec, src))
    ensures outcome.IoFailed? ==> s.phase.Dropping? && PeerFull(w, base, h.codec, src)
    ensures outcome.Suspended? ==> h.schedule == [] && s.phase.Flushing?
    ensures PartlyAnswered(w, base, h.codec, src)
  {
    var metaSent := metaSent0;
    s := s0;
    while true
      invariant Tracks(h, src, s) && s.phase.Flushing? && s.d.alive && Answering(w, base, s, metaSent)
      decreases |h.schedule|
    {
      var r;
      ghost var s1;
      r, s1 := Recv(h, src, s);
      match r
      case Result(x) =>
        var ok;
        ok, metaSent, s := Deliver(h, w, x, metaSent, base, src, s1);
        if !ok { return IoFailed, s; }
      case Ended =>
        s := Took(h, src, s1, true);
        AnswerIsWhole(w, base, h.codec, src, h.log, metaSent);
        return Completed, s;
      case RecvSuspended =>
        s := s1;
        AnsweringIsPart(w, base, h.codec, src, h.log, metaSent);
        return Suspended, s;
    }
  }

  /** Neither finished nor given up. */
  predicate Unsettled(s: Sess) {
    !s.phase.Finished? && !s.phase.Dropping? && !s.phase.Gone?
  }

  /** Reading one frame of a session, or the end of the stream, and acting on it:
      `Completed` means that it ended the session's input. */
  method TakeArrival(h: PooledDecoder, arrivals: seq<Arrival>, i: nat, ghost src: Source, ghost s0: Sess)
      returns (outcome: Outcome, more: bool, ghost s: Sess)
    requires Tracks(h, src, s0) && s0.phase.Reading? && s0.d.alive
    requires i <= |arrivals| && s0.src == Tcp(arrivals[i..])
    modifies h
    ensures Tracks(h, src, s) && s.d.alive && s.written == s0.written
    ensures more ==> s.phase.Draining? && i < |arrivals| && !EndsSession(arrivals[i]) && s.src == Tcp(arrivals[i + 1..])
    ensures !more && outcome.Completed? ==> s.phase.Flushing?
    ensures !more && outcome.Completed? && i < |arrivals| ==> EndsSession(arrivals[i]) && !arrivals[i].ReadError?
    ensures outcome.IoFailed? ==> s.phase.Dropping? && !more && i < |arrivals| && arrivals[i].ReadError?
    ensures outcome.Suspended? ==> h.schedule == [] && !more && Unsettled(s)
  {
    var go;
    go, s := Read(h, src, s0);
    if !go { return Suspended, false, s; }
    if i == |arrivals| {
      go, s := SendOn(h, [], src, s);
      return if go then Completed else Suspended, false, s;
    }
    var a := arrivals[i];
    assert arrivals[i..][0] == a && arrivals[i..][1..] == arrivals[i + 1..];
    if a.ReadError? {
      return IoFailed, false, s;
    } else if EndsSession(a) {
      go, s := SendOn(h, [], src, s);
      return if go then Completed else Suspended, false, s;
    } else if a.frame.tag.DCOD? {
      go, s := SendOn(h, a.frame.data, src, s);
      return if go then Completed else Suspended, go, s;
    } else {
      return Completed, true, s;
    }
  }

  /** What the session's read loop keeps: `i` is the position after the frames it read. */
  ghost predicate Feeding(h: PooledDecoder, w: Writer, arrivals: seq<Arrival>, start: nat, i: nat,
                          base: seq<Frame>, s: Sess, metaSent: bool)
    requires start <= i <= |arrivals|
    reads h, w
  {
    && Tracks(h, Tcp(arrivals[start..]), s) && s.d.alive
    && s.phase == (if i == start then Phase.Reading else Draining)
    && s.src == Tcp(arrivals[i..])
    && Answering(w, base, s, metaSent)
  }

  /** Draining, except before the session's first frame. */
  method DrainFirst(h: PooledDecoder, w: Writer, arrivals: seq<Arrival>, start: nat, i: nat, metaSent0: bool,
                    ghost base: seq<Frame>, ghost s0: Sess)
      returns (outcome: Outcome, metaSent: bool, ghost s: Sess)
    requires start <= i <= |arrivals| && Feeding(h, w, arrivals, start, i, base, s0, metaSent0)
    modifies h, w
    ensures Tracks(h, Tcp(arrivals[start..]), s) && s.d.alive && s.src == Tcp(arrivals[i..])
    ensures outcome.Completed? ==> s.phase.Reading? && Answering(w, base, s, metaSent)
    ensures outcome.IoFailed? ==> s.phase.Dropping? && PeerFull(w, base, h.codec, Tcp(arrivals[start..]))
    ensures outcome.Suspended? ==> h.schedule == [] && Unsettled(s)
    ensures !outcome.Completed? ==> PartlyAnswered(w, base, h.codec, Tcp(arrivals[start..]))
  {
    if i == start {
      outcome, metaSent, s := Completed, metaSent0, s0;
    } else {
      outcome, metaSent, s := Drain(h, w, metaSent0, base, Tcp(arrivals[start..]), s0);
    }
  }

  /** Reading on, and where that leaves the stream of arrivals. */
  method ReadOn(h: PooledDecoder, ghost w: Writer, arrivals: seq<Arrival>, start: nat, i0: nat, ghost metaSent: bool,
                ghost base: seq<Frame>, ghost s0: Sess)
      returns (outcome: Outcome, i: nat, more: bool, ghost s: Sess)
    requires start <= i0 <= |arrivals| && Tracks(h, Tcp(arrivals[start..]), s0) && s0.d.alive
    requires s0.phase.Reading? && s0.src == Tcp(arrivals[i0..]) && Answering(w, base, s0, metaSent)
    modifies h
    ensures i0 <= i <= |arrivals| && (more ==> i0 < i)
    ensures Tracks(h, Tcp(arrivals[start..]), s) && s.d.alive && Answering(w, base, s, metaSent)
    ensures more ==> Feeding(h, w, arrivals, start, i, base, s, metaSent)
    ensures more ==> AfterSession(arrivals[i..]) == AfterSession(arrivals[i0..])
    ensures more ==> ReadFails(arrivals[i..]) == ReadFails(arrivals[i0..])
    ensures !more && outcome.Completed? ==>
      s.phase.Flushing? && arrivals[i..] == AfterSession(arrivals[i0..]) && !ReadFails(arrivals[i0..])
    ensures outcome.IoFailed? ==> !more && s.phase.Dropping? && ReadFails(arrivals[i0..])
    ensures outcome.Suspended? ==> h.schedule == [] && !more && Unsettled(s)
  {
    i := i0;
    outcome, more, s := TakeArrival(h, arrivals, i, Tcp(arrivals[start..]), s0);
    if i < |arrivals| && outcome.Completed? {
      AfterSessionFrom(arrivals, i);
      i := i + 1;
    }
  }

  /** One iteration: drain, then read. */
  method FeedOnce(h: PooledDecoder, w: Writer, arrivals: seq<Arrival>, start: nat, i0: nat, metaSent0: bool,
                  ghost base: seq<Frame>, ghost s0: Sess)
      returns (outcome: Outcome, i: nat, more: bool, metaSent: bool, ghost s: Sess)
    requires start <= i0 <= |arrivals| && Feeding(h, w, arrivals, start, i0, base, s0, metaSent0)
    modifies h, w
    ensures i0 <= i <= |arrivals| && (more ==> i0 < i)
    ensures Tracks(h, Tcp(arrivals[start..]), s) && s.d.alive
    ensures PartlyAnswered(w, base, h.codec, Tcp(arrivals[start..]))
    ensures more ==> Feeding(h, w, arrivals, start, i, base, s, metaSent)
    ensures more ==> AfterSession(arrivals[i..]) == AfterSession(arrivals[i0..])
    ensures more ==> ReadFails(arrivals[i..]) == ReadFails(arrivals[i0..])
    ensures !more && outcome.Completed? ==>
      && s.phase.Flushing? && Answering(w, base, s, metaSent)
      && arrivals[i..] == AfterSession(arrivals[i0..]) && !ReadFails(arrivals[i0..])
    ensures outcome.IoFailed? ==> !more && s.phase.Dropping? && IoCause(w, base, h.codec, arrivals, start, i0)
    ensures outcome.Suspended? ==> h.schedule == [] && !more && Unsettled(s)
  {
    i, more := i0, false;
    outcome, metaSent, s := DrainFirst(h, w, arrivals, start, i, metaSent0, base, s0);
    if !outcome.Completed? { return; }
    outcome, i, more, s := ReadOn(h, w, arrivals, start, i, metaSent, base, s);
    AnsweringIsPart(w, base, h.codec, Tcp(arrivals[start..]), h.log, metaSent);
  }

  /** The session's read loop, from its first frame `arrivals[start]` to its end of input. */
  method FeedSession(h: PooledDecoder, w: Writer, arrivals: seq<Arrival>, start: nat, ghost base: seq<Frame>)
      returns (outcome: Outcome, i: nat, metaSent: bool, ghost s: Sess)
    requires start < |arrivals| && Feeding(h, w, arrivals, start, start, base, Start(Tcp(arrivals[start..])), false)
    modifies h, w
    ensures start <= i <= |arrivals|
    ensures Tracks(h, Tcp(arrivals[start..]), s) && s.d.alive
    ensures outcome.Completed? ==>
      && s.phase.Flushing? && Answering(w, base, s, metaSent)
      && arrivals[i..] == AfterSession(arrivals[start..]) && !ReadFails(arrivals[start..])
    ensures outcome.IoFailed? ==> s.phase.Dropping? && IoCause(w, base, h.codec, arrivals, start, start)
    ensures outcome.Suspended? ==> h.schedule == [] && Unsettled(s)
    ensures PartlyAnswered(w, base, h.codec, Tcp(arrivals[start..]))
  {
    var more := true;
    i, metaSent, s := start, false, Start(Tcp(arrivals[start..]));
    outcome, i, more, metaSent, s := FeedOnce(h, w, arrivals, start, i, metaSent, base, s);
    while more
      invariant start <= i <= |arrivals| && Tracks(h, Tcp(arrivals[start..]), s) && s.d.alive
      invariant more ==> i > start && Feeding(h, w, arrivals, start, i, base, s, metaSent)
      invariant more ==> AfterSession(arrivals[i..]) == AfterSession(arrivals[start..])
      invariant more ==> ReadFails(arrivals[i..]) == ReadFails(arrivals[start..])
      invariant !more && outcome.Completed? ==>
        && s.phase.Flushing? && Answering(w, base, s, metaSent)
        && arrivals[i..] == AfterSession(arrivals[start..]) && !ReadFails(arrivals[start..])
      invariant outcome.IoFailed? ==> !more && s.phase.Dropping? && IoCause(w, base, h.codec, arrivals, start, start)
      invariant outcome.Suspended? ==> h.schedule == [] && !more && Unsettled(s)
      invariant PartlyAnswered(w, base, h.codec, Tcp(arrivals[start..]))
      decreases |arrivals| - i, more
    {
      outcome, i, more, metaSent, s := FeedOnce(h, w, arrivals, start, i, metaSent, base, s);
    }
  }

  /** The session finishes when the turns go as planned. */
  predicate FinishesOn(c: Codec, src: Source, plan: seq<Turn>) {
    Exec(c, Start(src), plan).phase.Finished?
  }

  /** A session that used up its plan without finishing or failing cannot finish on it. */
  lemma UsedUp(h: PooledDecoder, src: Source, s: Sess)
    requires Tracks(h, src, s) && h.schedule == [] && Unsettled(s)
    ensures !FinishesOn(h.codec, src, h.plan)
  {
    assert h.taken + [] == h.taken;
    ErasedRun(h.codec, Start(src), h.log);
  }

  /** Why a session stops before its end: a failed read, a full peer, or too short a schedule. */
  ghost predicate Stopped(h: PooledDecoder, w: Writer, base: seq<Frame>, arrivals: seq<Arrival>, outcome: Outcome)
    reads h, w
  {
    var src := Tcp(arrivals);
    && PartlyAnswered(w, base, h.codec, src)
    && (ReadFails(arrivals) || PeerFull(w, base, h.codec, src)
        || (outcome.Suspended? && !FinishesOn(h.codec, src, h.plan)))
  }

  /** One session, from the decoder just acquired for it to its DONE frame. */
  method RunSession(h: PooledDecoder, w: Writer, arrivals: seq<Arrival>, start: nat)
      returns (outcome: Outcome, i: nat)
    requires h.Unused() && w.Valid()
    requires start < |arrivals| && StartsSession(arrivals[start])
    modifies h, w
    ensures start <= i <= |arrivals| && w.Valid()
    ensures if outcome.Completed? then
        && w.frames == old(w.frames) + Answer(Decoded(h.codec, Tcp(arrivals[start..])))
        && arrivals[i..] == AfterSession(arrivals[start..]) && i > start && !h.d.alive
        && !ReadFails(arrivals[start..])
      else Stopped(h, w, old(w.frames), arrivals[start..], outcome)
  {
    ghost var src, base, s := Tcp(arrivals[start..]), w.frames, Start(Tcp([]));
    var metaSent, go;
    outcome, i, metaSent, s := FeedSession(h, w, arrivals, start, base);
    if outcome.Completed? {
      outcome, s := Flush(h, w, metaSent, base, src, s);
    }
    if outcome.Suspended? {
      UsedUp(h, src, s);
    } else if outcome.IoFailed? {
      go, s := DropOn(h, src, s);
      if !go { outcome := Suspended; }
    } else {
      var ok := w.WriteFrame(DONE, []);
      Assoc(base, Stream(Decoded(h.codec, src)), [DONE_FRAME]);
      FinishedIsGone(h.codec, src, h.log);
      h.DropFinished();
      outcome := if ok then Completed else IoFailed;
    }
  }

  lemma FinishedIsGone(c: Codec, src: Source, log: seq<Turn>)
    requires Exec(c, Start(src), log).phase.Finished?
    ensures Exec(c, Start(src), log).d.worker.Exited?
  {
    AlwaysSessInv(c, src, log);
  }

  // ---------------------------------------------------------------- the connection

  /** How a connection ends, after answering so many sessions. */
  predicate ConnectionEnds(c: Codec, arrivals: seq<Arrival>, decoders: seq<Option<seq<Turn>>>, room: nat,
                           frames: seq<Frame>, answered: nat, outcome: Outcome) {
    var sessions := Sessions(arrivals);
    && answered <= Intact(arrivals)
    && Answers(c, sessions[..answered]) <= frames <= Answers(c, sessions)
    && CountTag(frames, DONE) == answered
    && match outcome
       case Completed => answered == |sessions| && frames == Answers(c, sessions) && !AnyReadFails(arrivals)
       case IoFailed =>
         || OutsideCause(c, arrivals, room, frames, answered)
         || (answered < |sessions| && answered < |decoders| && decoders[answered].None?)
       case Suspended =>
         && answered < |sessions|
         && (|| answered >= |decoders|
             || OutsideCause(c, arrivals, room, frames, answered)
             || (decoders[answered].Some? && !FinishesOn(c, sessions[answered], Erased(decoders[answered].value))))
  }

  /** The peer is full, or a read failed, in the session next to be answered or after all. */
  predicate OutsideCause(c: Codec, arrivals: seq<Arrival>, room: nat, frames: seq<Frame>, answered: nat) {
    var sessions := Sessions(arrivals);
    || (|frames| == room < |Answers(c, sessions)|)
    || (AnyReadFails(arrivals) && answered == |sessions|)
    || (answered < |sessions| && !ReadsCleanly(sessions[answered]))
  }

  /** Where a connection stands between two sessions. */
  predicate Standing(c: Codec, arrivals: seq<Arrival>, i: nat, done: seq<Source>, frames: seq<Frame>) {
    && i <= |arrivals| && done + Sessions(arrivals[i..]) == Sessions(arrivals) && frames == Answers(c, done)
    && (done != [] ==> ReadsCleanly(done[|done| - 1]))
    && (AnyReadFails(arrivals) == AnyReadFails(arrivals[i..]))
  }

  lemma StandsWell(c: Codec, arrivals: seq<Arrival>, i: nat, done: seq<Source>, frames: seq<Frame>)
    requires Standing(c, arrivals, i, done, frames)
    ensures Sessions(arrivals)[..|done|] == done && frames <= Answers(c, Sessions(arrivals))
    ensures CountTag(frames, DONE) == |done| <= Intact(arrivals)
    ensures ReadAll(Between, frames) != Rejected
  {
    AnswersConcat(c, done, Sessions(arrivals[i..]));
    AnswerCounts(c, done);
    AnyPartReads(c, Sessions(arrivals), frames);
  }

  lemma StandsOver(c: Codec, arrivals: seq<Arrival>, i: nat, done: seq<Source>, frames: seq<Frame>)
    requires Standing(c, arrivals, i, done, frames)
    requires i < |arrivals| && !arrivals[i].ReadError? && !StartsSession(arrivals[i])
    ensures Standing(c, arrivals, i + 1, done, frames)
  {
    SessionsFrom(arrivals, i);
    AnyReadFailsFrom(arrivals, i);
  }

  lemma StandsAtStart(c: Codec, arrivals: seq<Arrival>)
    ensures Standing(c, arrivals, 0, [], [])
  {
    assert arrivals[0..] == arrivals && [] + Sessions(arrivals) == Sessions(arrivals);
  }

  lemma StandsAfter(c: Codec, arrivals: seq<Arrival>, i: nat, done: seq<Source>, frames: seq<Frame>, i': nat)
    requires Standing(c, arrivals, i, done, frames) && i < |arrivals| && StartsSession(arrivals[i])
    requires i' <= |arrivals| && arrivals[i'..] == AfterSession(arrivals[i..]) && !ReadFails(arrivals[i..])
    ensures var src := Tcp(arrivals[i..]);
      Standing(c, arrivals, i', done + [src], frames + Answer(Decoded(c, src)))
  {
    var src := Tcp(arrivals[i..]);
    SessionsFrom(arrivals, i);
    Assoc(done, [src], Sessions(arrivals[i'..]));
    AnswersConcat(c, done, [src]);
    AnswersOne(c, src);
    FailedReadIsLater(arrivals[i..]);
  }

  lemma NextSession(c: Codec, arrivals: seq<Arrival>, i: nat, done: seq<Source>, base: seq<Frame>)
    requires Standing(c, arrivals, i, done, base) && i < |arrivals| && StartsSession(arrivals[i])
    ensures |done| < |Sessions(arrivals)| && Sessions(arrivals)[|done|] == Tcp(arrivals[i..])
    ensures Sessions(arrivals)[..|done|] == done && |done| <= Intact(arrivals)
  {
    SessionsFrom(arrivals, i);
  }

  lemma StandsPartly(c: Codec, arrivals: seq<Arrival>, i: nat, done: seq<Source>, base: seq<Frame>, frames: seq<Frame>)
    requires Standing(c, arrivals, i, done, base) && i < |arrivals| && StartsSession(arrivals[i])
    requires base <= frames <= base + Stream(Decoded(c, Tcp(arrivals[i..])))
    ensures Answers(c, done) <= frames <= Answers(c, Sessions(arrivals))
    ensures |base| + |Answer(Decoded(c, Tcp(arrivals[i..])))| <= |Answers(c, Sessions(arrivals))|
    ensures CountTag(frames, DONE) == |done|
  {
    var src, later := Tcp(arrivals[i..]), Sessions(AfterSession(arrivals[i..]));
    SessionsFrom(arrivals, i);
    AnswersConcat(c, done, [src] + later);
    AnswersFirst(c, src, later);
    DonesWritten(c, done, src, frames);
    PartOfAnswers(base, frames, Stream(Decoded(c, src)), Answers(c, later));
  }

  lemma PartOfAnswers(base: seq<Frame>, frames: seq<Frame>, stream: seq<Frame>, later: seq<Frame>)
    requires base <= frames <= base + stream
    ensures frames <= base + ((stream + [DONE_FRAME]) + later)
  {
    Assoc(stream, [DONE_FRAME], later);
    Assoc(base, stream, [DONE_FRAME] + later);
  }

  lemma EndsBetween(c: Codec, arrivals: seq<Arrival>, decoders: seq<Option<seq<Turn>>>, room: nat,
                    i: nat, done: seq<Source>, frames: seq<Frame>, outcome: Outcome)
    requires Standing(c, arrivals, i, done, frames)
    requires match outcome
      case Completed => i == |arrivals|
      case IoFailed => i < |arrivals|
        && (arrivals[i].ReadError? || (StartsSession(arrivals[i]) && |done| < |decoders| && decoders[|done|].None?))
      case Suspended => i < |arrivals| && StartsSession(arrivals[i]) && |done| >= |decoders|
    ensures ConnectionEnds(c, arrivals, decoders, room, frames, |done|, outcome)
    ensures ReadAll(Between, frames) != Rejected
  {
    StandsWell(c, arrivals, i, done, frames);
    assert frames <= frames + [];
    if i == |arrivals| {
      assert done + [] == done;
    } else if StartsSession(arrivals[i]) {
      NextSession(c, arrivals, i, done, frames);
      StandsPartly(c, arrivals, i, done, frames, frames);
    } else {
      assert arrivals[i..][0] == arrivals[i] && done + [] == done;
    }
  }

  lemma EndsInside(h: PooledDecoder, w: Writer, arrivals: seq<Arrival>, decoders: seq<Option<seq<Turn>>>,
                   i: nat, done: seq<Source>, base: seq<Frame>, outcome: Outcome)
    requires Standing(h.codec, arrivals, i, done, base) && i < |arrivals| && StartsSession(arrivals[i])
    requires Stopped(h, w, base, arrivals[i..], outcome) && !outcome.Completed?
    requires |done| < |decoders| && decoders[|done|].Some? && h.plan == Erased(decoders[|done|].value)
    ensures ConnectionEnds(h.codec, arrivals, decoders, w.capacity, w.frames, |done|, outcome)
    ensures ReadAll(Between, w.frames) != Rejected
  {
    NextSession(h.codec, arrivals, i, done, base);
    StandsPartly(h.codec, arrivals, i, done, base, w.frames);
    AnyPartReads(h.codec, Sessions(arrivals), w.frames);
  }

  /** `handle_decode_stream`. The k-th acquired decoder runs under `decoders[k]`, or cannot be
      acquired. Whatever the schedules, the frames written are a prefix of the answers to the
      connection's sessions, with a DONE for each session answered, and all of them when the
      client's closing ends the connection; any other end has its cause. */
  method Serve(codec: Codec, arrivals: seq<Arrival>, decoders: seq<Option<seq<Turn>>>, w: Writer)
      returns (outcome: Outcome, answered: nat)
    requires w.frames == [] && w.Valid()
    modifies w
    ensures ConnectionEnds(codec, arrivals, decoders, w.capacity, w.frames, answered, outcome)
    ensures ReadAll(Between, w.frames) != Rejected
  {
    var i := 0;
    ghost var done: seq<Source> := [];
    answered := 0;
    StandsAtStart(codec, arrivals);
    while i < |arrivals|
      invariant w.Valid() && Standing(codec, arrivals, i, done, w.frames) && answered == |done|
      decreases |arrivals| - i
    {
      if arrivals[i].ReadError? {
        EndsBetween(codec, arrivals, decoders, w.capacity, i, done, w.frames, IoFailed);
        return IoFailed, answered;
      }
      if !StartsSession(arrivals[i]) {
        StandsOver(codec, arrivals, i, done, w.frames);
        i := i + 1;
        continue;
      }
      if answered >= |decoders| {
        EndsBetween(codec, arrivals, decoders, w.capacity, i, done, w.frames, Suspended);
        return Suspended, answered;
      }
      if decoders[answered].None? {
        EndsBetween(codec, arrivals, decoders, w.capacity, i, done, w.frames, IoFailed);
        return IoFailed, answered;
      }
      var h := new PooledDecoder(codec, decoders[answered].value);
      ghost var base := w.frames;
      var next;
      outcome, next := RunSession(h, w, arrivals, i);
      if !outcome.Completed? {
        EndsInside(h, w, arrivals, decoders, i, done, base, outcome);
        return outcome, answered;
      }
      StandsAfter(codec, arrivals, i, done, base, next);
      i, answered, done := next, answered + 1, done + [Tcp(arrivals[i..])];
    }
    EndsBetween(codec, arrivals, decoders, w.capacity, i, done, w.frames, Completed);
    outcome := Completed;
  }

  /** A peer that takes everything, and for each session a decoder with an ample schedule and an
      input that cannot block it. */
  ghost predicate WellProvided(c: Codec, arrivals: seq<Arrival>, decoders: seq<Option<seq<Turn>>>, room: nat) {
    var sessions := Sessions(arrivals);
    && room >= |Answers(c, sessions)| && |decoders| >= |sessions|
    && forall k :: 0 <= k < |sessions| ==>
         decoders[k].Some? && AmplePlan(c, sessions[k], decoders[k].value) && !CanBlock(c, sessions[k])
  }

  lemma AmpleFinishesOn(c: Codec, src: Source, plan: seq<Turn>)
    requires AmplePlan(c, src, plan) && ReadsCleanly(src) && !CanBlock(c, src)
    ensures FinishesOn(c, src, Erased(plan))
  {
    var rounds :| Ample(c, src, rounds) && plan == Flatten(rounds);
    assert Erased(plan) == plan;
    CooperationFinishes(c, src, rounds);
  }

  /** Such a connection answers, completely, every session but one that a failed read cuts off;
      and it is served to its end exactly if no read fails. */
  lemma ConnectionsAreServed(c: Codec, arrivals: seq<Arrival>, decoders: seq<Option<seq<Turn>>>, room: nat,
                             frames: seq<Frame>, answered: nat, outcome: Outcome)
    requires ConnectionEnds(c, arrivals, decoders, room, frames, answered, outcome)
    requires WellProvided(c, arrivals, decoders, room)
    ensures answered == Intact(arrivals) && Answers(c, Sessions(arrivals)[..answered]) <= frames
    ensures outcome.Completed? <==> !AnyReadFails(arrivals)
    ensures outcome.Completed? ==> frames == Answers(c, Sessions(arrivals))
  {
    var sessions := Sessions(arrivals);
    if answered < |sessions| {
      if ReadsCleanly(sessions[answered]) {
        AmpleFinishesOn(c, sessions[answered], decoders[answered].value);
        assert false;
      }
      if answered < Intact(arrivals) {
        OnlyLastFails(arrivals, answered);
        assert false;
      }
      CutSessionFailed(arrivals, answered);
    }
  }
}
