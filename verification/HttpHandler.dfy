/** The streaming HTTP handler, in its own shape (src/router.rs). */
module HttpHandler {
  import opened Prelude
  import opened Decoder
  import opened Session
  import opened Deadlock
  import opened Handle
  import opened Drive

  datatype Outcome = Completed | WriteFailed | Suspended

  /** Sending one piece of the response; the peer takes `peer` more of them. */
  method SendData(response: Bytes, data: Bytes, peer: nat) returns (ok: bool, response': Bytes, peer': nat)
    ensures ok <==> peer > 0
    ensures response' == if ok then response + data else response
    ensures peer' == if ok then peer - 1 else peer
  {
    ok := peer > 0;
    response' := if ok then response + data else response;
    peer' := if ok then peer - 1 else peer;
  }

  /** The response so far, and how much of the peer's room it has used. */
  predicate Responded(s: Sess, response: Bytes, peer: nat, room: nat) {
    response == PcmBytes(s.written) && |s.written| + peer == room
  }

  /** Why a write fails: the peer took `room` pieces, and there is another. */
  predicate PeerFull(c: Codec, src: Source, s: Sess, room: nat) {
    |s.written| == room < |Decoded(c, src)|
  }

  /** Writing the result just received, from the state `s1` before the turn. */
  method Deliver(h: PooledDecoder, x: Item, response0: Bytes, peer0: nat,
                 ghost room: nat, ghost src: Source, ghost s1: Sess)
      returns (ok: bool, response: Bytes, peer: nat, ghost s: Sess)
    requires InTurn(h, src, s1) && (s1.phase.Draining? || s1.phase.Flushing?)
    requires s1.d.output != [] && x == s1.d.output[0] && h.d == Take(s1.d)
    requires Responded(s1, response0, peer0, room)
    modifies h`log
    ensures Tracks(h, src, s) && s.d.alive == s1.d.alive && s.src == s1.src
    ensures Responded(s, response, peer, room)
    ensures if ok then s.phase == s1.phase else s.phase.Dropping? && PeerFull(h.codec, src, s, room)
  {
    ok, response, peer := true, response0, peer0;
    if x.Pcm? {
      ok, response, peer := SendData(response0, x.audio.data, peer0);
      PcmBytesAppend(s1.written, x.audio);
      NextAudioIsDecoded(h.codec, src, h.log);
    }
    s := Took(h, src, s1, ok);
  }

  /** The drain loop after a send: `Completed` when nothing is ready any more. */
  method Drain(h: PooledDecoder, response0: Bytes, peer0: nat, ghost room: nat, ghost src: Source, ghost s0: Sess)
      returns (outcome: Outcome, response: Bytes, peer: nat, ghost s: Sess)
    requires Tracks(h, src, s0) && s0.phase.Draining? && s0.d.alive && Responded(s0, response0, peer0, room)
    modifies h
    ensures Tracks(h, src, s) && Responded(s, response, peer, room) && s.d.alive && s.src == s0.src
    ensures |h.schedule| <= |old(h.schedule)|
    ensures outcome.Completed? ==> s.phase.Reading?
    ensures outcome.WriteFailed? ==> s.phase.Dropping? && PeerFull(h.codec, src, s, room)
    ensures outcome.Suspended? ==> h.schedule == [] && s.phase.Draining?
  {
    response, peer, s := response0, peer0, s0;
    while true
      invariant Tracks(h, src, s) && s.phase.Draining? && s.d.alive && Responded(s, response, peer, room)
      invariant |h.schedule| <= |old(h.schedule)| && s.src == s0.src
      decreases |h.schedule|
    {
      var r;
      ghost var s1;
      r, s1 := TryRecv(h, src, s);
      match r
      case Received(x) =>
        var ok;
        ok, response, peer, s := Deliver(h, x, response, peer, room, src, s1);
        if !ok { return WriteFailed, response, peer, s; }
      case NothingYet =>
        s := Took(h, src, s1, true);
        return Completed, response, peer, s;
      case Closed =>
        s := Took(h, src, s1, true);
        return Completed, response, peer, s;
      case TrySuspended =>
        s := s1;
        return Suspended, response, peer, s;
    }
  }

  /** The last loop: polls until the decoder has finished. */
  method Flush(h: PooledDecoder, response0: Bytes, peer0: nat, ghost room: nat, ghost src: Source, ghost s0: Sess)
      returns (outcome: Outcome, response: Bytes, ghost s: Sess)
    requires Tracks(h, src, s0) && s0.phase.Flushing? && s0.d.alive && Responded(s0, response0, peer0, room)
    modifies h
    ensures Tracks(h, src, s) && response == PcmBytes(s.written) && s.d.alive
    ensures outcome.Completed? ==> s.phase.Finished?
    ensures outcome.WriteFailed? ==> s.phase.Dropping? && PeerFull(h.codec, src, s, room)
    ensures outcome.Suspended? ==> h.schedule == [] && s.phase.Flushing?
  {
    response, s := response0, s0;
    var peer := peer0;
    while true
      invariant Tracks(h, src, s) && s.phase.Flushing? && s.d.alive && Responded(s, response, peer, room)
      decreases |h.schedule|
    {
      var r;
      ghost var s1;
      r, s1 := TryRecv(h, src, s);
      match r
      case Received(x) =>
        var ok;
        ok, response, peer, s := Deliver(h, x, response, peer, room, src, s1);
        if !ok { return WriteFailed, response, s; }
      case NothingYet =>
        s := Took(h, src, s1, true);
      case Closed =>
        s := Took(h, src, s1, true);
        return Completed, response, s;
      case TrySuspended =>
        s := s1;
        return Suspended, response, s;
    }
  }

  /** The feed loop: body events are sent until the body ends or fails. */
  method FeedBody(h: PooledDecoder, body: seq<BodyEvent>, room: nat)
      returns (outcome: Outcome, response: Bytes, peer: nat, ghost s: Sess)
    requires h.Unused()
    modifies h
    ensures Tracks(h, Http(body), s) && Responded(s, response, peer, room) && s.d.alive
    ensures outcome.Completed? ==> s.phase.Ending?
    ensures outcome.WriteFailed? ==> s.phase.Dropping? && PeerFull(h.codec, Http(body), s, room)
    ensures outcome.Suspended? ==> h.schedule == [] && !s.phase.Finished? && !s.phase.Dropping? && !s.phase.Gone?
  {
    ghost var src := Http(body);
    response, peer, s := [], room, Start(src);
    var i := 0;
    while true
      invariant Tracks(h, src, s) && s.phase.Reading? && s.d.alive && Responded(s, response, peer, room)
      invariant 0 <= i <= |body| && s.src == Http(body[i..])
      decreases |body| - i
    {
      var go;
      go, s := Read(h, src, s);
      if !go { return Suspended, response, peer, s; }
      if i == |body| || body[i].BodyError? {
        return Completed, response, peer, s;
      }
      var chunk := body[i].data;
      assert body[i..][1..] == body[i + 1..];
      i := i + 1;
      if chunk != [] {
        go, s := SendOn(h, chunk, src, s);
        if !go { return Suspended, response, peer, s; }
        outcome, response, peer, s := Drain(h, response, peer, room, src, s);
        if !outcome.Completed? { return; }
      }
    }
  }

  /** How a handler's run ends: the history is a run of the session machine, as the schedule
      had it; a failed write means a full peer, and a suspension a used-up schedule. */
  ghost predicate Ends(h: PooledDecoder, src: Source, room: nat, outcome: Outcome, response: Bytes, s: Sess)
    reads h
  {
    && Tracks(h, src, s) && response == PcmBytes(s.written)
    && (outcome.Completed? <==> s.phase.Finished?)
    && (outcome.WriteFailed? ==> s.phase.Gone?)
    && (s.phase.Dropping? || s.phase.Gone? ==> PeerFull(h.codec, src, s, room))
    && (outcome.Suspended? ==> h.schedule == [] && h.taken == h.plan)
  }

  /** An ample schedule, a patient peer and an input that cannot block. */
  ghost predicate WellProvided(c: Codec, src: Source, plan: seq<Turn>, room: nat) {
    AmplePlan(c, src, plan) && !CanBlock(c, src) && room >= |Decoded(c, src)|
  }

  /** They leave nothing but completion. */
  lemma EndsWell(h: PooledDecoder, src: Source, room: nat, outcome: Outcome, response: Bytes, s: Sess, plan: seq<Turn>)
    requires Ends(h, src, room, outcome, response, s) && h.plan == Erased(plan)
    requires src.Http? && WellProvided(h.codec, src, plan, room)
    ensures outcome.Completed?
  {
    if outcome.Suspended? { AmpleFinishes(h.codec, src, h.log, plan); }
  }

  /** `handle_decode_stream`. Under every schedule the response is a prefix of the decoding of
      the body's non-empty chunks, and all of it if the handler completes; and it completes
      under every ample schedule if the peer takes everything and the body cannot block. */
  method HandleDecodeStream(h: PooledDecoder, body: seq<BodyEvent>, room: nat)
      returns (outcome: Outcome, response: Bytes, ghost s: Sess)
    requires h.Unused()
    modifies h
    ensures response <= PcmBytes(Decoded(h.codec, Http(body)))
    ensures outcome.Completed? ==> response == PcmBytes(Decoded(h.codec, Http(body)))
    ensures Ends(h, Http(body), room, outcome, response, s)
    ensures WellProvided(h.codec, Http(body), old(h.schedule), room) ==> outcome.Completed?
  {
    ghost var src := Http(body);
    var go, peer;
    outcome, response, peer, s := FeedBody(h, body, room);
    if outcome.Completed? {
      go, s := SendOn(h, [], src, s);
      if go {
        outcome, response, s := Flush(h, response, peer, room, src, s);
      } else {
        outcome := Suspended;
      }
    }
    if outcome.WriteFailed? {
      go, s := DropOn(h, src, s);
      if !go { outcome := Suspended; }
    }
    EndToEnd(h.codec, src, h.log);
    PcmBytesPrefix(s.written, Decoded(h.codec, src));
    if h.schedule == [] { assert h.taken + [] == h.taken; }
    if WellProvided(h.codec, src, old(h.schedule), room) {
      EndsWell(h, src, room, outcome, response, s, old(h.schedule));
    }
  }
}
