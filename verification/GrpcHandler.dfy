/** The gRPC task's use of a decoder, in its own shape (src/grpc.rs): sending a message's data,
    collecting what is ready, and the bounded drain. */
module GrpcHandler {
  import opened Prelude
  import opened Decoder
  import opened Session
  import opened Handle
  import opened GrpcDrain

  /** A handle in use: open, with exactly these data chunks sent and no end of input. */
  ghost predicate Using(h: PooledDecoder, data: seq<Bytes>)
    reads h
  {
    h.Valid() && h.d.alive && h.d.sent == data && NoneEmpty(data)
  }

  lemma UsingServes(h: PooledDecoder, data: seq<Bytes>)
    requires Using(h, data)
    ensures Serving(h.codec, h.d, data)
  {
    h.ValidMeansInv();
  }

  /** Sending a message's data. An open decoder that has not been told of the end of its
      input accepts it: the task's recovery from a failed send is never needed. */
  method SendData(h: PooledDecoder, m: Bytes, ghost data: seq<Bytes>) returns (go: bool)
    requires Using(h, data) && m != []
    modifies h
    ensures h.Valid() && (go ==> Using(h, data + [m]))
    ensures SendAt(h.codec, old(h.d), old(h.schedule), m) == if go then Some(Next(h.d, h.schedule)) else None
  {
    UsingServes(h, data);
    var r;
    ghost var turns;
    r, turns := h.Send(m);
    go := !r.SendSuspended?;
    if go { SendKeeps(h.codec, old(h.d), old(h.schedule), m, data); }
    if r.Refused? {
      assert false;
    }
  }

  /** Collecting whatever has been decoded so far. */
  method CollectAvailable(h: PooledDecoder, ghost data: seq<Bytes>) returns (go: bool, chunks: seq<Bytes>)
    requires Using(h, data)
    modifies h
    ensures h.Valid() && (go ==> Using(h, data))
    ensures CollectAt(h.codec, old(h.d), old(h.schedule)) ==
      Collected(chunks, if go then Some(Next(h.d, h.schedule)) else None)
  {
    chunks := [];
    ghost var all := CollectAt(h.codec, h.d, h.schedule);
    while true
      invariant Using(h, data)
      invariant all == CollectAfter(chunks, CollectAt(h.codec, h.d, h.schedule))
      decreases |h.schedule|
    {
      var r;
      ghost var turns;
      r, turns := h.TryRecv();
      match r
      case Received(x) =>
        CollectMore(chunks, x, CollectAt(h.codec, h.d, h.schedule));
        if x.Pcm? { chunks := chunks + [x.audio.data]; }
      case NothingYet =>
        assert chunks + [] == chunks;
        return true, chunks;
      case TrySuspended =>
        assert chunks + [] == chunks;
        return false, chunks;
      case Closed =>
        UsingServes(h, data);
        ServingIsRunning(h.codec, h.d, data, data);
        assert false;
    }
  }

  function CollectAfter(chunks: seq<Bytes>, r: Collected): Collected {
    Collected(chunks + r.chunks, r.next)
  }

  lemma CollectMore(chunks: seq<Bytes>, x: Item, r: Collected)
    ensures CollectAfter(chunks, Collected(Block(x) + r.chunks, r.next)) ==
      CollectAfter(if x.Pcm? then chunks + [x.audio.data] else chunks, r)
  {
    Assoc(chunks, Block(x), r.chunks);
    assert chunks + [] == chunks;
  }

  /** What a drain comes to, with what it has already done. */
  function DrainAfter(chunks: seq<Bytes>, sleeps: nat, polls: nat, r: Drained): Drained {
    r.(chunks := chunks + r.chunks, sleeps := sleeps + r.sleeps, polls := polls + r.polls)
  }

  lemma DrainMore(chunks: seq<Bytes>, sleeps: nat, polls: nat, x: Item, r: Drained)
    ensures DrainAfter(chunks, sleeps, polls, r.(chunks := Block(x) + r.chunks, polls := r.polls + 1)) ==
      DrainAfter(if x.Pcm? then chunks + [x.audio.data] else chunks, sleeps, polls + 1, r)
  {
    Assoc(chunks, Block(x), r.chunks);
    assert chunks + [] == chunks;
  }

  /** The loop's counters, and what is left to do from a poll on. */
  datatype Progress = Progress(chunks: seq<Bytes>, sleeps: nat, polls: nat, tries: nat)

  function Total(g: Progress, c: Codec, d: Dec, turns: seq<Turn>): Drained {
    DrainAfter(g.chunks, g.sleeps, g.polls, DrainAt(c, d, turns, g.tries))
  }

  function Counting(g: Progress, x: Item): Progress {
    g.(polls := g.polls + 1,
       chunks := if x.Pcm? then g.chunks + [x.audio.data] else g.chunks,
       tries := if x.Pcm? then 0 else g.tries)
  }

  lemma TotalTakes(g: Progress, c: Codec, d: Dec, turns: seq<Turn>, n: Next)
    requires NextTurn(c, d, turns) == Some(n) && n.d.output != []
    ensures Total(g, c, d, turns) == Total(Counting(g, n.d.output[0]), c, Take(n.d), n.rest)
  {
    var x := n.d.output[0];
    DrainMore(g.chunks, g.sleeps, g.polls, x, DrainAt(c, Take(n.d), n.rest, Counting(g, x).tries));
  }

  lemma TotalWaits(g: Progress, c: Codec, d: Dec, turns: seq<Turn>, n: Next)
    requires NextTurn(c, d, turns) == Some(n) && n.d.output == [] && !n.d.worker.Exited? && g.tries < MAX_TRIES
    ensures Total(g, c, d, turns) ==
      Total(g.(sleeps := g.sleeps + 1, polls := g.polls + 1, tries := g.tries + 1), c, n.d, n.rest)
  {
    var r := DrainAt(c, n.d, n.rest, g.tries + 1);
    assert DrainAt(c, d, turns, g.tries) == r.(sleeps := r.sleeps + 1, polls := r.polls + 1);
  }

  lemma TotalEnds(g: Progress, r: Drained)
    requires r.chunks == []
    ensures DrainAfter(g.chunks, g.sleeps, g.polls, r) ==
      Drained(g.chunks, r.end, r.next, g.sleeps + r.sleeps, g.polls + r.polls)
  {
    assert g.chunks + [] == g.chunks;
  }

  lemma TotalAfterPoll(g: Progress, c: Codec, d: Dec, turns: seq<Turn>)
    requires g.tries <= MAX_TRIES
    ensures Total(g, c, d, turns) ==
      match NextTurn(c, d, turns)
      case None => Drained(g.chunks, Cut, None, g.sleeps, g.polls)
      case Some(n) =>
        if n.d.output != [] then Total(Counting(g, n.d.output[0]), c, Take(n.d), n.rest)
        else if n.d.worker.Exited? then Drained(g.chunks, Whole, Some(n), g.sleeps, g.polls + 1)
        else if g.tries == MAX_TRIES then Drained(g.chunks, GaveUp, Some(n), g.sleeps, g.polls + 1)
        else Total(g.(sleeps := g.sleeps + 1, polls := g.polls + 1, tries := g.tries + 1), c, n.d, n.rest)
  {
    match NextTurn(c, d, turns)
    case None => TotalEnds(g, Drained([], Cut, None, 0, 0));
    case Some(n) =>
      if n.d.output != [] {
        TotalTakes(g, c, d, turns, n);
      } else if n.d.worker.Exited? {
        TotalEnds(g, Drained([], Whole, Some(n), 0, 1));
      } else if g.tries == MAX_TRIES {
        TotalEnds(g, Drained([], GaveUp, Some(n), 0, 1));
      } else {
        TotalWaits(g, c, d, turns, n);
      }
  }

  /** One poll; `end` when it was the last. */
  method PollOnce(h: PooledDecoder, g: Progress) returns (end: Option<Drained>, g': Progress)
    requires h.Valid() && h.d.alive && g.tries <= MAX_TRIES
    modifies h
    ensures h.Valid() && h.d.alive && |h.schedule| <= |old(h.schedule)|
    ensures match end
      case None =>
        && g'.tries <= MAX_TRIES && |h.schedule| < |old(h.schedule)|
        && Total(g, h.codec, old(h.d), old(h.schedule)) == Total(g', h.codec, h.d, h.schedule)
      case Some(r) =>
        && r == Total(g, h.codec, old(h.d), old(h.schedule))
        && r.next == (if r.end.Cut? then None else Some(Next(h.d, h.schedule)))
        && (r.end.Whole? ==> h.d.worker.Exited?)
  {
    TotalAfterPoll(g, h.codec, h.d, h.schedule);
    var p;
    ghost var turns;
    p, turns := h.TryRecv();
    g' := g;
    match p
    case Received(x) =>
      g', end := Counting(g, x), None;
    case NothingYet =>
      if g.tries == MAX_TRIES {
        end := Some(Drained(g.chunks, GaveUp, Some(Next(h.d, h.schedule)), g.sleeps, g.polls + 1));
      } else {
        g', end := g.(sleeps := g.sleeps + 1, polls := g.polls + 1, tries := g.tries + 1), None;
      }
    case Closed =>
      end := Some(Drained(g.chunks, Whole, Some(Next(h.d, h.schedule)), g.sleeps, g.polls + 1));
    case TrySuspended =>
      end := Some(Drained(g.chunks, Cut, None, g.sleeps, g.polls));
  }

  /** The polling loop of `drain_decoder_sync`. */
  method DrainPolls(h: PooledDecoder) returns (r: Drained)
    requires h.Valid() && h.d.alive
    modifies h
    ensures h.Valid() && h.d.alive && r == DrainAt(h.codec, old(h.d), old(h.schedule), 0)
    ensures r.next == if r.end.Cut? then None else Some(Next(h.d, h.schedule))
    ensures r.end.Whole? ==> h.d.worker.Exited?
  {
    var g := Progress([], 0, 0, 0);
    ghost var all := Total(g, h.codec, h.d, h.schedule);
    assert all == DrainAt(h.codec, h.d, h.schedule, 0);
    while true
      invariant h.Valid() && h.d.alive && g.tries <= MAX_TRIES && all == Total(g, h.codec, h.d, h.schedule)
      decreases |h.schedule|
    {
      var end;
      end, g := PollOnce(h, g);
      if end.Some? { return end.value; }
    }
  }

  /** `drain_decoder_sync`: signals the end of input and collects what comes, giving up when a
      poll finds nothing for the eleventh time since the last audio. */
  method DrainDecoderSync(h: PooledDecoder, ghost data: seq<Bytes>) returns (r: Option<Drained>)
    requires Using(h, data)
    modifies h
    ensures h.Valid() && h.d.alive
    ensures r == match SendAt(h.codec, old(h.d), old(h.schedule), [])
      case None => None
      case Some(ended) => Some(DrainAt(h.codec, ended.d, ended.rest, 0))
    ensures r.Some? ==> DrainsWell(h.codec, old(h.d), 0, data, r.value)
    ensures r.Some? && !r.value.end.Cut? ==> r.value.next == Some(Next(h.d, h.schedule))
    ensures r.Some? && r.value.end.Whole? ==> h.d.worker.Exited?
  {
    UsingServes(h, data);
    var sent;
    ghost var turns;
    sent, turns := h.Send([]);
    if sent.SendSuspended? { return None; }
    SendKeeps(h.codec, old(h.d), old(h.schedule), [], data);
    DrainKeeps(h.codec, h.d, h.schedule, 0, data);
    var drained := DrainPolls(h);
    r := Some(drained);
  }

  /** Draining a decoder for the last time and dropping it, and what that brought. */
  method DrainAndDrop(h: PooledDecoder, ghost data: seq<Bytes>) returns (a: Answer)
    requires Using(h, data)
    modifies h
    ensures a == match SendAt(h.codec, old(h.d), old(h.schedule), [])
      case None => Answer([], Cut)
      case Some(ended) => Finish(h.codec, [], DrainAt(h.codec, ended.d, ended.rest, 0))
    ensures !a.end.Cut? ==> !h.d.alive
  {
    var r := DrainDecoderSync(h, data);
    if r.None? { return Answer([], Cut); }
    var drained := r.value;
    assert [] + drained.chunks == drained.chunks;
    match drained.end
    case Cut => a := Answer([], Cut);
    case Whole =>
      h.DropFinished();
      a := Answer(drained.chunks, Whole);
    case GaveUp =>
      var done;
      ghost var turns;
      done, turns := h.Drop();
      a := if done then Answer(drained.chunks, GaveUp) else Answer([], Cut);
  }
}
