/** One pooled decode job: the bounded input and output channels, the worker that
    runs `process_job`, and the decode pipeline behind it (src/pool.rs).

    Every atomic action is a function on the value `Dec`. The pipeline is abstract:
    which results a chunk produces is a function of the chunks accepted before it,
    and when a produced result becomes visible is up to the scheduler. */
module Decoder {
  import opened Prelude

  const INPUT_CAP: nat := 32
  const OUTPUT_CAP: nat := 32

  /** The pipeline as a stream transducer: the results a chunk adds after the given
      history of accepted chunks, and the results the end of input adds. */
  datatype Codec = Codec(emit: (seq<Bytes>, Bytes) -> seq<Item>, flush: seq<Bytes> -> seq<Item>)

  /** All results owed for the chunks accepted so far. */
  function Emitted(c: Codec, chunks: seq<Bytes>): seq<Item> {
    if chunks == [] then []
    else
      var n := |chunks| - 1;
      Emitted(c, chunks[..n]) + c.emit(chunks[..n], chunks[n])
  }

  /** The decoding of a complete input. */
  function Decode(c: Codec, chunks: seq<Bytes>): seq<Item> {
    Emitted(c, chunks) + c.flush(chunks)
  }

  /** Where the worker stands in `process_job`. `Forward` holds a result that is being
      sent to the output channel, from the last (blocking) loop when `last` is set. */
  datatype Worker =
    | Poll
    | Feed(chunk: Bytes)
    | FeedEof
    | Drain
    | Forward(item: Item, last: bool)
    | Final
    | Exited(clean: bool)

  /** `sent` and `delivered` record what has passed into the input channel and out of
      the output channel; `pass` counts the results pulled from the pipeline since the
      worker last looked at its input. */
  datatype Dec = Dec(
    sent: seq<Bytes>,
    input: seq<Bytes>,
    alive: bool,
    worker: Worker,
    done: bool,
    accepted: seq<Bytes>,
    eof: bool,
    latent: seq<Item>,
    ready: seq<Item>,
    output: seq<Item>,
    delivered: seq<Item>,
    pass: nat)

  const FRESH: Dec := Dec([], [], true, Poll, false, [], false, [], [], [], [], 0)

  /** One action of the worker. `accept` is the pipeline's answer if it is sent something. */
  function WorkerTurn(c: Codec, d: Dec, accept: bool): Dec {
    match d.worker
    case Poll =>
      if d.input != [] then
        var m := d.input[0];
        d.(input := d.input[1..], worker := if m == [] then FeedEof else Feed(m), pass := 0)
      else
        d.(worker := if d.alive then Drain else FeedEof, pass := 0)
    case Feed(m) =>
      if accept then
        d.(accepted := d.accepted + [m], latent := d.latent + c.emit(d.accepted, m), worker := Drain)
      else d
    case FeedEof =>
      if accept then
        d.(eof := true, latent := d.latent + c.flush(d.accepted), done := true, worker := Drain)
      else d.(done := true, worker := Drain)
    case Drain =>
      if d.ready != [] then
        d.(ready := d.ready[1..], worker := Forward(d.ready[0], false), pass := d.pass + 1)
      else d.(worker := if d.done then Final else Poll)
    case Forward(x, last) =>
      if !d.alive then d.(worker := Exited(false))
      else if |d.output| < OUTPUT_CAP then
        d.(output := d.output + [x], worker := if last then Final else Drain)
      else d
    case Final =>
      if d.ready != [] then d.(ready := d.ready[1..], worker := Forward(d.ready[0], true))
      else if d.latent == [] && d.eof then d.(worker := Exited(true))
      else d
    case Exited(_) => d
  }

  /** The pipeline makes its next result visible. */
  function PipeTurn(d: Dec): Dec {
    if d.latent == [] then d
    else d.(ready := d.ready + [d.latent[0]], latent := d.latent[1..])
  }

  predicate HasRoom(d: Dec) {
    !d.worker.Exited? && |d.input| < INPUT_CAP
  }

  /** A completed `PooledDecoder::send`. */
  function Push(d: Dec, m: Bytes): Dec {
    d.(input := d.input + [m], sent := d.sent + [m])
  }

  /** A completed receive from the output channel. */
  function Take(d: Dec): Dec
    requires d.output != []
  {
    d.(output := d.output[1..], delivered := d.delivered + [d.output[0]])
  }

  /** Everything one client and one scheduler can do to a job, in any order. */
  datatype Act = WorkerAct(accept: bool) | PipeAct | PushAct(m: Bytes) | TakeAct | CloseAct

  /** An action that is not possible now changes nothing. A handle closes only after its
      own end-of-input send completed or failed, as `Drop` does. */
  function Apply(c: Codec, d: Dec, a: Act): Dec {
    match a
    case WorkerAct(accept) => WorkerTurn(c, d, accept)
    case PipeAct => PipeTurn(d)
    case PushAct(m) => if d.alive && HasRoom(d) then Push(d, m) else d
    case TakeAct => if d.alive && d.output != [] then Take(d) else d
    case CloseAct => if [] in d.sent || d.worker.Exited? then d.(alive := false) else d
  }

  function ApplyAll(c: Codec, d: Dec, acts: seq<Act>): Dec {
    if acts == [] then d
    else Apply(c, ApplyAll(c, d, acts[..|acts| - 1]), acts[|acts| - 1])
  }

  lemma ApplyAllAppend(c: Codec, d: Dec, acts: seq<Act>, a: Act)
    ensures ApplyAll(c, d, acts + [a]) == Apply(c, ApplyAll(c, d, acts), a)
  {
    assert (acts + [a])[..|acts|] == acts;
  }

  // ---------------------------------------------------------------- the invariant

  /** The chunks before the first empty one: what the empty chunk (end of input) ends. */
  function UpToEof(chunks: seq<Bytes>): seq<Bytes> {
    if chunks == [] || chunks[0] == [] then [] else [chunks[0]] + UpToEof(chunks[1..])
  }

  predicate NoneEmpty(chunks: seq<Bytes>) {
    forall i :: 0 <= i < |chunks| ==> chunks[i] != []
  }

  /** The chunks with data. */
  function NonEmptyOf(chunks: seq<Bytes>): seq<Bytes> {
    if chunks == [] then []
    else
      var last := chunks[|chunks| - 1];
      NonEmptyOf(chunks[..|chunks| - 1]) + if last == [] then [] else [last]
  }

  lemma {:induction false} NonEmptyConcat(a: seq<Bytes>, b: seq<Bytes>)
    ensures NonEmptyOf(a + b) == NonEmptyOf(a) + NonEmptyOf(b)
    decreases |b|
  {
    if b == [] {
      assert a + b == a;
    } else {
      var n := |b| - 1;
      NonEmptyConcat(a, b[..n]);
      SplitLast(a, b);
      assert (a + b)[..|a + b| - 1] == a + b[..n];
      Assoc(NonEmptyOf(a), NonEmptyOf(b[..n]), if b[n] == [] then [] else [b[n]]);
    }
  }

  lemma NonEmptyOne(chunk: Bytes)
    ensures NonEmptyOf([chunk]) == if chunk == [] then [] else [chunk]
  {
    var one := [chunk];
    assert one[..0] == [];
  }

  function Held(d: Dec): seq<Bytes> {
    if d.worker.Feed? then [d.worker.chunk] else []
  }

  function InHand(d: Dec): seq<Item> {
    if d.worker.Forward? then [d.worker.item] else []
  }

  predicate EofTaken(d: Dec) {
    d.worker.FeedEof? || d.done
  }

  /** All results owed for what the pipeline has accepted. */
  function Owed(c: Codec, d: Dec): seq<Item> {
    if d.eof then Decode(c, d.accepted) else Emitted(c, d.accepted)
  }

  /** Nothing sent is lost, duplicated or reordered on the way in. */
  predicate InputConserved(d: Dec) {
    && NoneEmpty(d.accepted)
    && NoneEmpty(Held(d))
    && d.sent == d.accepted + Held(d) + (if EofTaken(d) then [[]] else []) + d.input
  }

  /** Nothing decoded is lost, duplicated or reordered on the way out, except by an abort, which
      loses at least the result in hand. */
  predicate OutputConserved(c: Codec, d: Dec) {
    if d.worker == Exited(false) then d.delivered + d.output < Owed(c, d)
    else d.delivered + d.output + InHand(d) + d.ready + d.latent == Owed(c, d)
  }

  predicate PhasesAgree(d: Dec) {
    && (d.eof ==> d.done)
    && (d.worker.Poll? || d.worker.Feed? || d.worker.FeedEof? ==> !d.done)
    && (d.worker.Final? || (d.worker.Forward? && d.worker.last) ==> d.done)
    && (d.worker == Exited(true) ==> d.eof && d.ready == [] && d.latent == [])
    && (d.worker.Forward? && !d.worker.last ==> d.pass > 0)
    && (d.worker == Exited(false) ==> !d.alive)
    && (!d.alive ==> [] in d.sent || d.worker.Exited?)
  }

  /** A pass pulls only results that are owed and no longer queued in the pipeline. */
  predicate PassAgrees(c: Codec, d: Dec) {
    d.pass + |d.ready| + |d.latent| <= |Owed(c, d)|
  }

  predicate Inv(c: Codec, d: Dec) {
    && |d.input| <= INPUT_CAP
    && |d.output| <= OUTPUT_CAP
    && PhasesAgree(d)
    && InputConserved(d)
    && OutputConserved(c, d)
    && PassAgrees(c, d)
  }

  lemma EmittedAppend(c: Codec, chunks: seq<Bytes>, m: Bytes)
    ensures Emitted(c, chunks + [m]) == Emitted(c, chunks) + c.emit(chunks, m)
  {
    assert (chunks + [m])[..|chunks|] == chunks;
  }

  /** With a handle that closes only after its end-of-input send, the worker never finds
      its input channel empty and disconnected: that branch of `process_job` is dead. */
  lemma NeverDisconnected(c: Codec, d: Dec)
    requires Inv(c, d) && d.worker.Poll?
    ensures d.input == [] ==> d.alive
  {
    if d.input == [] {
      assert d.sent == d.accepted;
    }
  }

  lemma PollKeepsInput(c: Codec, d: Dec, accept: bool)
    requires Inv(c, d) && d.worker.Poll?
    ensures InputConserved(WorkerTurn(c, d, accept))
  {
    NeverDisconnected(c, d);
    if d.input != [] {
      MoveOne(d.accepted, d.input);
      assert d.accepted + [] == d.accepted;
      assert d.accepted + [d.input[0]] + [] == d.accepted + [d.input[0]];
    }
  }

  lemma WorkerKeepsInput(c: Codec, d: Dec, accept: bool)
    requires Inv(c, d)
    ensures InputConserved(WorkerTurn(c, d, accept))
  {
    if d.worker.Poll? {
      PollKeepsInput(c, d, accept);
    }
  }

  /** Moving a result one stage onwards changes nothing in the concatenation. */
  lemma MoveHead<T>(before: seq<T>, from: seq<T>, after: seq<T>)
    requires from != []
    ensures before + from + after == before + [from[0]] + from[1..] + after
    ensures before + from + after == (before + [from[0]]) + from[1..] + after
  {
    assert from == [from[0]] + from[1..];
  }

  lemma FeedKeepsOutput(c: Codec, d: Dec)
    requires Inv(c, d) && (d.worker.Feed? || d.worker.FeedEof?)
    ensures OutputConserved(c, WorkerTurn(c, d, true))
  {
    var added := if d.worker.Feed? then c.emit(d.accepted, d.worker.chunk) else c.flush(d.accepted);
    if d.worker.Feed? { EmittedAppend(c, d.accepted, d.worker.chunk); }
    Assoc(d.delivered + d.output + [] + d.ready, d.latent, added);
  }

  lemma PullKeepsOutput(c: Codec, d: Dec)
    requires Inv(c, d) && (d.worker.Drain? || d.worker.Final?) && d.ready != []
    ensures OutputConserved(c, WorkerTurn(c, d, true))
  {
    var passed := d.delivered + d.output;
    MoveHead(passed, d.ready, d.latent);
    assert passed + [] == passed;
  }

  lemma ForwardKeepsOutput(c: Codec, d: Dec)
    requires Inv(c, d) && d.worker.Forward?
    ensures OutputConserved(c, WorkerTurn(c, d, true))
  {
    var x, passed := d.worker.item, d.delivered + d.output;
    if !d.alive {
      PrefixOfSum(passed + [x] + d.ready, d.latent, Owed(c, d));
      PrefixOfSum(passed + [x], d.ready, Owed(c, d));
      PrefixOfSum(passed, [x], Owed(c, d));
    } else if |d.output| < OUTPUT_CAP {
      Assoc(d.delivered, d.output, [x]);
      assert passed + [x] + [] == passed + [x];
    }
  }

  lemma WorkerKeepsOutput(c: Codec, d: Dec, accept: bool)
    requires Inv(c, d)
    ensures OutputConserved(c, WorkerTurn(c, d, accept))
  {
    match d.worker
    case Feed(_) => if accept { FeedKeepsOutput(c, d); }
    case FeedEof => if accept { FeedKeepsOutput(c, d); }
    case Drain => if d.ready != [] { PullKeepsOutput(c, d); }
    case Final => if d.ready != [] { PullKeepsOutput(c, d); }
    case Forward(_, _) => ForwardKeepsOutput(c, d);
    case Poll =>
    case Exited(_) =>
  }

  lemma WorkerKeepsPhases(c: Codec, d: Dec, accept: bool)
    requires PhasesAgree(d) && |d.input| <= INPUT_CAP && |d.output| <= OUTPUT_CAP
    requires d.worker.Poll? && d.input == [] ==> d.alive
    ensures var d' := WorkerTurn(c, d, accept);
      PhasesAgree(d') && |d'.input| <= INPUT_CAP && |d'.output| <= OUTPUT_CAP
  {
  }

  lemma WorkerKeepsPass(c: Codec, d: Dec, accept: bool)
    requires PassAgrees(c, d) && PhasesAgree(d)
    ensures PassAgrees(c, WorkerTurn(c, d, accept))
  {
    if d.worker.Feed? { EmittedAppend(c, d.accepted, d.worker.chunk); }
  }

  lemma WorkerKeepsInv(c: Codec, d: Dec, accept: bool)
    requires Inv(c, d)
    ensures Inv(c, WorkerTurn(c, d, accept))
  {
    WorkerKeepsInput(c, d, accept);
    WorkerKeepsOutput(c, d, accept);
    if d.worker.Poll? { NeverDisconnected(c, d); }
    WorkerKeepsPhases(c, d, accept);
    WorkerKeepsPass(c, d, accept);
  }

  lemma PipeKeepsInv(c: Codec, d: Dec)
    requires Inv(c, d)
    ensures Inv(c, PipeTurn(d))
  {
    if d.latent != [] {
      var before := d.delivered + d.output + InHand(d);
      MoveOne(before + d.ready, d.latent);
      assert before + (d.ready + [d.latent[0]]) == (before + d.ready) + [d.latent[0]];
    }
  }

  lemma PushKeepsInv(c: Codec, d: Dec, m: Bytes)
    requires Inv(c, d) && HasRoom(d)
    ensures Inv(c, Push(d, m))
  {
    var d' := Push(d, m);
    assert d'.sent == d'.accepted + Held(d') + (if EofTaken(d') then [[]] else []) + d'.input;
    assert forall x :: x in d.sent ==> x in d'.sent;
  }

  lemma TakeKeepsInv(c: Codec, d: Dec)
    requires Inv(c, d) && d.output != []
    ensures Inv(c, Take(d))
  {
    MoveOne(d.delivered, d.output);
  }

  lemma CloseKeepsInv(c: Codec, d: Dec)
    requires Inv(c, d) && ([] in d.sent || d.worker.Exited?)
    ensures Inv(c, d.(alive := false))
  {
    assert Owed(c, d.(alive := false)) == Owed(c, d);
  }

  /** The invariant holds after any actions of any client and any scheduler. */
  lemma {:induction false} AlwaysInv(c: Codec, acts: seq<Act>)
    ensures Inv(c, ApplyAll(c, FRESH, acts))
  {
    if acts == [] {
      assert Emitted(c, []) == [];
    } else {
      var n := |acts| - 1;
      var d := ApplyAll(c, FRESH, acts[..n]);
      AlwaysInv(c, acts[..n]);
      match acts[n]
      case WorkerAct(accept) => WorkerKeepsInv(c, d, accept);
      case PipeAct => PipeKeepsInv(c, d);
      case PushAct(m) => if d.alive && HasRoom(d) { PushKeepsInv(c, d, m); }
      case TakeAct => if d.alive && d.output != [] { TakeKeepsInv(c, d); }
      case CloseAct => if [] in d.sent || d.worker.Exited? { CloseKeepsInv(c, d); }
    }
  }

  // ---------------------------------------------------------------- consequences

  lemma {:induction false} UpToEofConcat(a: seq<Bytes>, b: seq<Bytes>)
    requires NoneEmpty(a)
    ensures UpToEof(a + b) == a + UpToEof(b)
  {
    if a == [] {
      assert a + b == b;
    } else {
      assert (a + b)[1..] == a[1..] + b;
      UpToEofConcat(a[1..], b);
    }
  }

  lemma {:induction false} EmittedPrefix(c: Codec, a: seq<Bytes>, b: seq<Bytes>)
    requires a <= b
    ensures Emitted(c, a) <= Emitted(c, b)
    decreases |b|
  {
    if |a| < |b| {
      EmittedPrefix(c, a, b[..|b| - 1]);
    } else {
      assert a == b;
    }
  }

  /** What the pipeline accepted is a prefix of the chunks sent before the first empty
      one, and all of them once the worker has taken that empty chunk. */
  lemma AcceptedIsPrefix(c: Codec, d: Dec)
    requires Inv(c, d)
    ensures d.accepted + Held(d) <= UpToEof(d.sent)
    ensures EofTaken(d) ==> d.accepted == UpToEof(d.sent)
  {
    var mark := if EofTaken(d) then [[]] else [];
    Assoc(d.accepted + Held(d), mark, d.input);
    UpToEofConcat(d.accepted + Held(d), mark + d.input);
  }

  lemma DeliveredIsOwed(c: Codec, d: Dec)
    requires Inv(c, d)
    ensures d.delivered <= Owed(c, d)
  {
    var passed := d.delivered + d.output;
    if d.worker != Exited(false) {
      PrefixOfSum(passed + InHand(d) + d.ready, d.latent, Owed(c, d));
      PrefixOfSum(passed + InHand(d), d.ready, Owed(c, d));
      PrefixOfSum(passed, InHand(d), Owed(c, d));
    }
    PrefixOfSum(d.delivered, d.output, Owed(c, d));
  }

  /** What a client has received is always a prefix of the decoding of what it sent. */
  lemma DeliveredIsPrefix(c: Codec, d: Dec)
    requires Inv(c, d)
    ensures d.delivered <= Decode(c, UpToEof(d.sent))
  {
    AcceptedIsPrefix(c, d);
    EmittedPrefix(c, d.accepted, UpToEof(d.sent));
    DeliveredIsOwed(c, d);
    assert Owed(c, d) <= Decode(c, UpToEof(d.sent));
  }

  /** A client that sees the output channel closed while its handle was open has received
      the whole decoding of what it sent before the first empty chunk. */
  lemma ClosedMeansComplete(c: Codec, d: Dec)
    requires Inv(c, d) && d.alive && d.worker.Exited? && d.output == []
    ensures d.delivered == Decode(c, UpToEof(d.sent))
    ensures [] in d.sent
  {
    AcceptedIsPrefix(c, d);
    assert d.delivered == Owed(c, d);
    assert d.sent[|d.accepted|] == [];
  }

  lemma EofTakenWasSent(c: Codec, d: Dec)
    requires Inv(c, d)
    ensures EofTaken(d) ==> [] in d.sent
  {
    if EofTaken(d) {
      assert d.sent[|d.accepted|] == [];
    }
  }

  /** An open handle's worker has not exited unless an empty chunk was sent, so a send of
      data on a handle that has not signalled the end of input never fails. */
  lemma DataSendsNeverFail(c: Codec, d: Dec)
    requires Inv(c, d) && d.alive && [] !in d.sent
    ensures !d.worker.Exited? && !EofTaken(d)
  {
    EofTakenWasSent(c, d);
  }

  lemma EndStaysEnded(c: Codec, d: Dec, a: Act)
    requires PhasesAgree(d) && d.done
    ensures var d' := Apply(c, d, a); d'.done && d'.accepted == d.accepted && d'.eof == d.eof
  {
  }

  /** Once the worker has passed on the end of input, whether the pipeline took it or not, it
      never gives the pipeline anything again. */
  lemma {:induction false} NothingAfterEof(c: Codec, acts: seq<Act>, more: seq<Act>)
    requires ApplyAll(c, FRESH, acts).done
    ensures var d, d' := ApplyAll(c, FRESH, acts), ApplyAll(c, FRESH, acts + more);
      d'.done && d'.accepted == d.accepted && d'.eof == d.eof
    decreases |more|
  {
    if more == [] {
      assert acts + more == acts;
    } else {
      var n := |more| - 1;
      NothingAfterEof(c, acts, more[..n]);
      SplitLast(acts, more);
      ApplyAllAppend(c, FRESH, acts + more[..n], more[n]);
      AlwaysInv(c, acts + more[..n]);
      EndStaysEnded(c, ApplyAll(c, FRESH, acts + more[..n]), more[n]);
    }
  }

  /** Summary for any client: what it received is a prefix of the decoding of what it sent,
      the pipeline saw a prefix of that input and at most one end of input, nothing is fed
      to the pipeline after the end, and a clean exit means everything was forwarded. */
  lemma AnyClientIsServedInOrder(c: Codec, acts: seq<Act>)
    ensures var d := ApplyAll(c, FRESH, acts);
      && d.delivered <= Decode(c, UpToEof(d.sent))
      && d.accepted <= UpToEof(d.sent)
      && |d.input| <= 32 && |d.output| <= 32
      && (d.eof ==> d.accepted == UpToEof(d.sent))
      && (d.worker == Exited(true) ==> d.delivered + d.output == Decode(c, UpToEof(d.sent)))
  {
    var d := ApplyAll(c, FRESH, acts);
    AlwaysInv(c, acts);
    DeliveredIsPrefix(c, d);
    AcceptedIsPrefix(c, d);
    assert d.accepted <= d.accepted + Held(d);
    if d.worker == Exited(true) {
      assert d.delivered + d.output + [] + [] + [] == Owed(c, d);
    }
  }
}
