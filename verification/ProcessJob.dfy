/** The worker's loop, `process_job` (src/pool.rs), in its own shape: every operation on a
    channel or on the pipeline is preceded by whatever the client, the scheduler and the
    pipeline do meanwhile. */
module ProcessJob {
  import opened Prelude
  import opened Decoder

  datatype TryInput = Received(chunk: Bytes) | Empty | Disconnected

  /** The worker's view of its job. `plan` lists what happens, of which `schedule` is still to
      come; the log is what has happened. The worker acts only when its turn comes. */
  class Job {
    const codec: Codec
    var d: Dec
    var schedule: seq<Act>
    ghost const plan: seq<Act>
    ghost var log: seq<Act>

    /** Between two turns of the worker. */
    ghost predicate Valid()
      reads this
    {
      d == ApplyAll(codec, FRESH, log) && plan == log + schedule
    }

    /** The worker's turn has come. */
    ghost predicate Called(accept: bool)
      reads this
    {
      d == ApplyAll(codec, FRESH, log) && plan == log + [WorkerAct(accept)] + schedule
    }

    constructor (codec: Codec, schedule: seq<Act>)
      ensures Valid() && this.codec == codec && this.schedule == schedule == plan
      ensures d == FRESH && log == []
    {
      this.codec, this.schedule, this.d, this.log, plan := codec, schedule, FRESH, [], schedule;
      new;
      assert [] + schedule == schedule;
    }

    /** At every moment of the loop, and however it ends, the client has received a prefix of
        the decoding of what it sent. */
    lemma ServedInOrder()
      requires Valid()
      ensures d.delivered <= Decode(codec, UpToEof(d.sent)) && d.accepted <= UpToEof(d.sent)
    {
      AnyClientIsServedInOrder(codec, log);
    }

    /** Lets everyone else act until the worker's next turn; fails if there is none. */
    method Await() returns (go: bool, accept: bool)
      requires Valid()
      modifies this
      ensures OthersActed(old(d), d)
      ensures if go then Called(accept) && |schedule| < |old(schedule)| else Valid() && schedule == []
    {
      while schedule != [] && !schedule[0].WorkerAct?
        invariant Valid() && OthersActed(old(d), d) && |schedule| <= |old(schedule)|
        decreases |schedule|
      {
        LetOneAct(old(d));
      }
      go := schedule != [];
      accept := go && schedule[0].accept;
      if go {
        MoveOne(log, schedule);
        schedule := schedule[1..];
      }
    }

    /** One action of someone else. */
    method LetOneAct(ghost d0: Dec)
      requires Valid() && OthersActed(d0, d) && schedule != [] && !schedule[0].WorkerAct?
      modifies this
      ensures Valid() && OthersActed(d0, d) && |schedule| < |old(schedule)|
    {
      var a := schedule[0];
      OthersAct(codec, d, a);
      ApplyAllAppend(codec, FRESH, log, a);
      OthersActedTransitive(d0, d, Apply(codec, d, a));
      MoveOne(log, schedule);
      d, log, schedule := Apply(codec, d, a), log + [a], schedule[1..];
    }

    /** The worker's own action. */
    method Act(accept: bool)
      requires Called(accept)
      modifies this`d, this`log
      ensures Valid() && d == WorkerTurn(codec, old(d), accept)
    {
      ApplyAllAppend(codec, FRESH, log, WorkerAct(accept));
      d, log := WorkerTurn(codec, d, accept), log + [WorkerAct(accept)];
    }

    method TryRecvInput(accept: bool) returns (r: TryInput)
      requires Called(accept) && d.worker.Poll?
      modifies this`d, this`log
      ensures Valid() && d == WorkerTurn(codec, old(d), accept)
      ensures r == if old(d).input != [] then Received(old(d).input[0])
                   else if old(d).alive then Empty else Disconnected
    {
      r := if d.input != [] then Received(d.input[0]) else if d.alive then Empty else Disconnected;
      Act(accept);
    }

    /** `output_tx.send`: waits for room; fails if the receiver has been dropped. */
    method SendOutput() returns (go: bool, sent: bool)
      requires Valid() && d.worker.Forward?
      modifies this
      ensures Valid() && |schedule| <= |old(schedule)|
      ensures d.done == old(d).done && d.accepted == old(d).accepted
      ensures !go ==> schedule == [] && OthersActed(old(d), d)
      ensures go && sent ==>
        && d.worker == (if old(d).worker.last then Final else Drain)
        && d.delivered + d.output == old(d).delivered + old(d).output + [old(d).worker.item]
      ensures go && !sent ==> d.worker == Exited(false)
    {
      go, sent := true, false;
      while true
        invariant Valid() && OthersActed(old(d), d) && |schedule| <= |old(schedule)|
        decreases |schedule|
      {
        var accept;
        go, accept := Await();
        if !go { return; }
        ghost var was := d;
        var room, open := |d.output| < OUTPUT_CAP, d.alive;
        Act(accept);
        if !open {
          return true, false;
        } else if room {
          Assoc(was.delivered, was.output, [was.worker.item]);
          return true, true;
        }
      }
    }

    /** `pipeline.recv`: waits for a result; `None` once the pipeline has finished. */
    method RecvPipeline() returns (go: bool, r: Option<Item>)
      requires Valid() && d.worker.Final?
      modifies this
      ensures Valid() && |schedule| <= |old(schedule)| && (go ==> |schedule| < |old(schedule)|)
      ensures d.done == old(d).done && d.accepted == old(d).accepted
      ensures d.delivered + d.output == old(d).delivered + old(d).output
      ensures !go ==> schedule == [] && d.worker.Final?
      ensures go ==> d.worker == if r.Some? then Forward(r.value, true) else Exited(true)
    {
      go, r := true, None;
      while true
        invariant Valid() && OthersActed(old(d), d)
        invariant |schedule| <= |old(schedule)|
        decreases |schedule|
      {
        var accept;
        go, accept := Await();
        if !go { return; }
        Act(accept);
        if d.worker.Forward? {
          return true, Some(d.worker.item);
        } else if d.worker.Exited? {
          return true, None;
        }
      }
    }
  }

  /** What clients and the pipeline can change, seen from the worker. */
  predicate OthersActed(d: Dec, d': Dec) {
    && d'.worker == d.worker && d'.done == d.done && d'.accepted == d.accepted
    && d'.delivered + d'.output == d.delivered + d.output
  }

  lemma OthersAct(c: Codec, d: Dec, a: Act)
    requires !a.WorkerAct?
    ensures OthersActed(d, Apply(c, d, a))
  {
    if a.TakeAct? && d.output != [] { MoveOne(d.delivered, d.output); }
  }

  lemma OthersActedTransitive(d: Dec, d1: Dec, d2: Dec)
    requires OthersActed(d, d1) && OthersActed(d1, d2)
    ensures OthersActed(d, d2)
  {
  }

  /** The counters `process_job` keeps for its log line. */
  datatype Metrics = Metrics(inputBytes: nat, outputBytes: nat, rate: u32, channels: byte) {
    /** Counting one result: only audio counts. */
    function Counting(x: Item): Metrics {
      if x.Fault? then this
      else this.(outputBytes := outputBytes + |x.audio.data|, rate := x.audio.rate, channels := x.audio.channels)
    }
  }

  const NO_METRICS: Metrics := Metrics(0, 0, 0, 0)

  /** What the counters say about a run of results: the bytes of all its audio, and the
      format of the last. */
  predicate MetricsOf(m: Metrics, results: seq<Item>) {
    var audios := Audios(results);
    && m.outputBytes == |PcmBytes(audios)|
    && (if audios == [] then m.rate == 0 && m.channels == 0
        else m.rate == audios[|audios| - 1].rate && m.channels == audios[|audios| - 1].channels)
  }

  lemma CountingIsRight(m: Metrics, results: seq<Item>, x: Item)
    requires MetricsOf(m, results)
    ensures MetricsOf(m.Counting(x), results + [x])
  {
    AudiosAppend(results, x);
    if x.Pcm? {
      PcmBytesAppend(Audios(results), x.audio);
    } else {
      assert Audios(results + [x]) == Audios(results);
    }
  }

  /** Every result pulled from the pipeline so far. */
  function Pulled(d: Dec): seq<Item> {
    d.delivered + d.output + InHand(d)
  }

  predicate Counted(m: Metrics, d: Dec) {
    m.inputBytes == |Flatten(d.accepted + Held(d))| && MetricsOf(m, Pulled(d))
  }

  datatype Outcome = Suspended | Aborted | Completed

  /** Others change neither what the worker took nor what it pulled. */
  lemma OthersKeepCounts(m: Metrics, d: Dec, d': Dec)
    requires Counted(m, d) && OthersActed(d, d')
    ensures Counted(m, d')
  {
  }

  lemma NotDoneWhilePolling(c: Codec, log: seq<Act>)
    ensures var d := ApplyAll(c, FRESH, log); d.worker.Poll? ==> !d.done
  {
    AlwaysInv(c, log);
  }

  /** Passing a data chunk to the pipeline, again and again until it is accepted. */
  method SendChunk(job: Job, m: Metrics) returns (go: bool)
    requires job.Valid() && job.d.worker.Feed? && !job.d.done && Counted(m, job.d)
    modifies job
    ensures job.Valid() && |job.schedule| <= |old(job.schedule)| && Counted(m, job.d) && !job.d.done
    ensures go ==> job.d.worker.Drain?
    ensures !go ==> job.schedule == [] && job.d.worker.Feed?
  {
    while true
      invariant job.Valid() && job.d.worker.Feed? && !job.d.done && Counted(m, job.d)
      invariant |job.schedule| <= |old(job.schedule)|
      decreases |job.schedule|
    {
      ghost var was := job.d;
      var accept;
      go, accept := job.Await();
      OthersKeepCounts(m, was, job.d);
      if !go { return; }
      assert job.d.accepted + Held(job.d) + [] == job.d.accepted + Held(job.d);
      job.Act(accept);
      if accept { return true; }
    }
  }

  /** Passing the end of input to the pipeline, once. */
  method SendEof(job: Job, m: Metrics) returns (go: bool)
    requires job.Valid() && job.d.worker.FeedEof? && Counted(m, job.d)
    modifies job
    ensures job.Valid() && |job.schedule| <= |old(job.schedule)| && Counted(m, job.d)
    ensures go ==> job.d.worker.Drain? && job.d.done
    ensures !go ==> job.schedule == [] && job.d.worker.FeedEof?
  {
    ghost var was := job.d;
    var accept;
    go, accept := job.Await();
    OthersKeepCounts(m, was, job.d);
    if go { job.Act(accept); }
  }

  /** The counters once a chunk has been taken from the input. */
  function Took(m: Metrics, r: TryInput): Metrics {
    if r.Received? then m.(inputBytes := m.inputBytes + |r.chunk|) else m
  }

  lemma TakingCounts(c: Codec, d: Dec, accept: bool, m: Metrics, r: TryInput)
    requires Counted(m, d) && d.worker.Poll?
    requires if r.Received? then d.input != [] && r.chunk == d.input[0] else d.input == []
    ensures Counted(Took(m, r), WorkerTurn(c, d, accept))
  {
    var d' := WorkerTurn(c, d, accept);
    assert d.accepted + [] == d.accepted;
    if r.Received? && r.chunk != [] {
      FlattenAppend(d.accepted, r.chunk);
      assert d'.accepted + Held(d') == d.accepted + [r.chunk];
    } else {
      assert d'.accepted + Held(d') == d.accepted;
    }
  }

  /** What the worker does next. */
  function AfterLook(r: TryInput): Worker {
    match r
    case Empty => Drain
    case Disconnected => FeedEof
    case Received(chunk) => if chunk == [] then FeedEof else Feed(chunk)
  }

  /** One look at the input. */
  method LookForInput(job: Job, m0: Metrics) returns (go: bool, r: TryInput, m: Metrics)
    requires job.Valid() && job.d.worker.Poll? && Counted(m0, job.d)
    modifies job
    ensures job.Valid() && Counted(m, job.d) && m == Took(m0, r)
    ensures if go then |job.schedule| < |old(job.schedule)| && !job.d.done
            else job.schedule == [] && job.d.worker.Poll?
    ensures go ==> job.d.worker == AfterLook(r)
  {
    ghost var was := job.d;
    var accept;
    go, accept := job.Await();
    OthersKeepCounts(m0, was, job.d);
    r := Empty;
    if go {
      NotDoneWhilePolling(job.codec, job.log);
      was := job.d;
      r := job.TryRecvInput(accept);
      TakingCounts(job.codec, was, accept, m0, r);
    }
    m := Took(m0, r);
  }

  /** First part of an iteration: look for input and pass it on. */
  method ReadInput(job: Job, m0: Metrics) returns (go: bool, inputDone: bool, m: Metrics)
    requires job.Valid() && job.d.worker.Poll? && Counted(m0, job.d)
    modifies job
    ensures job.Valid() && |job.schedule| <= |old(job.schedule)| && (go ==> |job.schedule| < |old(job.schedule)|)
    ensures Counted(m, job.d)
    ensures go ==> job.d.worker.Drain? && job.d.done == inputDone
    ensures !go ==> job.schedule == [] && !job.d.worker.Exited?
  {
    var r;
    go, r, m := LookForInput(job, m0);
    inputDone := r.Disconnected? || r == Received([]);
    if !go { return; }
    match r
    case Empty =>
    case Disconnected =>
      go := SendEof(job, m);
    case Received(chunk) =>
      if chunk == [] {
        go := SendEof(job, m);
      } else {
        go := SendChunk(job, m);
      }
  }

  /** Counting a result and sending it on; both drain loops do this. */
  method Forwarding(job: Job, m0: Metrics) returns (outcome: Outcome, m: Metrics)
    requires job.Valid() && job.d.worker.Forward?
    requires Counted(m0, job.d.(worker := Drain))
    modifies job
    ensures job.Valid() && |job.schedule| <= |old(job.schedule)|
    ensures job.d.done == old(job.d).done
    ensures !outcome.Aborted? ==> Counted(m, job.d)
    ensures outcome.Suspended? ==> job.schedule == [] && job.d.worker.Forward?
    ensures outcome.Aborted? ==> job.d.worker == Exited(false) && !job.d.alive
    ensures outcome.Completed? ==> job.d.worker == if old(job.d).worker.last then Final else Drain
  {
    m := m0.Counting(job.d.worker.item);
    assert job.d.delivered + job.d.output + [] == job.d.delivered + job.d.output;
    CountingIsRight(m0, job.d.delivered + job.d.output, job.d.worker.item);
    var go, sent := job.SendOutput();
    AlwaysInv(job.codec, job.log);
    assert job.d.delivered + job.d.output + [] == job.d.delivered + job.d.output;
    outcome := if !go then Suspended else if sent then Completed else Aborted;
  }

  lemma PullingCounts(c: Codec, d: Dec, accept: bool, m: Metrics)
    requires Counted(m, d) && d.worker.Drain?
    ensures var d' := WorkerTurn(c, d, accept);
      && d'.done == d.done
      && (if d'.worker.Forward? then !d'.worker.last && Counted(m, d'.(worker := Drain))
          else Counted(m, d') && d'.worker == if d.done then Final else Poll)
  {
  }

  /** One look at what the pipeline has ready. */
  method PullReady(job: Job, m: Metrics) returns (go: bool, more: bool)
    requires job.Valid() && job.d.worker.Drain? && Counted(m, job.d)
    modifies job
    ensures job.Valid() && |job.schedule| <= |old(job.schedule)| && job.d.done == old(job.d).done
    ensures !go ==> job.schedule == [] && job.d.worker.Drain? && Counted(m, job.d)
    ensures go && more ==>
      |job.schedule| < |old(job.schedule)| && job.d.worker.Forward? && !job.d.worker.last
      && Counted(m, job.d.(worker := Drain))
    ensures go && !more ==> Counted(m, job.d) && job.d.worker == if job.d.done then Final else Poll
  {
    ghost var was := job.d;
    var accept;
    go, accept := job.Await();
    OthersKeepCounts(m, was, job.d);
    more := false;
    if go {
      PullingCounts(job.codec, job.d, accept, m);
      job.Act(accept);
      more := job.d.worker.Forward?;
    }
  }

  /** Second part of an iteration: forward whatever the pipeline has ready. */
  method DrainAvailable(job: Job, m0: Metrics) returns (outcome: Outcome, m: Metrics)
    requires job.Valid() && job.d.worker.Drain? && Counted(m0, job.d)
    modifies job
    ensures job.Valid() && |job.schedule| <= |old(job.schedule)|
    ensures outcome.Suspended? ==> job.schedule == [] && !job.d.worker.Exited? && Counted(m, job.d)
    ensures outcome.Aborted? ==> job.d.worker == Exited(false) && !job.d.alive
    ensures outcome.Completed? ==> Counted(m, job.d) && job.d.worker == if old(job.d).done then Final else Poll
  {
    m, outcome := m0, Completed;
    while true
      invariant job.Valid() && job.d.worker.Drain? && Counted(m, job.d)
      invariant |job.schedule| <= |old(job.schedule)| && job.d.done == old(job.d).done
      decreases |job.schedule|
    {
      var go, more := PullReady(job, m);
      if !go { return Suspended, m; }
      if !more { return Completed, m; }
      outcome, m := Forwarding(job, m);
      if !outcome.Completed? { return; }
    }
  }

  /** After the end of input: forward results until the pipeline has finished. */
  method DrainRest(job: Job, m0: Metrics) returns (outcome: Outcome, m: Metrics)
    requires job.Valid() && job.d.worker.Final? && Counted(m0, job.d)
    modifies job
    ensures job.Valid()
    ensures outcome.Suspended? ==> job.schedule == [] && !job.d.worker.Exited? && Counted(m, job.d)
    ensures outcome.Aborted? ==> job.d.worker == Exited(false) && !job.d.alive
    ensures outcome.Completed? ==> Counted(m, job.d) && job.d.worker == Exited(true)
  {
    m, outcome := m0, Completed;
    while true
      invariant job.Valid() && job.d.worker.Final? && Counted(m, job.d)
      invariant |job.schedule| <= |old(job.schedule)|
      decreases |job.schedule|
    {
      var go, r := job.RecvPipeline();
      if !go { return Suspended, m; }
      if r.None? { return Completed, m; }
      outcome, m := Forwarding(job, m);
      if !outcome.Completed? { return; }
    }
  }

  lemma CompletedCounts(c: Codec, d: Dec, m: Metrics)
    requires Inv(c, d) && d.worker == Exited(true) && Counted(m, d)
    ensures d.delivered + d.output == Decode(c, UpToEof(d.sent))
    ensures m.inputBytes == |Flatten(UpToEof(d.sent))|
    ensures MetricsOf(m, Decode(c, UpToEof(d.sent)))
  {
    AcceptedIsPrefix(c, d);
    assert d.accepted + [] == d.accepted;
    assert d.delivered + d.output + [] + [] + [] == d.delivered + d.output + [] == d.delivered + d.output;
  }

  /** How the loop ends, told from where the job's actions leave the worker. */
  function OutcomeOf(d: Dec): Outcome {
    match d.worker
    case Exited(clean) => if clean then Completed else Aborted
    case _ => Suspended
  }

  lemma ExitKept(c: Codec, d: Dec, a: Act)
    requires d.worker.Exited?
    ensures Apply(c, d, a).worker == d.worker
  {
  }

  lemma {:induction false} ExitStays(c: Codec, acts: seq<Act>, more: seq<Act>)
    requires ApplyAll(c, FRESH, acts).worker.Exited?
    ensures ApplyAll(c, FRESH, acts + more).worker == ApplyAll(c, FRESH, acts).worker
    decreases |more|
  {
    if more == [] {
      assert acts + more == acts;
    } else {
      var n := |more| - 1;
      ExitStays(c, acts, more[..n]);
      SplitLast(acts, more);
      ApplyAllAppend(c, FRESH, acts + more[..n], more[n]);
      ExitKept(c, ApplyAll(c, FRESH, acts + more[..n]), more[n]);
    }
  }

  /** The job's actions decide how its loop ends. */
  lemma EndIsPlanned(job: Job)
    requires job.Valid() && (job.d.worker.Exited? || job.schedule == [])
    ensures OutcomeOf(ApplyAll(job.codec, FRESH, job.plan)) == OutcomeOf(job.d)
  {
    if job.d.worker.Exited? {
      ExitStays(job.codec, job.log, job.schedule);
    } else {
      assert job.log + [] == job.log;
    }
  }

  /** The loop of `process_job`. */
  method Loop(job: Job) returns (outcome: Outcome, m: Metrics)
    requires job.Valid() && job.d == FRESH
    modifies job
    ensures job.Valid()
    ensures outcome.Suspended? ==> job.schedule == [] && !job.d.worker.Exited? && Counted(m, job.d)
    ensures outcome.Aborted? ==> job.d.worker == Exited(false) && !job.d.alive
    ensures outcome.Completed? ==>
      && job.d.worker == Exited(true)
      && job.d.delivered + job.d.output == Decode(job.codec, UpToEof(job.d.sent))
      && m.inputBytes == |Flatten(UpToEof(job.d.sent))|
      && MetricsOf(m, Decode(job.codec, UpToEof(job.d.sent)))
  {
    m := NO_METRICS;
    while true
      invariant job.Valid() && job.d.worker.Poll? && Counted(m, job.d)
      decreases |job.schedule|
    {
      var go, inputDone;
      go, inputDone, m := ReadInput(job, m);
      if !go { return Suspended, m; }
      outcome, m := DrainAvailable(job, m);
      if !outcome.Completed? { return; }
      if inputDone {
        outcome, m := DrainRest(job, m);
        if outcome.Completed? {
          AlwaysInv(job.codec, job.log);
          CompletedCounts(job.codec, job.d, m);
        }
        return;
      }
    }
  }

  /** `process_job`. Whatever the client, the scheduler and the pipeline do, the metrics say
      exactly what was taken in and given out; if it completes, the whole decoding of what
      was sent up to the end of input has been forwarded, in order. It ends as the actions
      leave the worker, and stops before only when there are no more actions. */
  method Run(job: Job) returns (outcome: Outcome, m: Metrics)
    requires job.Valid() && job.d == FRESH
    modifies job
    ensures job.Valid() && outcome == OutcomeOf(ApplyAll(job.codec, FRESH, job.plan))
    ensures outcome.Suspended? ==> job.schedule == [] && !job.d.worker.Exited? && Counted(m, job.d)
    ensures outcome.Aborted? ==> job.d.worker == Exited(false) && !job.d.alive
    ensures outcome.Completed? ==>
      && job.d.worker == Exited(true)
      && job.d.delivered + job.d.output == Decode(job.codec, UpToEof(job.d.sent))
      && m.inputBytes == |Flatten(UpToEof(job.d.sent))|
      && MetricsOf(m, Decode(job.codec, UpToEof(job.d.sent)))
  {
    outcome, m := Loop(job);
    EndIsPlanned(job);
  }
}
