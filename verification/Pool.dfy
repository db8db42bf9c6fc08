/** The decoder pool: a bounded job queue whose single receiver the workers share under a
    lock (src/pool.rs). Jobs are numbered in the order in which they were accepted. */
module Pool {
  import opened Prelude

  /** A worker waits for the lock, holds it and waits for a job, runs one, or has died of a
      panic in it or left after the pool was shut down. */
  datatype Worker = Waiting | Holding | Running(job: nat) | Gone

  datatype PoolState = PoolState(
    workers: seq<Worker>,
    accepted: nat,
    queue: seq<nat>,
    open: bool,
    started: seq<nat>,
    finished: set<nat>,
    crashed: set<nat>)

  function New(size: nat): PoolState {
    PoolState(seq(size, i => Waiting), 0, [], true, [], {}, {})
  }

  datatype Event = Acquire | Lock(w: nat) | Recv(w: nat) | Finish(w: nat) | Panic(w: nat) | Shutdown

  function Count(workers: seq<Worker>, x: Worker): nat {
    if workers == [] then 0 else Count(workers[..|workers| - 1], x) + if workers[|workers| - 1] == x then 1 else 0
  }

  /** What an event does; one that is not possible now does nothing. `Acquire` is a completed
      send into the job channel, which holds as many jobs as there are workers; it fails for
      good once every worker is gone. */
  function Step(p: PoolState, e: Event): PoolState {
    match e
    case Acquire =>
      if p.open && |p.queue| < |p.workers| && Count(p.workers, Gone) < |p.workers| then
        p.(accepted := p.accepted + 1, queue := p.queue + [p.accepted])
      else p
    case Lock(w) =>
      if w < |p.workers| && p.workers[w].Waiting? && Count(p.workers, Holding) == 0 then
        p.(workers := p.workers[w := Holding])
      else p
    case Recv(w) =>
      if w < |p.workers| && p.workers[w].Holding? then
        if p.queue != [] then
          p.(workers := p.workers[w := Running(p.queue[0])], queue := p.queue[1..], started := p.started + [p.queue[0]])
        else if !p.open then p.(workers := p.workers[w := Gone])
        else p
      else p
    case Finish(w) =>
      if w < |p.workers| && p.workers[w].Running? then
        p.(workers := p.workers[w := Waiting], finished := p.finished + {p.workers[w].job})
      else p
    case Panic(w) =>
      if w < |p.workers| && p.workers[w].Running? then
        p.(workers := p.workers[w := Gone], crashed := p.crashed + {p.workers[w].job})
      else p
    case Shutdown => p.(open := false)
  }

  function Run(size: nat, events: seq<Event>): PoolState {
    if events == [] then New(size) else Step(Run(size, events[..|events| - 1]), events[|events| - 1])
  }

  // ---------------------------------------------------------------- counting workers

  lemma {:induction false} CountUpdate(workers: seq<Worker>, w: nat, y: Worker, x: Worker)
    requires w < |workers|
    ensures Count(workers[w := y], x) ==
      Count(workers, x) - (if workers[w] == x then 1 else 0) + (if y == x then 1 else 0)
    decreases |workers|
  {
    var n := |workers| - 1;
    if w < n {
      assert workers[w := y][..n] == workers[..n][w := y];
      CountUpdate(workers[..n], w, y, x);
    } else {
      assert workers[w := y][..n] == workers[..n];
    }
  }

  lemma {:induction false} CountIsPositive(workers: seq<Worker>, w: nat, x: Worker)
    requires w < |workers| && workers[w] == x
    ensures Count(workers, x) > 0
    decreases |workers|
  {
    if w < |workers| - 1 { CountIsPositive(workers[..|workers| - 1], w, x); }
  }

  lemma {:induction false} CountFinds(workers: seq<Worker>, x: Worker) returns (w: nat)
    requires Count(workers, x) > 0
    ensures w < |workers| && workers[w] == x
    decreases |workers|
  {
    var n := |workers| - 1;
    if workers[n] == x { w := n; } else { w := CountFinds(workers[..n], x); }
  }

  lemma {:induction false} CountOfSame(size: nat, x: Worker)
    ensures Count(seq(size, i => Waiting), x) == if x.Waiting? then size else 0
    decreases size
  {
    if size > 0 {
      assert seq(size, i => Waiting)[..size - 1] == seq(size - 1, i => Waiting);
      CountOfSame(size - 1, x);
    }
  }

  // ---------------------------------------------------------------- the invariant

  function Range(n: nat): (r: seq<nat>)
    ensures |r| == n && forall i :: 0 <= i < n ==> r[i] == i
  {
    seq(n, i => i)
  }

  /** The places in which a started job is found. */
  function Places(p: PoolState, job: nat): nat {
    Count(p.workers, Running(job)) + (if job in p.finished then 1 else 0) + (if job in p.crashed then 1 else 0)
  }

  ghost predicate Inv(size: nat, p: PoolState) {
    && |p.workers| == size
    && |p.queue| <= size
    && p.started + p.queue == Range(p.accepted)
    && Count(p.workers, Holding) <= 1
    && (forall job: nat :: Places(p, job) == if job < |p.started| then 1 else 0)
    && p.accepted - |p.queue| == |p.started|
  }

  /** The job at the head of the queue is the next in acceptance order. */
  lemma HeadIsNext(size: nat, p: PoolState)
    requires Inv(size, p) && p.queue != []
    ensures p.queue[0] == |p.started|
    ensures (p.started + [p.queue[0]]) + p.queue[1..] == Range(p.accepted)
  {
    MoveOne(p.started, p.queue);
    assert (p.started + p.queue)[|p.started|] == p.queue[0];
  }

  lemma AcquireKeepsInv(size: nat, p: PoolState)
    requires Inv(size, p)
    ensures Inv(size, Step(p, Acquire))
  {
    assert p.started + (p.queue + [p.accepted]) == Range(p.accepted) + [p.accepted];
    assert Range(p.accepted) + [p.accepted] == Range(p.accepted + 1);
    forall job: nat ensures Places(Step(p, Acquire), job) == Places(p, job) {}
  }

  lemma StepKeepsInv(size: nat, p: PoolState, e: Event)
    requires Inv(size, p)
    ensures Inv(size, Step(p, e))
  {
    var p' := Step(p, e);
    if e.Acquire? {
      AcquireKeepsInv(size, p);
    } else if !e.Shutdown? && p' != p {
      CountUpdate(p.workers, e.w, p'.workers[e.w], Holding);
      if e.Recv? && p.queue != [] { HeadIsNext(size, p); }
      forall job: nat ensures Places(p', job) == if job < |p'.started| then 1 else 0 {
        CountUpdate(p.workers, e.w, p'.workers[e.w], Running(job));
        assert Places(p, job) == if job < |p.started| then 1 else 0;
      }
    } else {
      forall job: nat ensures Places(p', job) == Places(p, job) {}
    }
  }

  lemma {:induction false} AlwaysInv(size: nat, events: seq<Event>)
    ensures Inv(size, Run(size, events))
    decreases |events|
  {
    if events == [] {
      forall x ensures Count(New(size).workers, x) == if x.Waiting? then size else 0 { CountOfSame(size, x); }
    } else {
      AlwaysInv(size, events[..|events| - 1]);
      StepKeepsInv(size, Run(size, events[..|events| - 1]), events[|events| - 1]);
    }
  }

  // ---------------------------------------------------------------- consequences

  function Busy(workers: seq<Worker>): nat {
    if workers == [] then 0
    else Busy(workers[..|workers| - 1]) + if workers[|workers| - 1].Running? then 1 else 0
  }

  lemma {:induction false} BusyAtMostAll(workers: seq<Worker>)
    ensures Busy(workers) <= |workers|
  {
    if workers != [] { BusyAtMostAll(workers[..|workers| - 1]); }
  }

  /** In every reachable state at most one worker holds the receiver; every accepted job is
      queued, running on one worker, finished or crashed, and only one of these; jobs have
      been started in the order of acceptance; and at most twice the pool size of jobs are
      queued or running. */
  lemma PoolIsFair(size: nat, events: seq<Event>)
    ensures var p := Run(size, events);
      && Count(p.workers, Holding) <= 1
      && (forall job: nat :: job < p.accepted ==> (Places(p, job) == 0 <==> job in p.queue) && Places(p, job) <= 1)
      && (forall job: nat :: job >= p.accepted ==> Places(p, job) == 0 && job !in p.queue)
      && p.started == Range(|p.started|) && |p.started| + |p.queue| == p.accepted
      && |p.queue| + Busy(p.workers) <= 2 * size
  {
    var p := Run(size, events);
    AlwaysInv(size, events);
    BusyAtMostAll(p.workers);
    forall job: nat ensures job in p.queue <==> |p.started| <= job < p.accepted {
      assert forall i :: 0 <= i < |p.queue| ==> p.queue[i] == (p.started + p.queue)[|p.started| + i] == |p.started| + i;
      if |p.started| <= job < p.accepted { assert p.queue[job - |p.started|] == job; }
    }
    assert p.started == (p.started + p.queue)[..|p.started|];
  }

  /** A job never waits while a worker could take it: as long as some worker is neither busy
      nor gone, a queued job can be started within two events, ahead of any later one. */
  lemma QueuedJobCanStart(size: nat, events: seq<Event>, w: nat) returns (more: seq<Event>)
    requires var p := Run(size, events);
      p.queue != [] && w < |p.workers| && (p.workers[w].Waiting? || p.workers[w].Holding?)
    ensures |more| <= 2
    ensures var p := Run(size, events); Run(size, events + more).started == p.started + [p.queue[0]]
  {
    var p := Run(size, events);
    AlwaysInv(size, events);
    var holder := w;
    var before := events;
    if Count(p.workers, Holding) == 0 {
      if p.workers[w].Holding? { CountIsPositive(p.workers, w, Holding); }
      before := events + [Lock(w)];
      assert before[..|events|] == events;
      more := [Lock(w), Recv(w)];
    } else {
      holder := CountFinds(p.workers, Holding);
      more := [Recv(holder)];
    }
    assert events + more == before + [Recv(holder)];
    assert (before + [Recv(holder)])[..|before|] == before;
  }

  // ---------------------------------------------------------------- losing workers

  lemma RunOneMore(size: nat, events: seq<Event>, e: Event)
    ensures Run(size, events + [e]) == Step(Run(size, events), e)
  {
    assert (events + [e])[..|events|] == events;
  }

  /** While the pool is open, a worker is gone only because its job panicked. */
  predicate GoneByPanic(p: PoolState) {
    Count(p.workers, Gone) >= |p.crashed| && (p.open ==> Count(p.workers, Gone) == |p.crashed|)
  }

  /** A job that runs has not crashed. */
  lemma RunningIsIntact(size: nat, p: PoolState, w: nat)
    requires Inv(size, p) && w < |p.workers| && p.workers[w].Running?
    ensures p.workers[w].job !in p.crashed
  {
    CountIsPositive(p.workers, w, p.workers[w]);
    assert Places(p, p.workers[w].job) <= 1;
  }

  lemma StepKeepsGone(size: nat, p: PoolState, e: Event)
    requires Inv(size, p) && GoneByPanic(p)
    ensures GoneByPanic(Step(p, e))
  {
    var p' := Step(p, e);
    if (e.Lock? || e.Recv? || e.Finish? || e.Panic?) && p' != p {
      CountUpdate(p.workers, e.w, p'.workers[e.w], Gone);
      if e.Panic? { RunningIsIntact(size, p, e.w); }
    }
  }

  lemma {:induction false} AlwaysGoneByPanic(size: nat, events: seq<Event>)
    ensures GoneByPanic(Run(size, events))
    decreases |events|
  {
    if events == [] {
      CountOfSame(size, Gone);
    } else {
      var n := |events| - 1;
      AlwaysGoneByPanic(size, events[..n]);
      AlwaysInv(size, events[..n]);
      StepKeepsGone(size, Run(size, events[..n]), events[n]);
    }
  }

  lemma ShutdownCloses(p: PoolState, e: Event)
    ensures Step(p, e).open <==> p.open && e != Shutdown
  {
  }

  lemma LastIn(events: seq<Event>, e: Event)
    requires events != []
    ensures e in events <==> e in events[..|events| - 1] || e == events[|events| - 1]
  {
    assert events == events[..|events| - 1] + [events[|events| - 1]];
  }

  lemma {:induction false} OpenUntilShutdown(size: nat, events: seq<Event>)
    ensures Run(size, events).open <==> Shutdown !in events
    decreases |events|
  {
    if events != [] {
      var n := |events| - 1;
      OpenUntilShutdown(size, events[..n]);
      ShutdownCloses(Run(size, events[..n]), events[n]);
      LastIn(events, Shutdown);
    }
  }

  /** In every reachable state of an open pool the gone workers are as many as the crashed jobs;
      and the pool is open until it is shut down. */
  lemma GoneAreCrashed(size: nat, events: seq<Event>)
    ensures var p := Run(size, events);
      && Count(p.workers, Gone) >= |p.crashed|
      && (p.open ==> Count(p.workers, Gone) == |p.crashed|)
      && (p.open <==> Shutdown !in events)
  {
    AlwaysGoneByPanic(size, events);
    OpenUntilShutdown(size, events);
  }

  /** A job is accepted if and only if the pool has not been shut down, fewer jobs wait than the
      pool has workers, and fewer jobs have crashed than that. */
  lemma AcquireAcceptedIff(size: nat, events: seq<Event>)
    ensures var p, p' := Run(size, events), Run(size, events + [Acquire]);
      && (p'.accepted == p.accepted + 1 <==>
           Shutdown !in events && p.accepted - |p.started| < size && |p.crashed| < size)
      && (p'.accepted != p.accepted + 1 ==> p' == p)
  {
    AlwaysInv(size, events);
    GoneAreCrashed(size, events);
    RunOneMore(size, events, Acquire);
  }

  // ---------------------------------------------------------------- serving on

  /** Workers going on with their work: no panic, no new job and no shutdown. */
  predicate Working(events: seq<Event>) {
    forall i :: 0 <= i < |events| ==> events[i].Lock? || events[i].Recv? || events[i].Finish?
  }

  function After(p: PoolState, events: seq<Event>): PoolState
    decreases |events|
  {
    if events == [] then p else After(Step(p, events[0]), events[1..])
  }

  lemma {:induction false} RunAfter(size: nat, events: seq<Event>, more: seq<Event>)
    ensures Run(size, events + more) == After(Run(size, events), more)
    decreases |more|
  {
    if more == [] {
      assert events + more == events;
    } else {
      MoveOne(events, more);
      RunOneMore(size, events, more[0]);
      RunAfter(size, events + [more[0]], more[1..]);
    }
  }

  lemma {:induction false} AfterConcat(p: PoolState, a: seq<Event>, b: seq<Event>)
    ensures After(p, a + b) == After(After(p, a), b)
    decreases |a|
  {
    if a == [] {
      assert a + b == b;
    } else {
      assert (a + b)[1..] == a[1..] + b;
      AfterConcat(Step(p, a[0]), a[1..], b);
    }
  }

  lemma AfterOne(p: PoolState, e: Event)
    ensures After(p, [e]) == Step(p, e)
  {
    assert [e][1..] == [];
    assert After(Step(p, e), []) == Step(p, e);
  }

  lemma {:induction false} NotAll(workers: seq<Worker>, x: Worker) returns (w: nat)
    requires Count(workers, x) < |workers|
    ensures w < |workers| && workers[w] != x
    decreases |workers|
  {
    var n := |workers| - 1;
    if workers[n] != x { w := n; } else { w := NotAll(workers[..n], x); }
  }

  /** The jobs and the pool are as before; only workers have moved. */
  predicate SameJobs(p: PoolState, p': PoolState) {
    && p'.accepted == p.accepted && p'.open == p.open && p'.crashed == p.crashed
    && Count(p'.workers, Gone) == Count(p.workers, Gone)
  }

  lemma StepsOn(size: nat, p: PoolState, e: Event)
    requires Inv(size, p) && (e.Lock? || e.Recv? || e.Finish?)
    requires e.Recv? ==> p.queue != []
    ensures Inv(size, Step(p, e)) && SameJobs(p, Step(p, e))
    ensures e.w < |p.workers| ==>
      var y := Step(p, e).workers[e.w];
      Count(Step(p, e).workers, Holding) ==
        Count(p.workers, Holding) - (if p.workers[e.w].Holding? then 1 else 0) + (if y.Holding? then 1 else 0)
  {
    StepKeepsInv(size, p, e);
    if e.w < |p.workers| {
      var y := Step(p, e).workers[e.w];
      assert p.workers[e.w := p.workers[e.w]] == p.workers;
      CountUpdate(p.workers, e.w, y, Gone);
      CountUpdate(p.workers, e.w, y, Holding);
    }
  }

  /** As long as a worker is left, one can come to wait for a job. */
  lemma SomeoneHolds(size: nat, p: PoolState) returns (events: seq<Event>, h: nat)
    requires Inv(size, p) && Count(p.workers, Gone) < size
    ensures var p' := After(p, events);
      && Working(events) && Inv(size, p') && SameJobs(p, p') && p'.queue == p.queue
      && h < |p'.workers| && p'.workers[h].Holding?
  {
    if Count(p.workers, Holding) > 0 {
      events := [];
      h := CountFinds(p.workers, Holding);
    } else {
      h := NotAll(p.workers, Gone);
      if p.workers[h].Holding? { CountIsPositive(p.workers, h, Holding); }
      events := [Lock(h)];
      var p1 := p;
      if p.workers[h].Running? {
        events := [Finish(h)] + events;
        StepsOn(size, p, Finish(h));
        p1 := Step(p, Finish(h));
        AfterOne(p, Finish(h));
        AfterConcat(p, [Finish(h)], [Lock(h)]);
      }
      StepsOn(size, p1, Lock(h));
      AfterOne(p1, Lock(h));
    }
  }

  /** And can then serve the whole queue. */
  lemma {:induction false} QueueIsServed(size: nat, p: PoolState, h: nat) returns (events: seq<Event>)
    requires Inv(size, p) && h < |p.workers| && p.workers[h].Holding?
    ensures var p' := After(p, events);
      && Working(events) && Inv(size, p') && SameJobs(p, p') && p'.queue == []
      && h < |p'.workers| && p'.workers[h].Holding?
    decreases |p.queue|
  {
    if p.queue == [] {
      events := [];
    } else {
      var first := [Recv(h), Finish(h), Lock(h)];
      CountIsPositive(p.workers, h, Holding);
      var p1 := Step(p, Recv(h));
      var p2 := Step(p1, Finish(h));
      var p3 := Step(p2, Lock(h));
      StepsOn(size, p, Recv(h));
      StepsOn(size, p1, Finish(h));
      StepsOn(size, p2, Lock(h));
      ThreeSteps(p, Recv(h), Finish(h), Lock(h));
      var rest := QueueIsServed(size, p3, h);
      events := first + rest;
      AfterConcat(p, first, rest);
    }
  }

  /** So a worker can come to wait at an empty queue. */
  lemma QueueCanEmpty(size: nat, p: PoolState) returns (events: seq<Event>, h: nat)
    requires Inv(size, p) && Count(p.workers, Gone) < size
    ensures var p' := After(p, events);
      && Working(events) && Inv(size, p') && SameJobs(p, p') && p'.queue == []
      && h < |p'.workers| && p'.workers[h].Holding?
  {
    var first;
    first, h := SomeoneHolds(size, p);
    var rest := QueueIsServed(size, After(p, first), h);
    events := first + rest;
    AfterConcat(p, first, rest);
  }

  lemma ThreeSteps(p: PoolState, a: Event, b: Event, c: Event)
    ensures After(p, [a, b, c]) == Step(Step(Step(p, a), b), c)
  {
    assert [a, b, c] == [a] + ([b] + [c]);
    AfterOne(p, a);
    AfterOne(Step(p, a), b);
    AfterOne(Step(Step(p, a), b), c);
    AfterConcat(p, [a], [b] + [c]);
    AfterConcat(Step(p, a), [b], [c]);
  }

  /** With an empty queue all accepted jobs have been started. */
  lemma AllStarted(size: nat, p: PoolState)
    requires Inv(size, p) && p.queue == []
    ensures p.started == Range(p.accepted)
  {
    assert p.started + [] == p.started;
  }

  /** Whatever has happened to an open pool, as long as not all its workers have been lost to
      panics, its workers can go on to where it accepts one more job and starts that, too. */
  lemma OneMoreJobCanStart(size: nat, events: seq<Event>) returns (more: seq<Event>, w: nat)
    requires Shutdown !in events && |Run(size, events).crashed| < size
    ensures Working(more)
    ensures var p, p' := Run(size, events), Run(size, events + more + [Acquire, Recv(w)]);
      p'.accepted == p.accepted + 1 && p'.started == Range(p.accepted + 1)
  {
    more, w := OneMoreReachable(size, events);
    RunAfterBoth(size, events, more, [Acquire, Recv(w)]);
  }

  lemma LivePool(size: nat, events: seq<Event>)
    requires Shutdown !in events && |Run(size, events).crashed| < size
    ensures var p := Run(size, events); Inv(size, p) && p.open && Count(p.workers, Gone) < size
  {
    AlwaysInv(size, events);
    GoneAreCrashed(size, events);
  }

  lemma OneMoreReachable(size: nat, events: seq<Event>) returns (more: seq<Event>, w: nat)
    requires Shutdown !in events && |Run(size, events).crashed| < size
    ensures Working(more)
    ensures var p := Run(size, events);
      var p' := After(After(p, more), [Acquire, Recv(w)]);
      p'.accepted == p.accepted + 1 && p'.started == Range(p.accepted + 1)
  {
    LivePool(size, events);
    more, w := OneMoreFrom(size, Run(size, events));
  }

  lemma OneMoreFrom(size: nat, p: PoolState) returns (more: seq<Event>, w: nat)
    requires Inv(size, p) && p.open && Count(p.workers, Gone) < size
    ensures Working(more)
    ensures var p' := After(After(p, more), [Acquire, Recv(w)]);
      p'.accepted == p.accepted + 1 && p'.started == Range(p.accepted + 1)
  {
    more, w := QueueCanEmpty(size, p);
    AcceptAndStart(size, After(p, more), w);
  }

  lemma RunAfterBoth(size: nat, events: seq<Event>, a: seq<Event>, b: seq<Event>)
    ensures Run(size, events + a + b) == After(After(Run(size, events), a), b)
  {
    RunAfter(size, events, a);
    RunAfter(size, events + a, b);
  }

  lemma AcceptAndStart(size: nat, p: PoolState, h: nat)
    requires Inv(size, p) && p.open && p.queue == [] && Count(p.workers, Gone) < size
    requires h < |p.workers| && p.workers[h].Holding?
    ensures var p' := After(p, [Acquire, Recv(h)]);
      p'.accepted == p.accepted + 1 && p'.started == Range(p.accepted + 1)
  {
    var p1 := Step(p, Acquire);
    var p2 := Step(p1, Recv(h));
    StepKeepsInv(size, p, Acquire);
    StepKeepsInv(size, p1, Recv(h));
    assert [Acquire, Recv(h)] == [Acquire] + [Recv(h)];
    AfterConcat(p, [Acquire], [Recv(h)]);
    AfterOne(p, Acquire);
    AfterOne(p1, Recv(h));
    AllStarted(size, p2);
  }

  // ---------------------------------------------------------------- shutting down

  /** With the pool shut down and its queue served, a worker that waits for a job leaves. */
  lemma OneLeaves(size: nat, p: PoolState, h: nat)
    requires Inv(size, p) && !p.open && p.queue == [] && h < |p.workers| && p.workers[h].Holding?
    ensures var p' := Step(p, Recv(h));
      && Inv(size, p') && !p'.open && p'.queue == [] && p'.accepted == p.accepted && p'.crashed == p.crashed
      && Count(p'.workers, Gone) == Count(p.workers, Gone) + 1
  {
    StepKeepsInv(size, p, Recv(h));
    CountUpdate(p.workers, h, Gone, Gone);
  }

  lemma {:induction false} AllCanLeave(size: nat, p: PoolState) returns (events: seq<Event>)
    requires Inv(size, p) && !p.open && Count(p.workers, Gone) <= size
    ensures var p' := After(p, events);
      && Working(events) && Inv(size, p') && Count(p'.workers, Gone) == size
      && p'.accepted == p.accepted && p'.crashed == p.crashed
      && (p.queue == [] || Count(p.workers, Gone) < size ==> p'.queue == [])
    decreases size - Count(p.workers, Gone)
  {
    if Count(p.workers, Gone) == size {
      events := [];
    } else {
      var first, h := QueueCanEmpty(size, p);
      var p1 := After(p, first);
      OneLeaves(size, p1, h);
      var p2 := Step(p1, Recv(h));
      CountAtMostAll(p2.workers, Gone);
      var rest := AllCanLeave(size, p2);
      events := first + ([Recv(h)] + rest);
      AfterConcat(p, first, [Recv(h)] + rest);
      AfterConcat(p1, [Recv(h)], rest);
      AfterOne(p1, Recv(h));
    }
  }

  lemma {:induction false} CountAtMostAll(workers: seq<Worker>, x: Worker)
    ensures Count(workers, x) <= |workers|
  {
    if workers != [] { CountAtMostAll(workers[..|workers| - 1], x); }
  }

  /** A pool that is shut down can still start every accepted job, unless all its workers have
      been lost before, and then all its workers leave. */
  lemma ShutdownCanComplete(size: nat, events: seq<Event>) returns (more: seq<Event>)
    ensures Working(more)
    ensures var p, p' := Run(size, events), Run(size, events + [Shutdown] + more);
      && p'.accepted == p.accepted && p'.crashed == p.crashed && Count(p'.workers, Gone) == size
      && (Count(p.workers, Gone) < size ==> p'.started == Range(p.accepted))
  {
    AlwaysInv(size, events + [Shutdown]);
    RunOneMore(size, events, Shutdown);
    var p := Run(size, events + [Shutdown]);
    CountAtMostAll(p.workers, Gone);
    more := AllCanLeave(size, p);
    RunAfter(size, events + [Shutdown], more);
    var p' := After(p, more);
    if p'.queue == [] { AllStarted(size, p'); }
  }
}
