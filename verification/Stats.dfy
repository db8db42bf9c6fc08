/** The connection statistics (src/stats.rs): a counter and a bounded deque of samples that
    any number of connections update in two separate atomic steps, and the window averages
    and the alarm computed from the deque. Times are in nanoseconds. */
module Stats {
  import opened Prelude

  const MAX_SAMPLES: nat := 6000
  const SECOND: nat := 1_000_000_000
  const USIZE_MAX: nat := 0xFFFF_FFFF_FFFF_FFFF

  datatype Sample = Sample(timestamp: nat, value: nat)

  function KeepLast<T>(xs: seq<T>, n: nat): seq<T> {
    if |xs| <= n then xs else xs[|xs| - n..]
  }

  lemma KeepLastAppend<T>(xs: seq<T>, x: T, n: nat)
    ensures KeepLast(KeepLast(xs, n) + [x], n) == KeepLast(xs + [x], n)
  {
  }

  function Increment(active: nat): nat {
    if active == USIZE_MAX then 0 else active + 1
  }

  /** `fetch_sub` wraps around. */
  function Decrement(active: nat): nat {
    if active == 0 then USIZE_MAX else active - 1
  }

  /** The two undo each other on every 64-bit counter. */
  lemma OpenAndClose(active: nat)
    requires active <= 0xFFFF_FFFF_FFFF_FFFF
    ensures Decrement(Increment(active)) == active == Increment(Decrement(active))
    ensures active < 0xFFFF_FFFF_FFFF_FFFF ==> Increment(active) == active + 1
  {
  }

  // ---------------------------------------------------------------- the object

  class Stats {
    var active: nat
    var samples: seq<Sample>
    const numCpus: nat

    constructor (numCpus: nat)
      ensures active == 0 && samples == [] && this.numCpus == numCpus
    {
      active, samples, this.numCpus := 0, [], numCpus;
    }

    /** The first step of `connection_start`. */
    method Opened() returns (count: nat)
      modifies this`active
      ensures active == count == Increment(old(active))
    {
      active := if active == USIZE_MAX then 0 else active + 1;
      count := active;
    }

    /** The first step of `connection_end`. */
    method Closed() returns (count: nat)
      modifies this`active
      ensures active == count == Decrement(old(active))
    {
      active := if active == 0 then USIZE_MAX else active - 1;
      count := active;
    }

    /** The second step of both: `record_sample`, under the lock. */
    method RecordSample(value: nat, now: nat)
      modifies this`samples
      ensures samples == KeepLast(old(samples) + [Sample(now, value)], MAX_SAMPLES)
      ensures |samples| == (if |old(samples)| < 6000 then |old(samples)| + 1 else 6000)
      ensures samples == old(samples)[|old(samples)| + 1 - |samples|..] + [Sample(now, value)]
    {
      samples := samples + [Sample(now, value)];
      ghost var all := samples;
      while |samples| > MAX_SAMPLES
        invariant |samples| <= |all| && samples == all[|all| - |samples|..]
        invariant |all| >= MAX_SAMPLES ==> |samples| >= MAX_SAMPLES
        invariant |all| <= MAX_SAMPLES ==> samples == all
      {
        samples := samples[1..];
      }
    }

    /** `connection_start` with nothing happening in between. */
    method ConnectionStart(now: nat)
      modifies this
      ensures active == Increment(old(active))
      ensures samples == KeepLast(old(samples) + [Sample(now, active)], MAX_SAMPLES)
    {
      var count := Opened();
      RecordSample(count, now);
    }

    /** `connection_end` with nothing happening in between. */
    method ConnectionEnd(now: nat)
      modifies this
      ensures active == Decrement(old(active))
      ensures samples == KeepLast(old(samples) + [Sample(now, active)], MAX_SAMPLES)
    {
      var count := Closed();
      RecordSample(count, now);
    }

    /** `average`: over the samples of the window, or the current count if there is none. */
    method Average(now: int, window: nat) returns (average: real)
      ensures average == WindowAverage(samples, active, now, window)
    {
      var cutoff := now - window;
      var relevant: seq<Sample> := [];
      var sum := 0;
      for i := 0 to |samples|
        invariant relevant == InWindow(samples[..i], cutoff) && sum == Sum(relevant)
      {
        assert samples[..i + 1] == samples[..i] + [samples[i]];
        InWindowAppend(samples[..i], samples[i], cutoff);
        if samples[i].timestamp >= cutoff {
          SumAppend(relevant, samples[i]);
          relevant, sum := relevant + [samples[i]], sum + samples[i].value;
        }
      }
      assert samples[..|samples|] == samples;
      average := if relevant == [] then active as real else sum as real / |relevant| as real;
    }

    /** What other connections do meanwhile. */
    method Others(steps: seq<OtherStep>)
      modifies this
      ensures (active, samples) == Meanwhile(old(active), old(samples), steps)
    {
      for i := 0 to |steps|
        invariant (active, samples) == Meanwhile(old(active), old(samples), steps[..i])
      {
        assert steps[..i + 1][..i] == steps[..i];
        match steps[i]
        case Up => var count := Opened();
        case Down => var count := Closed();
        case Added(value, at) => RecordSample(value, at);
      }
      assert steps[..|steps|] == steps;
    }

    /** The alarm of `to_json`: four averages, each at its own moment, between which other
        connections come and go. */
    method Alarm(t10: int, t60: int, t120: int, t300: int,
                 before60: seq<OtherStep>, before120: seq<OtherStep>, before300: seq<OtherStep>) returns (alarm: bool)
      requires numCpus > 0
      modifies this
      ensures var r10 := Reading(old(samples), old(active), t10);
        var r60 := Later(r10, before60, t60);
        var r120 := Later(r60, before120, t120);
        var r300 := Later(r120, before300, t300);
        && alarm == AlarmOf(numCpus, r10, r60, r120, r300)
        && (alarm <==> AtCapacity(numCpus, r10, 10) || AtCapacity(numCpus, r60, 60)
                       || AtCapacity(numCpus, r120, 120) || AtCapacity(numCpus, r300, 300))
        && active == r300.active && samples == r300.samples
    {
      ghost var r10 := Reading(samples, active, t10);
      ghost var r60 := Later(r10, before60, t60);
      ghost var r120 := Later(r60, before120, t120);
      AlarmIff(numCpus, r10, r60, r120, Later(r120, before300, t300));
      var util10 := Utilization(t10, 10);
      Others(before60);
      var util60 := Utilization(t60, 60);
      Others(before120);
      var util120 := Utilization(t120, 120);
      Others(before300);
      var util300 := Utilization(t300, 300);
      alarm := util10 >= 1.0 || util60 >= 1.0 || util120 >= 1.0 || util300 >= 1.0;
    }

    method Utilization(now: int, seconds: nat) returns (u: real)
      requires numCpus > 0
      ensures u >= 1.0 <==> OverCapacity(numCpus, Reading(samples, active, now), seconds)
    {
      var average := Average(now, seconds * SECOND);
      u := average / numCpus as real;
    }
  }

  /** The atomic steps another connection can take. */
  datatype OtherStep = Up | Down | Added(value: nat, at: nat)

  /** The counter and the samples after such steps. */
  function Meanwhile(active: nat, samples: seq<Sample>, steps: seq<OtherStep>): (nat, seq<Sample>) {
    if steps == [] then (active, samples)
    else
      var (n, s) := Meanwhile(active, samples, steps[..|steps| - 1]);
      match steps[|steps| - 1]
      case Up => (Increment(n), s)
      case Down => (Decrement(n), s)
      case Added(value, at) => (n, KeepLast(s + [Sample(at, value)], MAX_SAMPLES))
  }

  function Later(r: Reading, steps: seq<OtherStep>, now: int): Reading {
    var (active, samples) := Meanwhile(r.active, r.samples, steps);
    Reading(samples, active, now)
  }

  // ---------------------------------------------------------------- averages

  function InWindow(samples: seq<Sample>, cutoff: int): seq<Sample> {
    if samples == [] then []
    else (if samples[0].timestamp >= cutoff then [samples[0]] else []) + InWindow(samples[1..], cutoff)
  }

  lemma {:induction false} InWindowAppend(samples: seq<Sample>, x: Sample, cutoff: int)
    ensures InWindow(samples + [x], cutoff) == InWindow(samples, cutoff) + if x.timestamp >= cutoff then [x] else []
  {
    if samples == [] {
      assert [] + [x] == [x];
    } else {
      assert (samples + [x])[1..] == samples[1..] + [x];
      InWindowAppend(samples[1..], x, cutoff);
      Assoc(if samples[0].timestamp >= cutoff then [samples[0]] else [], InWindow(samples[1..], cutoff),
            if x.timestamp >= cutoff then [x] else []);
    }
  }

  function Sum(samples: seq<Sample>): nat {
    if samples == [] then 0 else samples[0].value + Sum(samples[1..])
  }

  lemma {:induction false} SumAppend(samples: seq<Sample>, x: Sample)
    ensures Sum(samples + [x]) == Sum(samples) + x.value
  {
    if samples == [] {
      assert [] + [x] == [x];
    } else {
      assert (samples + [x])[1..] == samples[1..] + [x];
      SumAppend(samples[1..], x);
    }
  }

  function WindowAverage(samples: seq<Sample>, active: nat, now: int, window: nat): real {
    var relevant := InWindow(samples, now - window);
    if relevant == [] then active as real else Sum(relevant) as real / |relevant| as real
  }

  /** The state at the moment one average is taken. */
  datatype Reading = Reading(samples: seq<Sample>, active: nat, now: int)

  predicate OverCapacity(numCpus: nat, r: Reading, seconds: nat)
    requires numCpus > 0
  {
    WindowAverage(r.samples, r.active, r.now, seconds * SECOND) / numCpus as real >= 1.0
  }

  /** Some rolling average of ten seconds or more reaches the capacity; other connections may
      come and go between the readings. */
  predicate AlarmOf(numCpus: nat, r10: Reading, r60: Reading, r120: Reading, r300: Reading)
    requires numCpus > 0
  {
    || OverCapacity(numCpus, r10, 10) || OverCapacity(numCpus, r60, 60)
    || OverCapacity(numCpus, r120, 120) || OverCapacity(numCpus, r300, 300)
  }

  predicate Sorted(samples: seq<Sample>) {
    forall i, j :: 0 <= i < j < |samples| ==> samples[i].timestamp <= samples[j].timestamp
  }

  /** The samples of a window are the deque's most recent ones: those from the first on that is
      not older than the window. */
  lemma {:induction false} WindowIsSuffix(samples: seq<Sample>, cutoff: int) returns (k: nat)
    requires Sorted(samples)
    ensures k <= |samples| && InWindow(samples, cutoff) == samples[k..]
    ensures forall i :: 0 <= i < |samples| ==> (samples[i].timestamp >= cutoff <==> k <= i)
  {
    if samples == [] || samples[0].timestamp >= cutoff {
      k := 0;
      AllInWindow(samples, cutoff);
    } else {
      var n := WindowIsSuffix(samples[1..], cutoff);
      k := n + 1;
      assert forall i :: 0 < i < |samples| ==> samples[i] == samples[1..][i - 1];
    }
  }

  lemma {:induction false} AllInWindow(samples: seq<Sample>, cutoff: int)
    requires forall i :: 0 <= i < |samples| ==> samples[i].timestamp >= cutoff
    ensures InWindow(samples, cutoff) == samples
  {
    if samples != [] { AllInWindow(samples[1..], cutoff); }
  }

  predicate ValuesWithin(samples: seq<Sample>, lo: nat, hi: nat) {
    forall i :: 0 <= i < |samples| ==> lo <= samples[i].value <= hi
  }

  lemma {:induction false} SumWithin(samples: seq<Sample>, lo: nat, hi: nat)
    requires ValuesWithin(samples, lo, hi)
    ensures lo * |samples| <= Sum(samples) <= hi * |samples|
  {
    if samples != [] {
      var n := |samples[1..]|;
      SumWithin(samples[1..], lo, hi);
      assert lo * (n + 1) == lo * n + lo && hi * (n + 1) == hi * n + hi;
    }
  }

  /** An average lies between any bounds of what it is taken over: the samples of the window,
      or the current count if there is none. */
  lemma AverageWithin(samples: seq<Sample>, active: nat, now: int, window: nat, lo: nat, hi: nat)
    requires var relevant := InWindow(samples, now - window);
      if relevant == [] then lo <= active <= hi else ValuesWithin(relevant, lo, hi)
    ensures lo as real <= WindowAverage(samples, active, now, window) <= hi as real
  {
    var relevant := InWindow(samples, now - window);
    if relevant != [] {
      SumWithin(relevant, lo, hi);
      Quotient(Sum(relevant), |relevant|, lo, hi);
    }
  }

  lemma Quotient(sum: nat, n: nat, lo: nat, hi: nat)
    requires n > 0 && lo * n <= sum <= hi * n
    ensures lo as real <= sum as real / n as real <= hi as real
  {
    assert (lo * n) as real == lo as real * n as real && (hi * n) as real == hi as real * n as real;
    assert sum as real == (sum as real / n as real) * n as real;
  }

  lemma UtilizationVersusOne(average: real, numCpus: nat)
    requires numCpus > 0
    ensures average / numCpus as real >= 1.0 <==> average >= numCpus as real
  {
    assert average == (average / numCpus as real) * numCpus as real;
  }

  // ---------------------------------------------------------------- all interleavings

  /** A connection between its two steps holds the count it saw; `event` says which change of
      the counter that was. */
  datatype Connection = Opening(event: nat, count: nat) | Serving | Closing(event: nat, count: nat) | Ended

  /** `history` is the counter after each of its changes; `log` every sample ever appended,
      with the change it records. */
  datatype Entry = Entry(sample: Sample, event: nat)
  datatype World = World(
    active: nat,
    samples: seq<Sample>,
    clock: nat,
    connections: seq<Connection>,
    history: seq<nat>,
    log: seq<Entry>)

  const EMPTY_WORLD: World := World(0, [], 0, [], [], [])

  /** `Open` and `Close` change the counter; `Record` appends the sample of the connection's
      last change, some time later. A connection closes through its guard: only after its
      opening is recorded, and once. */
  datatype Event = Open | Close(id: nat) | Record(id: nat, elapsed: nat)

  function Append(w: World, event: nat, count: nat, elapsed: nat): World {
    var s := Sample(w.clock + elapsed, count);
    w.(clock := w.clock + elapsed,
       samples := KeepLast(w.samples + [s], MAX_SAMPLES),
       log := w.log + [Entry(s, event)])
  }

  function Step(w: World, e: Event): World {
    match e
    case Open =>
      var count := Increment(w.active);
      w.(active := count, history := w.history + [count],
         connections := w.connections + [Opening(|w.history|, count)])
    case Close(id) =>
      if id < |w.connections| && w.connections[id].Serving? then
        var count := Decrement(w.active);
        w.(active := count, history := w.history + [count],
           connections := w.connections[id := Closing(|w.history|, count)])
      else w
    case Record(id, elapsed) =>
      if id < |w.connections| && w.connections[id].Opening? then
        Append(w, w.connections[id].event, w.connections[id].count, elapsed)
          .(connections := w.connections[id := Serving])
      else if id < |w.connections| && w.connections[id].Closing? then
        Append(w, w.connections[id].event, w.connections[id].count, elapsed)
          .(connections := w.connections[id := Ended])
      else w
  }

  function Run(events: seq<Event>): World {
    if events == [] then EMPTY_WORLD else Step(Run(events[..|events| - 1]), events[|events| - 1])
  }

  predicate IsOpen(c: Connection) {
    c.Opening? || c.Serving?
  }

  /** The connections that have been counted in and not yet out. */
  function OpenCount(connections: seq<Connection>): nat {
    if connections == [] then 0
    else OpenCount(connections[..|connections| - 1]) + if IsOpen(connections[|connections| - 1]) then 1 else 0
  }

  lemma {:induction false} OpenCountUpdate(connections: seq<Connection>, id: nat, c: Connection)
    requires id < |connections|
    ensures OpenCount(connections[id := c]) ==
      OpenCount(connections) - (if IsOpen(connections[id]) then 1 else 0) + (if IsOpen(c) then 1 else 0)
    decreases |connections|
  {
    var n := |connections| - 1;
    if id < n {
      assert connections[id := c][..n] == connections[..n][id := c];
      OpenCountUpdate(connections[..n], id, c);
    } else {
      assert connections[id := c][..n] == connections[..n];
    }
  }

  lemma {:induction false} OpenCountBound(connections: seq<Connection>)
    ensures OpenCount(connections) <= |connections|
  {
    if connections != [] { OpenCountBound(connections[..|connections| - 1]); }
  }

  function SamplesOf(log: seq<Entry>): (r: seq<Sample>)
    ensures |r| == |log| && forall i :: 0 <= i < |log| ==> r[i] == log[i].sample
  {
    seq(|log|, i requires 0 <= i < |log| => log[i].sample)
  }

  /** A pending count, and a recorded one, is the counter right after the change it belongs to. */
  predicate Truthful(w: World) {
    && (forall i :: 0 <= i < |w.log| ==>
         w.log[i].event < |w.history| && w.log[i].sample.value == w.history[w.log[i].event])
    && (forall id :: 0 <= id < |w.connections| ==>
         match w.connections[id]
         case Opening(e, count) => e < |w.history| && count == w.history[e]
         case Closing(e, count) => e < |w.history| && count == w.history[e]
         case _ => true)
  }

  function RecordedCount(log: seq<Entry>, event: nat): nat {
    if log == [] then 0
    else RecordedCount(log[..|log| - 1], event) + if log[|log| - 1].event == event then 1 else 0
  }

  function PendingCount(connections: seq<Connection>, event: nat): nat {
    if connections == [] then 0
    else
      PendingCount(connections[..|connections| - 1], event)
      + if Pending(connections[|connections| - 1], event) then 1 else 0
  }

  predicate Pending(c: Connection, event: nat) {
    (c.Opening? || c.Closing?) && c.event == event
  }

  /** Every change of the counter is pending on exactly one connection or recorded exactly once. */
  ghost predicate EachRecordedOnce(w: World) {
    forall e: nat :: Places(w, e) == if e < |w.history| then 1 else 0
  }

  lemma {:induction false} PendingUpdate(connections: seq<Connection>, id: nat, c: Connection, event: nat)
    requires id < |connections|
    ensures PendingCount(connections[id := c], event) == PendingCount(connections, event)
      - (if Pending(connections[id], event) then 1 else 0) + (if Pending(c, event) then 1 else 0)
    decreases |connections|
  {
    var n := |connections| - 1;
    if id < n {
      assert connections[id := c][..n] == connections[..n][id := c];
      PendingUpdate(connections[..n], id, c, event);
    } else {
      assert connections[id := c][..n] == connections[..n];
    }
  }

  ghost predicate Inv(w: World) {
    && w.active == OpenCount(w.connections)
    && w.samples == KeepLast(SamplesOf(w.log), MAX_SAMPLES)
    && InOrder(w.log, w.clock)
    && Truthful(w)
    && w.active == (if w.history == [] then 0 else w.history[|w.history| - 1])
  }

  lemma {:induction false} OpenIsCounted(connections: seq<Connection>, id: nat)
    requires id < |connections| && IsOpen(connections[id])
    ensures OpenCount(connections) > 0
    decreases |connections|
  {
    if id < |connections| - 1 { OpenIsCounted(connections[..|connections| - 1], id); }
  }

  predicate InOrder(log: seq<Entry>, clock: nat) {
    && Sorted(SamplesOf(log))
    && (forall i :: 0 <= i < |log| ==> log[i].sample.timestamp <= clock)
  }

  lemma AppendInOrder(log: seq<Entry>, clock: nat, entry: Entry)
    requires InOrder(log, clock) && entry.sample.timestamp >= clock
    ensures InOrder(log + [entry], entry.sample.timestamp)
    ensures SamplesOf(log + [entry]) == SamplesOf(log) + [entry.sample]
  {
    var all := SamplesOf(log + [entry]);
    assert all == SamplesOf(log) + [entry.sample];
    forall i, j | 0 <= i < j < |all| ensures all[i].timestamp <= all[j].timestamp {
      if j < |log| {
        assert all[i] == SamplesOf(log)[i] && all[j] == SamplesOf(log)[j];
      }
    }
  }

  lemma AppendTruthful(w: World, id: nat, elapsed: nat)
    requires Truthful(w) && id < |w.connections| && (w.connections[id].Opening? || w.connections[id].Closing?)
    ensures Truthful(Step(w, Record(id, elapsed)))
  {
  }

  lemma AppendKeepsInv(w: World, id: nat, elapsed: nat)
    requires Inv(w) && id < |w.connections| && (w.connections[id].Opening? || w.connections[id].Closing?)
    ensures Inv(Step(w, Record(id, elapsed)))
  {
    var w' := Step(w, Record(id, elapsed));
    var entry := w'.log[|w.log|];
    AppendInOrder(w.log, w.clock, entry);
    AppendTruthful(w, id, elapsed);
    KeepLastAppend(SamplesOf(w.log), entry.sample, MAX_SAMPLES);
    OpenCountUpdate(w.connections, id, w'.connections[id]);
  }

  lemma StepKeepsInv(w: World, e: Event)
    requires Inv(w) && |w.connections| < USIZE_MAX
    ensures Inv(Step(w, e))
  {
    var w' := Step(w, e);
    OpenCountBound(w.connections);
    match e
    case Open =>
      assert w'.connections[..|w.connections|] == w.connections;
    case Close(id) =>
      if w' != w {
        OpenIsCounted(w.connections, id);
        OpenCountUpdate(w.connections, id, w'.connections[id]);
      }
    case Record(id, elapsed) =>
      if id < |w.connections| && (w.connections[id].Opening? || w.connections[id].Closing?) {
        AppendKeepsInv(w, id, elapsed);
      }
  }

  function Places(w: World, event: nat): nat {
    RecordedCount(w.log, event) + PendingCount(w.connections, event)
  }

  lemma RecordMovesPlace(w: World, id: nat, elapsed: nat, x: nat)
    ensures Places(Step(w, Record(id, elapsed)), x) == Places(w, x)
  {
    var w' := Step(w, Record(id, elapsed));
    if w' != w {
      PendingUpdate(w.connections, id, w'.connections[id], x);
      assert w'.log[..|w.log|] == w.log;
    }
  }

  lemma ChangeAddsPlace(w: World, e: Event, x: nat)
    requires !e.Record?
    ensures Places(Step(w, e), x) == Places(w, x) + if Step(w, e) != w && x == |w.history| then 1 else 0
  {
    var w' := Step(w, e);
    if e.Open? {
      assert w'.connections[..|w.connections|] == w.connections;
    } else if w' != w {
      PendingUpdate(w.connections, e.id, w'.connections[e.id], x);
    }
  }

  lemma StepKeepsEachOnce(w: World, e: Event)
    requires EachRecordedOnce(w)
    ensures EachRecordedOnce(Step(w, e))
  {
    var w' := Step(w, e);
    forall x: nat ensures Places(w', x) == if x < |w'.history| then 1 else 0 {
      assert Places(w, x) == if x < |w.history| then 1 else 0;
      if e.Record? { RecordMovesPlace(w, e.id, e.elapsed, x); } else { ChangeAddsPlace(w, e, x); }
    }
  }

  lemma {:induction false} AlwaysInv(events: seq<Event>)
    requires |events| <= USIZE_MAX
    ensures Inv(Run(events)) && EachRecordedOnce(Run(events)) && |Run(events).connections| <= |events|
    decreases |events|
  {
    if events != [] {
      var n := |events| - 1;
      AlwaysInv(events[..n]);
      StepKeepsInv(Run(events[..n]), events[n]);
      StepKeepsEachOnce(Run(events[..n]), events[n]);
    }
  }

  /** Under every interleaving: the counter is the number of connections counted in and not
      yet out, so it never wraps; the deque holds the last 6000 samples appended, with
      sorted timestamps; each change of the counter is recorded exactly once or still
      pending, with the counter's value right after that change. */
  lemma StatsUnderAllInterleavings(events: seq<Event>)
    requires |events| <= USIZE_MAX
    ensures var w := Run(events);
      && w.active == OpenCount(w.connections) <= |w.connections|
      && |w.samples| == (if |w.log| <= 6000 then |w.log| else 6000)
      && w.samples == SamplesOf(w.log)[|w.log| - |w.samples|..]
      && Sorted(w.samples)
      && EachRecordedOnce(w) && Truthful(w)
  {
    AlwaysInv(events);
    OpenCountBound(Run(events).connections);
  }

  /** A connection that closes finds the counter positive. */
  lemma CloseNeverUnderflows(events: seq<Event>, id: nat)
    requires |events| <= USIZE_MAX
    requires var w := Run(events); id < |w.connections| && w.connections[id].Serving?
    ensures Step(Run(events), Close(id)).active == Run(events).active - 1
  {
    AlwaysInv(events);
    OpenIsCounted(Run(events).connections, id);
  }

  /** The deque's order may differ from the order of the counter's changes. */
  lemma SamplesCanBeOutOfOrder()
    ensures var w := Run([Open, Open, Record(1, 5), Record(0, 5)]);
      w.history == [1, 2] && w.samples == [Sample(5, 2), Sample(10, 1)]
  {
    var events := [Open, Open, Record(1, 5), Record(0, 5)];
    assert events[..3][..2][..1][..0] == [];
    assert events[..3][..2] == [Open, Open] && events[..3][..2][..1] == [Open];
    assert Run([Open]) == Step(EMPTY_WORLD, Open) by { assert [Open][..0] == []; }
    assert Run([Open, Open]) == Step(Run([Open]), Open) by { assert [Open, Open][..1] == [Open]; }
    assert Run(events[..3]) == Step(Run([Open, Open]), Record(1, 5));
    assert Run(events) == Step(Run(events[..3]), Record(0, 5));
  }

  // ---------------------------------------------------------------- the alarm

  lemma {:induction false} HistoryGrows(events: seq<Event>, k: nat)
    requires k <= |events|
    ensures Run(events[..k]).history <= Run(events).history
    decreases |events|
  {
    var n := |events| - 1;
    if k == |events| {
      assert events[..k] == events;
    } else {
      HistoryGrows(events[..n], k);
      assert events[..n][..k] == events[..k];
      assert Run(events[..n]).history <= Step(Run(events[..n]), events[n]).history;
    }
  }

  predicate AllBelow(history: seq<nat>, bound: nat) {
    forall i :: 0 <= i < |history| ==> history[i] < bound
  }

  /** What an average taken at time `now` after the first `k` events reads. */
  function ReadAt(events: seq<Event>, k: nat, now: int): Reading
    requires k <= |events|
  {
    Reading(Run(events[..k]).samples, Run(events[..k]).active, now)
  }

  lemma {:induction false} WindowValues(samples: seq<Sample>, cutoff: int, lo: nat, hi: nat)
    requires ValuesWithin(samples, lo, hi)
    ensures ValuesWithin(InWindow(samples, cutoff), lo, hi)
  {
    if samples != [] { WindowValues(samples[1..], cutoff, lo, hi); }
  }

  lemma QuietSamples(w: World, bound: nat)
    requires Inv(w) && bound > 0 && AllBelow(w.history, bound)
    ensures ValuesWithin(w.samples, 0, bound - 1) && w.active < bound
  {
    assert ValuesWithin(SamplesOf(w.log), 0, bound - 1);
  }

  lemma QuietAverage(w: World, bound: nat, now: int, window: nat)
    requires Inv(w) && bound > 0 && AllBelow(w.history, bound)
    ensures WindowAverage(w.samples, w.active, now, window) <= (bound - 1) as real
  {
    QuietSamples(w, bound);
    WindowValues(w.samples, now - window, 0, bound - 1);
    AverageWithin(w.samples, w.active, now, window, 0, bound - 1);
  }

  lemma QuietReading(events: seq<Event>, k: nat, now: int, numCpus: nat, seconds: nat)
    requires k <= |events| <= USIZE_MAX && numCpus > 0 && AllBelow(Run(events).history, numCpus)
    ensures !OverCapacity(numCpus, ReadAt(events, k, now), seconds)
  {
    var w, window := Run(events[..k]), seconds * SECOND;
    AlwaysInv(events[..k]);
    HistoryGrows(events, k);
    QuietAverage(w, numCpus, now, window);
    UtilizationVersusOne(WindowAverage(w.samples, w.active, now, window), numCpus);
  }

  /** If the counter stays below the number of CPUs throughout a run, the alarm is off, with
      its four averages taken whenever and at whatever points of the run. */
  lemma QuietRunRaisesNoAlarm(events: seq<Event>, numCpus: nat, k10: nat, k60: nat, k120: nat, k300: nat,
                              t10: int, t60: int, t120: int, t300: int)
    requires numCpus > 0 && |events| <= USIZE_MAX && AllBelow(Run(events).history, numCpus)
    requires k10 <= |events| && k60 <= |events| && k120 <= |events| && k300 <= |events|
    ensures !AlarmOf(numCpus, ReadAt(events, k10, t10), ReadAt(events, k60, t60),
                     ReadAt(events, k120, t120), ReadAt(events, k300, t300))
  {
    QuietReading(events, k10, t10, numCpus, 10);
    QuietReading(events, k60, t60, numCpus, 60);
    QuietReading(events, k120, t120, numCpus, 120);
    QuietReading(events, k300, t300, numCpus, 300);
  }

  /** The samples of the last so many seconds add up to the number of CPUs for each of them; with
      no sample, the current count reaches it. */
  predicate AtCapacity(numCpus: nat, r: Reading, seconds: nat) {
    var relevant := InWindow(r.samples, r.now - seconds * 1_000_000_000);
    if relevant == [] then r.active >= numCpus else Sum(relevant) >= numCpus * |relevant|
  }

  /** A window is over capacity exactly then. */
  lemma OverCapacityIff(r: Reading, numCpus: nat, seconds: nat)
    requires numCpus > 0
    ensures OverCapacity(numCpus, r, seconds) <==> AtCapacity(numCpus, r, seconds)
  {
    var relevant := InWindow(r.samples, r.now - seconds * SECOND);
    UtilizationVersusOne(WindowAverage(r.samples, r.active, r.now, seconds * SECOND), numCpus);
    if relevant != [] { QuotientAtLeast(Sum(relevant), |relevant|, numCpus); }
  }

  /** The alarm is on if and only if that is so for ten seconds, one, two or five minutes. */
  lemma AlarmIff(numCpus: nat, r10: Reading, r60: Reading, r120: Reading, r300: Reading)
    requires numCpus > 0
    ensures AlarmOf(numCpus, r10, r60, r120, r300) <==>
      AtCapacity(numCpus, r10, 10) || AtCapacity(numCpus, r60, 60)
      || AtCapacity(numCpus, r120, 120) || AtCapacity(numCpus, r300, 300)
  {
    OverCapacityIff(r10, numCpus, 10);
    OverCapacityIff(r60, numCpus, 60);
    OverCapacityIff(r120, numCpus, 120);
    OverCapacityIff(r300, numCpus, 300);
  }

  lemma {:induction false} WindowAtLeast(samples: seq<Sample>, cutoff: int, lo: nat)
    requires forall i :: 0 <= i < |samples| && samples[i].timestamp >= cutoff ==> samples[i].value >= lo
    ensures Sum(InWindow(samples, cutoff)) >= lo * |InWindow(samples, cutoff)|
  {
    if samples != [] {
      WindowAtLeast(samples[1..], cutoff, lo);
      if samples[0].timestamp >= cutoff {
        var rest := InWindow(samples[1..], cutoff);
        assert ([samples[0]] + rest)[1..] == rest;
        assert lo * (|rest| + 1) == lo * |rest| + lo;
      } else {
        assert [] + InWindow(samples[1..], cutoff) == InWindow(samples[1..], cutoff);
      }
    }
  }

  /** After the first `k` events of a run the counter stands at the bound or above, and so it did
      after each of its changes recorded within the window. */
  predicate BusyAt(events: seq<Event>, k: nat, now: int, bound: nat, seconds: nat)
    requires k <= |events|
  {
    var w := Run(events[..k]);
    w.active >= bound
    && forall i :: 0 <= i < |w.log| && w.log[i].sample.timestamp >= now - seconds * 1_000_000_000 ==>
         w.log[i].event < |w.history| && w.history[w.log[i].event] >= bound
  }

  lemma BusyReading(events: seq<Event>, k: nat, now: int, numCpus: nat, seconds: nat)
    requires k <= |events| <= USIZE_MAX && BusyAt(events, k, now, numCpus, seconds)
    ensures AtCapacity(numCpus, ReadAt(events, k, now), seconds)
  {
    var w, cutoff := Run(events[..k]), now - seconds * 1_000_000_000;
    AlwaysInv(events[..k]);
    forall i | 0 <= i < |w.samples| && w.samples[i].timestamp >= cutoff ensures w.samples[i].value >= numCpus {
      var j := |w.log| - |w.samples| + i;
      assert w.samples[i] == SamplesOf(w.log)[j] == w.log[j].sample;
    }
    WindowAtLeast(w.samples, cutoff, numCpus);
  }

  /** A counter at the number of CPUs or above throughout any one of the four windows raises the
      alarm, with its averages taken whenever and at whatever points of the run. */
  lemma BusyRunRaisesAlarm(events: seq<Event>, numCpus: nat, k10: nat, k60: nat, k120: nat, k300: nat,
                           t10: int, t60: int, t120: int, t300: int)
    requires numCpus > 0 && |events| <= USIZE_MAX
    requires k10 <= |events| && k60 <= |events| && k120 <= |events| && k300 <= |events|
    requires BusyAt(events, k10, t10, numCpus, 10) || BusyAt(events, k60, t60, numCpus, 60)
          || BusyAt(events, k120, t120, numCpus, 120) || BusyAt(events, k300, t300, numCpus, 300)
    ensures AlarmOf(numCpus, ReadAt(events, k10, t10), ReadAt(events, k60, t60),
                    ReadAt(events, k120, t120), ReadAt(events, k300, t300))
  {
    if BusyAt(events, k10, t10, numCpus, 10) { BusyReading(events, k10, t10, numCpus, 10); }
    if BusyAt(events, k60, t60, numCpus, 60) { BusyReading(events, k60, t60, numCpus, 60); }
    if BusyAt(events, k120, t120, numCpus, 120) { BusyReading(events, k120, t120, numCpus, 120); }
    if BusyAt(events, k300, t300, numCpus, 300) { BusyReading(events, k300, t300, numCpus, 300); }
    AlarmIff(numCpus, ReadAt(events, k10, t10), ReadAt(events, k60, t60),
             ReadAt(events, k120, t120), ReadAt(events, k300, t300));
  }

  lemma QuotientAtLeast(sum: nat, n: nat, bound: nat)
    requires n > 0
    ensures sum as real / n as real >= bound as real <==> sum >= bound * n
  {
    assert (bound * n) as real == bound as real * n as real;
    assert sum as real == (sum as real / n as real) * n as real;
  }
}
