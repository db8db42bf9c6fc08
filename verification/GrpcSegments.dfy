/** What a gRPC decode stream means: the segments its messages form and the options each
    segment is decoded with (src/grpc.rs). */
module GrpcSegments {
  import opened Prelude
  import opened Decoder
  import opened Options

  datatype Message = Message(data: Bytes, options: Option<Requested>, newSegment: bool)

  /** The data of a segment's messages, of which the empty ones feed nothing to its decoder. */
  datatype Segment = Segment(options: DecodeOptions, feeds: seq<Bytes>)

  /** The first message starts a segment, and so does every message that says so. */
  predicate Starts(msgs: seq<Message>, i: nat)
    requires i < |msgs|
  {
    i == 0 || msgs[i].newSegment
  }

  /** The options in force after the given messages. */
  function CurrentOptions(defaults: DecodeOptions, msgs: seq<Message>): DecodeOptions {
    if msgs == [] then defaults
    else
      var n := |msgs| - 1;
      if Starts(msgs, n) && msgs[n].options.Some? then Resolve(msgs[n].options.value, defaults)
      else CurrentOptions(defaults, msgs[..n])
  }

  function Extended(segs: seq<Segment>, data: Bytes): seq<Segment>
    requires segs != []
  {
    var n := |segs| - 1;
    segs[n := segs[n].(feeds := segs[n].feeds + [data])]
  }

  function Segments(defaults: DecodeOptions, msgs: seq<Message>): (segs: seq<Segment>)
    ensures segs == [] <==> msgs == []
  {
    if msgs == [] then []
    else
      var n := |msgs| - 1;
      var before := Segments(defaults, msgs[..n]);
      if Starts(msgs, n) then before + [Segment(CurrentOptions(defaults, msgs), [msgs[n].data])]
      else Extended(before, msgs[n].data)
  }

  /** The options in force and the segments after one more message. */
  function NextOptions(defaults: DecodeOptions, options: DecodeOptions, segs: seq<Segment>, m: Message): DecodeOptions {
    if (segs == [] || m.newSegment) && m.options.Some? then Resolve(m.options.value, defaults) else options
  }

  function NextSegments(defaults: DecodeOptions, options: DecodeOptions, segs: seq<Segment>, m: Message): seq<Segment> {
    if segs == [] || m.newSegment then
      segs + [Segment(NextOptions(defaults, options, segs, m), [m.data])]
    else Extended(segs, m.data)
  }

  lemma OneMoreMessage(defaults: DecodeOptions, msgs: seq<Message>, i: nat)
    requires i < |msgs|
    ensures var segs, options := Segments(defaults, msgs[..i]), CurrentOptions(defaults, msgs[..i]);
      && Segments(defaults, msgs[..i + 1]) == NextSegments(defaults, options, segs, msgs[i])
      && CurrentOptions(defaults, msgs[..i + 1]) == NextOptions(defaults, options, segs, msgs[i])
  {
    assert msgs[..i + 1][..i] == msgs[..i];
    assert Starts(msgs[..i + 1], i) == Starts(msgs, i);
  }

  /** Some first segments of a stream; the last of them complete, or fed with its first messages. */
  predicate Reached(segs: seq<Segment>, all: seq<Segment>, whole: bool) {
    && |segs| <= |all|
    && (forall k :: 0 <= k < |segs| - 1 ==> segs[k] == all[k])
    && (segs != [] ==>
         var n := |segs| - 1;
         segs[n].options == all[n].options && segs[n].feeds <= all[n].feeds && (whole ==> segs[n] == all[n]))
  }

  lemma ReachedTransitive(a: seq<Segment>, b: seq<Segment>, c: seq<Segment>, whole: bool)
    requires Reached(a, b, whole) && Reached(b, c, false) && (whole ==> |a| < |b|)
    ensures Reached(a, c, whole)
  {
  }

  lemma WhollyReached(segs: seq<Segment>, all: seq<Segment>)
    requires Reached(segs, all, true)
    ensures segs == all[..|segs|]
  {
  }

  /** A segment-starting message leaves the segments before as they are and adds one. */
  lemma StartStages(defaults: DecodeOptions, options: DecodeOptions, segs: seq<Segment>, m: Message)
    requires segs == [] || m.newSegment
    ensures var started := segs + [Segment(NextOptions(defaults, options, segs, m), [])];
      var next := NextSegments(defaults, options, segs, m);
      Extended(started, m.data) == next && |next| == |segs| + 1 && Reached(segs, next, true)
  {
    assert [] + [m.data] == [m.data];
  }

  lemma NextIsReached(defaults: DecodeOptions, options: DecodeOptions, segs: seq<Segment>, m: Message)
    ensures Reached(segs, NextSegments(defaults, options, segs, m), false)
  {
    if segs == [] || m.newSegment { StartStages(defaults, options, segs, m); }
  }

  lemma ExtendedLast(segs: seq<Segment>, seg: Segment, data: Bytes)
    ensures Extended(segs + [seg], data) == segs + [seg.(feeds := seg.feeds + [data])]
  {
  }

  lemma {:induction false} EarlierIsReached(defaults: DecodeOptions, msgs: seq<Message>, i: nat)
    requires i <= |msgs|
    ensures Reached(Segments(defaults, msgs[..i]), Segments(defaults, msgs), false)
    decreases |msgs| - i
  {
    if i == |msgs| {
      assert msgs[..i] == msgs;
    } else {
      EarlierIsReached(defaults, msgs, i + 1);
      OneMoreMessage(defaults, msgs, i);
      NextIsReached(defaults, CurrentOptions(defaults, msgs[..i]), Segments(defaults, msgs[..i]), msgs[i]);
      ReachedTransitive(Segments(defaults, msgs[..i]), Segments(defaults, msgs[..i + 1]), Segments(defaults, msgs),
                        false);
    }
  }

  // ---------------------------------------------------------------- options

  /** The latest message that both starts a segment and carries options, if any. */
  predicate LatestSetting(msgs: seq<Message>, k: nat) {
    && k < |msgs| && Starts(msgs, k) && msgs[k].options.Some?
    && (forall j :: k < j < |msgs| && Starts(msgs, j) ==> msgs[j].options.None?)
  }

  /** The options in force are what that message alone asks for, each field it leaves at zero
      the server's default; with no such message they are the server's defaults. */
  lemma {:induction false} OptionsComeFromLatestSetting(defaults: DecodeOptions, msgs: seq<Message>)
    ensures forall k: nat :: LatestSetting(msgs, k) ==>
      Gives(msgs[k].options.value, defaults, CurrentOptions(defaults, msgs))
    ensures (forall k: nat :: !LatestSetting(msgs, k)) ==> CurrentOptions(defaults, msgs) == defaults
    decreases |msgs|
  {
    if msgs != [] {
      var n := |msgs| - 1;
      var before := msgs[..n];
      OptionsComeFromLatestSetting(defaults, before);
      assert forall j :: 0 <= j < n ==> before[j] == msgs[j] && Starts(before, j) == Starts(msgs, j);
      if Starts(msgs, n) && msgs[n].options.Some? {
        assert LatestSetting(msgs, n);
        ResolveGives(msgs[n].options.value, defaults, CurrentOptions(defaults, msgs));
      } else {
        forall k: nat ensures LatestSetting(before, k) <==> LatestSetting(msgs, k) {}
      }
    }
  }

  /** The same messages with other options on those that do not start a segment. */
  predicate SameButContinuations(a: seq<Message>, b: seq<Message>) {
    |a| == |b| &&
    forall i :: 0 <= i < |a| ==>
      && a[i].data == b[i].data && a[i].newSegment == b[i].newSegment
      && (Starts(a, i) ==> a[i].options == b[i].options)
  }

  /** Options on continuation messages have no effect. */
  lemma {:induction false} ContinuationOptionsIgnored(defaults: DecodeOptions, a: seq<Message>, b: seq<Message>)
    requires SameButContinuations(a, b)
    ensures Segments(defaults, a) == Segments(defaults, b)
    ensures CurrentOptions(defaults, a) == CurrentOptions(defaults, b)
    decreases |a|
  {
    if a != [] {
      var n := |a| - 1;
      ContinuationOptionsIgnored(defaults, a[..n], b[..n]);
    }
  }

  /** No message's data is lost or moved to another segment's place: the segments' feeds,
      joined, are the messages' data, and there is a segment for each starting message. */
  lemma {:induction false} SegmentsPartitionData(defaults: DecodeOptions, msgs: seq<Message>)
    ensures Flatten(SegmentFeeds(Segments(defaults, msgs))) == MessageData(msgs)
    ensures |Segments(defaults, msgs)| == CountStarts(msgs)
    decreases |msgs|
  {
    if msgs != [] {
      var n := |msgs| - 1;
      var before, data := Segments(defaults, msgs[..n]), msgs[n].data;
      SegmentsPartitionData(defaults, msgs[..n]);
      if Starts(msgs, n) {
        var seg := Segment(CurrentOptions(defaults, msgs), [data]);
        SegmentFeedsAppend(before, seg);
        FlattenAppend(SegmentFeeds(before), seg.feeds);
      } else {
        var m := |before| - 1;
        assert before == before[..m] + [before[m]];
        ExtendedLast(before[..m], before[m], data);
        SegmentFeedsAppend(before[..m], before[m]);
        SegmentFeedsAppend(before[..m], before[m].(feeds := before[m].feeds + [data]));
        FlattenAppend(SegmentFeeds(before[..m]), before[m].feeds);
        FlattenAppend(SegmentFeeds(before[..m]), before[m].feeds + [data]);
        Assoc(Flatten(SegmentFeeds(before[..m])), before[m].feeds, [data]);
      }
    }
  }

  function SegmentFeeds(segs: seq<Segment>): seq<seq<Bytes>> {
    if segs == [] then [] else SegmentFeeds(segs[..|segs| - 1]) + [segs[|segs| - 1].feeds]
  }

  lemma SegmentFeedsAppend(segs: seq<Segment>, seg: Segment)
    ensures SegmentFeeds(segs + [seg]) == SegmentFeeds(segs) + [seg.feeds]
  {
    assert (segs + [seg])[..|segs|] == segs;
  }

  function MessageData(msgs: seq<Message>): seq<Bytes> {
    if msgs == [] then [] else MessageData(msgs[..|msgs| - 1]) + [msgs[|msgs| - 1].data]
  }

  function CountStarts(msgs: seq<Message>): nat {
    if msgs == [] then 0
    else CountStarts(msgs[..|msgs| - 1]) + (if Starts(msgs, |msgs| - 1) then 1 else 0)
  }

  // ---------------------------------------------------------------- a stream written out

  /** A segment as a client writes it: the message that starts it and those that continue it. */
  datatype Script = Script(first: Message, more: seq<Message>)

  /** Only the first message of a stream need not say that it starts a segment. */
  predicate WellWritten(scripts: seq<Script>) {
    forall k :: 0 <= k < |scripts| ==>
      && (k > 0 ==> scripts[k].first.newSegment)
      && forall i :: 0 <= i < |scripts[k].more| ==> !scripts[k].more[i].newSegment
  }

  function Written(scripts: seq<Script>): seq<Message> {
    if scripts == [] then []
    else
      var last := scripts[|scripts| - 1];
      Written(scripts[..|scripts| - 1]) + [last.first] + last.more
  }

  /** Continuing messages add their data to the last segment and change no options. */
  lemma {:induction false} ContinuedSegments(defaults: DecodeOptions, msgs: seq<Message>, more: seq<Message>)
    requires msgs != [] && forall i :: 0 <= i < |more| ==> !more[i].newSegment
    ensures CurrentOptions(defaults, msgs + more) == CurrentOptions(defaults, msgs)
    ensures var before, after := Segments(defaults, msgs), Segments(defaults, msgs + more);
      var n := |before| - 1;
      after == before[..n] + [before[n].(feeds := before[n].feeds + MessageData(more))]
    decreases |more|
  {
    if more == [] {
      assert msgs + more == msgs;
      var before := Segments(defaults, msgs);
      assert before[|before| - 1].feeds + [] == before[|before| - 1].feeds;
    } else {
      var n := |more| - 1;
      SplitLast(msgs, more);
      assert (msgs + more)[..|msgs| + n] == msgs + more[..n];
      ContinuedSegments(defaults, msgs, more[..n]);
      var before := Segments(defaults, msgs);
      var m := |before| - 1;
      ExtendedLast(before[..m], before[m].(feeds := before[m].feeds + MessageData(more[..n])), more[n].data);
      Assoc(before[m].feeds, MessageData(more[..n]), [more[n].data]);
    }
  }

  /** A segment with a script's data, and with the options its first message asks for, each field
      that is left out from the defaults; without options, with those in force before. */
  ghost predicate Serves(defaults: DecodeOptions, before: DecodeOptions, script: Script, seg: Segment) {
    && seg.feeds == [script.first.data] + MessageData(script.more)
    && match script.first.options
       case None => seg.options == before
       case Some(r) => Gives(r, defaults, seg.options)
  }

  /** One script adds one segment, which serves it. */
  lemma ScriptAddsSegment(defaults: DecodeOptions, msgs: seq<Message>, script: Script) returns (seg: Segment)
    requires msgs == [] || script.first.newSegment
    requires forall i :: 0 <= i < |script.more| ==> !script.more[i].newSegment
    ensures var all := msgs + [script.first] + script.more;
      Segments(defaults, all) == Segments(defaults, msgs) + [seg] && seg.options == CurrentOptions(defaults, all)
    ensures Serves(defaults, CurrentOptions(defaults, msgs), script, seg)
  {
    var started := msgs + [script.first];
    assert started[..|msgs|] == msgs;
    ContinuedSegments(defaults, started, script.more);
    if script.first.options.Some? {
      ResolveGives(script.first.options.value, defaults, CurrentOptions(defaults, started));
    }
    seg := Segment(CurrentOptions(defaults, started), [script.first.data] + MessageData(script.more));
  }

  function OptionsBefore(defaults: DecodeOptions, segs: seq<Segment>, k: nat): DecodeOptions
    requires k <= |segs|
  {
    if k == 0 then defaults else segs[k - 1].options
  }

  ghost predicate ServesAll(defaults: DecodeOptions, scripts: seq<Script>, segs: seq<Segment>) {
    && |segs| == |scripts|
    && forall k :: 0 <= k < |segs| ==> Serves(defaults, OptionsBefore(defaults, segs, k), scripts[k], segs[k])
  }

  lemma ServesOneMore(defaults: DecodeOptions, scripts: seq<Script>, segs: seq<Segment>, script: Script, seg: Segment)
    requires ServesAll(defaults, scripts, segs) && Serves(defaults, OptionsBefore(defaults, segs, |segs|), script, seg)
    ensures ServesAll(defaults, scripts + [script], segs + [seg])
  {
    forall k | 0 <= k <= |segs|
      ensures Serves(defaults, OptionsBefore(defaults, segs + [seg], k), (scripts + [script])[k], (segs + [seg])[k])
    {
      assert OptionsBefore(defaults, segs + [seg], k) == OptionsBefore(defaults, segs, k);
      if k < |segs| { assert Serves(defaults, OptionsBefore(defaults, segs, k), scripts[k], segs[k]); }
    }
  }

  lemma LastScript(scripts: seq<Script>)
    requires WellWritten(scripts) && scripts != []
    ensures var init, last := scripts[..|scripts| - 1], scripts[|scripts| - 1];
      && scripts == init + [last] && WellWritten(init)
      && (Written(init) == [] || last.first.newSegment)
      && forall i :: 0 <= i < |last.more| ==> !last.more[i].newSegment
  {
  }

  /** A stream of scripts is decoded in one segment for each script, which serves it. */
  lemma {:induction false} WrittenSegments(defaults: DecodeOptions, scripts: seq<Script>)
    requires WellWritten(scripts)
    ensures var segs := Segments(defaults, Written(scripts));
      && ServesAll(defaults, scripts, segs)
      && CurrentOptions(defaults, Written(scripts)) == OptionsBefore(defaults, segs, |segs|)
    decreases |scripts|
  {
    if scripts != [] {
      var init, last := scripts[..|scripts| - 1], scripts[|scripts| - 1];
      LastScript(scripts);
      WrittenSegments(defaults, init);
      var seg := ScriptAddsSegment(defaults, Written(init), last);
      ServesOneMore(defaults, init, Segments(defaults, Written(init)), last, seg);
    }
  }

  /** And every stream is one of scripts. */
  lemma {:induction false} EveryStreamIsWritten(msgs: seq<Message>) returns (scripts: seq<Script>)
    ensures WellWritten(scripts) && Written(scripts) == msgs
    decreases |msgs|
  {
    if msgs == [] {
      scripts := [];
    } else {
      var n := |msgs| - 1;
      var before := EveryStreamIsWritten(msgs[..n]);
      if Starts(msgs, n) {
        scripts := before + [Script(msgs[n], [])];
        assert scripts[..|before|] == before;
      } else {
        var last := before[|before| - 1];
        scripts := before[|before| - 1 := last.(more := last.more + [msgs[n]])];
        assert scripts[..|before| - 1] == before[..|before| - 1];
        Assoc(Written(before[..|before| - 1]) + [last.first], last.more, [msgs[n]]);
      }
    }
  }
}
