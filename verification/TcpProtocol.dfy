/** What a TCP connection means: how its frames split into decode sessions, which frames it
    answers with, and the grammar of those answers (src/tcp_handler.rs). */
module TcpProtocol {
  import opened Prelude
  import opened Decoder
  import opened Session

  // ---------------------------------------------------------------- sessions

  predicate StartsSession(a: Arrival) {
    a.Got? && a.frame.tag.DCOD?
  }

  /** The frames after the one that ends the session at the front; nothing after a read error. */
  function AfterSession(arrivals: seq<Arrival>): (rest: seq<Arrival>)
    ensures |rest| <= |arrivals|
    ensures arrivals != [] ==> |rest| < |arrivals|
  {
    if arrivals == [] || arrivals[0].ReadError? then []
    else if EndsSession(arrivals[0]) then arrivals[1..]
    else AfterSession(arrivals[1..])
  }

  /** The sessions of a connection, each as the source its decoder is fed from. */
  function Sessions(arrivals: seq<Arrival>): seq<Source>
    decreases |arrivals|
  {
    if arrivals == [] || arrivals[0].ReadError? then []
    else if StartsSession(arrivals[0]) then [Tcp(arrivals)] + Sessions(AfterSession(arrivals))
    else Sessions(arrivals[1..])
  }

  /** One frame further into a session. */
  lemma AfterSessionFrom(arrivals: seq<Arrival>, i: nat)
    requires i < |arrivals| && !arrivals[i].ReadError?
    ensures AfterSession(arrivals[i..]) ==
      if EndsSession(arrivals[i]) then arrivals[i + 1..] else AfterSession(arrivals[i + 1..])
    ensures ReadFails(arrivals[i..]) <==> !EndsSession(arrivals[i]) && ReadFails(arrivals[i + 1..])
  {
    assert arrivals[i..][1..] == arrivals[i + 1..];
  }

  /** One frame, or one session, further into a connection. */
  lemma SessionsFrom(arrivals: seq<Arrival>, i: nat)
    requires i < |arrivals| && !arrivals[i].ReadError?
    ensures Sessions(arrivals[i..]) ==
      if StartsSession(arrivals[i]) then [Tcp(arrivals[i..])] + Sessions(AfterSession(arrivals[i..]))
      else Sessions(arrivals[i + 1..])
  {
    assert arrivals[i..][1..] == arrivals[i + 1..];
  }

  /** Some read of the connection fails. */
  predicate AnyReadFails(arrivals: seq<Arrival>) {
    arrivals != [] && (arrivals[0].ReadError? || AnyReadFails(arrivals[1..]))
  }

  lemma AnyReadFailsFrom(arrivals: seq<Arrival>, i: nat)
    requires i < |arrivals| && !arrivals[i].ReadError?
    ensures AnyReadFails(arrivals[i..]) <==> AnyReadFails(arrivals[i + 1..])
  {
    assert arrivals[i..][1..] == arrivals[i + 1..];
  }

  lemma {:induction false} FailedReadIsLast(arrivals: seq<Arrival>)
    requires ReadFails(arrivals)
    ensures AfterSession(arrivals) == [] && AnyReadFails(arrivals)
  {
    if !arrivals[0].ReadError? { FailedReadIsLast(arrivals[1..]); }
  }

  /** A session that can be read to its end leaves a failed read to what follows it. */
  lemma {:induction false} FailedReadIsLater(arrivals: seq<Arrival>)
    requires !ReadFails(arrivals)
    ensures AnyReadFails(AfterSession(arrivals)) <==> AnyReadFails(arrivals)
  {
    if arrivals != [] && !EndsSession(arrivals[0]) { FailedReadIsLater(arrivals[1..]); }
  }

  /** The sessions that can be read to their end: all, or all but the last. */
  function Intact(arrivals: seq<Arrival>): nat {
    var sessions := Sessions(arrivals);
    if sessions != [] && !ReadsCleanly(sessions[|sessions| - 1]) then |sessions| - 1 else |sessions|
  }

  lemma CutSessionIsLast(arrivals: seq<Arrival>)
    requires arrivals != [] && StartsSession(arrivals[0])
    ensures ReadFails(arrivals) ==> |Sessions(arrivals)| == 1
  {
    if ReadFails(arrivals) { FailedReadIsLast(arrivals); }
  }

  lemma {:induction false} OnlyLastFails(arrivals: seq<Arrival>, k: nat)
    requires k < Intact(arrivals)
    ensures ReadsCleanly(Sessions(arrivals)[k])
    decreases |arrivals|
  {
    if k < |Sessions(arrivals)| - 1 {
      if StartsSession(arrivals[0]) {
        CutSessionIsLast(arrivals);
        if k > 0 { OnlyLastFails(AfterSession(arrivals), k - 1); }
      } else {
        OnlyLastFails(arrivals[1..], k);
      }
    }
  }

  lemma {:induction false} CutSessionFailed(arrivals: seq<Arrival>, k: nat)
    requires k < |Sessions(arrivals)| && !ReadsCleanly(Sessions(arrivals)[k])
    ensures AnyReadFails(arrivals)
    decreases |arrivals|
  {
    if !StartsSession(arrivals[0]) {
      CutSessionFailed(arrivals[1..], k);
    } else if k == 0 {
      FailedReadIsLast(arrivals);
    } else {
      CutSessionIsLast(arrivals);
      CutSessionFailed(AfterSession(arrivals), k - 1);
      FailedReadIsLater(arrivals);
    }
  }

  // ---------------------------------------------------------------- a connection written out

  /** A session as a client writes it: the frames before it, its own frames, and the frame that
      ends it. */
  datatype Talk = Talk(noise: seq<Frame>, body: seq<Frame>, end: Frame)

  /** Frames between sessions: anything but DCOD. */
  predicate IsNoise(frames: seq<Frame>) {
    forall i :: 0 <= i < |frames| ==> frames[i].tag != DCOD
  }

  /** Frames within a session: DCOD with data, and anything but DONE. */
  predicate GoesOn(frames: seq<Frame>) {
    forall i :: 0 <= i < |frames| ==> frames[i].tag != DONE && frames[i] != Frame(DCOD, [])
  }

  /** A session starts with DCOD and ends with DONE or with an empty DCOD. */
  predicate Proper(t: Talk) {
    && IsNoise(t.noise) && GoesOn(t.body) && (t.end.tag == DONE || t.end == Frame(DCOD, []))
    && (t.body + [t.end])[0].tag == DCOD
  }

  function Arrived(frames: seq<Frame>): (r: seq<Arrival>)
    ensures |r| == |frames|
  {
    seq(|frames|, i requires 0 <= i < |frames| => Got(frames[i]))
  }

  /** The payloads of the DCOD frames. */
  function DcodData(frames: seq<Frame>): seq<Bytes> {
    if frames == [] then [] else (if frames[0].tag == DCOD then [frames[0].data] else []) + DcodData(frames[1..])
  }

  function TalkFrames(t: Talk): seq<Frame> {
    t.noise + t.body + [t.end]
  }

  function Talks(talks: seq<Talk>): seq<Frame> {
    if talks == [] then [] else TalkFrames(talks[0]) + Talks(talks[1..])
  }

  lemma ArrivedConcat(a: seq<Frame>, b: seq<Frame>)
    ensures Arrived(a + b) == Arrived(a) + Arrived(b)
  {
  }

  lemma ArrivedFirst(frames: seq<Frame>, rest: seq<Arrival>)
    requires frames != []
    ensures var all := Arrived(frames) + rest;
      all != [] && all[0] == Got(frames[0]) && all[1..] == Arrived(frames[1..]) + rest
  {
  }

  lemma {:induction false} NoiseIsSkipped(noise: seq<Frame>, rest: seq<Arrival>)
    requires IsNoise(noise)
    ensures Sessions(Arrived(noise) + rest) == Sessions(rest)
  {
    if noise == [] {
      assert Arrived(noise) + rest == rest;
    } else {
      ArrivedFirst(noise, rest);
      NoiseIsSkipped(noise[1..], rest);
    }
  }

  /** The frames within a session feed their data and leave its end to what follows. */
  lemma {:induction false} BodyGoesOn(body: seq<Frame>, rest: seq<Arrival>)
    requires GoesOn(body)
    ensures var all := Arrived(body) + rest;
      && Fed(Tcp(all)) == DcodData(body) + Fed(Tcp(rest))
      && AfterSession(all) == AfterSession(rest) && (ReadFails(all) <==> ReadFails(rest))
  {
    if body == [] {
      assert Arrived(body) + rest == rest;
      assert [] + Fed(Tcp(rest)) == Fed(Tcp(rest));
    } else {
      ArrivedFirst(body, rest);
      BodyGoesOn(body[1..], rest);
      Assoc(if body[0].tag == DCOD then [body[0].data] else [], DcodData(body[1..]), Fed(Tcp(rest)));
    }
  }

  lemma TalkIsSession(t: Talk, rest: seq<Arrival>) returns (src: Source)
    requires Proper(t)
    ensures Sessions(Arrived(TalkFrames(t)) + rest) == [src] + Sessions(rest)
    ensures Fed(src) == DcodData(t.body) && ReadsCleanly(src)
  {
    var own, after := Arrived(t.body + [t.end]) + rest, [Got(t.end)] + rest;
    assert Arrived(TalkFrames(t)) + rest == Arrived(t.noise) + own;
    assert own == Arrived(t.body) + after && own[0] == Got((t.body + [t.end])[0]);
    assert after[1..] == rest;
    NoiseIsSkipped(t.noise, own);
    BodyGoesOn(t.body, after);
    assert DcodData(t.body) + [] == DcodData(t.body);
    src := Tcp(own);
  }

  /** The end of a connection: noise, perhaps the beginning of a session, and then nothing, or a
      failed read and whatever comes after it. */
  lemma LastWords(noise: seq<Frame>, cut: seq<Frame>, rest: seq<Arrival>)
    requires IsNoise(noise) && GoesOn(cut) && (cut != [] ==> cut[0].tag == DCOD)
    requires rest == [] || rest[0].ReadError?
    ensures var sessions := Sessions(Arrived(noise + cut) + rest);
      if cut == [] then sessions == []
      else |sessions| == 1 && Fed(sessions[0]) == DcodData(cut) && (ReadsCleanly(sessions[0]) <==> rest == [])
  {
    var own := Arrived(cut) + rest;
    assert Arrived(noise + cut) + rest == Arrived(noise) + own;
    NoiseIsSkipped(noise, own);
    BodyGoesOn(cut, rest);
    assert DcodData(cut) + [] == DcodData(cut);
    if cut == [] { assert own == rest; } else { ArrivedFirst(cut, rest); }
  }

  /** A connection is served as it was written: one session for each, fed the data of its DCOD
      frames, and one more for a session that the client's hanging up or a failed read leaves
      unfinished. */
  lemma {:induction false} TalksAreSessions(talks: seq<Talk>, noise: seq<Frame>, cut: seq<Frame>, rest: seq<Arrival>)
    requires forall k :: 0 <= k < |talks| ==> Proper(talks[k])
    requires IsNoise(noise) && GoesOn(cut) && (cut != [] ==> cut[0].tag == DCOD)
    requires rest == [] || rest[0].ReadError?
    ensures var sessions, n := Sessions(Arrived(Talks(talks) + (noise + cut)) + rest), |talks|;
      && |sessions| == (if cut == [] then n else n + 1)
      && (forall k :: 0 <= k < n ==> Fed(sessions[k]) == DcodData(talks[k].body) && ReadsCleanly(sessions[k]))
      && (cut != [] ==> Fed(sessions[n]) == DcodData(cut) && (ReadsCleanly(sessions[n]) <==> rest == []))
    decreases |talks|
  {
    if talks == [] {
      assert Talks(talks) + (noise + cut) == noise + cut;
      LastWords(noise, cut, rest);
    } else {
      var later := Arrived(Talks(talks[1..]) + (noise + cut)) + rest;
      Assoc(TalkFrames(talks[0]), Talks(talks[1..]), noise + cut);
      ArrivedConcat(TalkFrames(talks[0]), Talks(talks[1..]) + (noise + cut));
      Assoc(Arrived(TalkFrames(talks[0])), Arrived(Talks(talks[1..]) + (noise + cut)), rest);
      var src := TalkIsSession(talks[0], later);
      TalksAreSessions(talks[1..], noise, cut, rest);
      forall k | 0 < k < |talks| ensures ([src] + Sessions(later))[k] == Sessions(later)[k - 1] {}
    }
  }

  lemma {:induction false} OneMoreTalk(talks: seq<Talk>, t: Talk)
    ensures Talks(talks + [t]) == Talks(talks) + TalkFrames(t)
  {
    if talks == [] {
      assert [] + [t] == [t] && [t][1..] == [];
    } else {
      assert (talks + [t])[1..] == talks[1..] + [t];
      OneMoreTalk(talks[1..], t);
      Assoc(TalkFrames(talks[0]), Talks(talks[1..]), TalkFrames(t));
    }
  }

  /** One more frame goes on with what was cut off, ends it, or is noise. */
  lemma OneMoreFrame(talks: seq<Talk>, noise: seq<Frame>, cut: seq<Frame>, f: Frame)
      returns (talks': seq<Talk>, noise': seq<Frame>, cut': seq<Frame>)
    requires forall k :: 0 <= k < |talks| ==> Proper(talks[k])
    requires IsNoise(noise) && GoesOn(cut) && (cut != [] ==> cut[0].tag == DCOD)
    ensures forall k :: 0 <= k < |talks'| ==> Proper(talks'[k])
    ensures IsNoise(noise') && GoesOn(cut') && (cut' != [] ==> cut'[0].tag == DCOD)
    ensures Talks(talks') + (noise' + cut') == Talks(talks) + (noise + cut) + [f]
  {
    talks', noise', cut' := talks, noise, cut;
    if cut == [] && f.tag != DCOD {
      noise' := noise + [f];
      assert noise' + [] == (noise + cut) + [f];
      Assoc(Talks(talks), noise + cut, [f]);
    } else if f.tag == DONE || f == Frame(DCOD, []) {
      var t := Talk(noise, cut, f);
      OneMoreTalk(talks, t);
      talks', noise', cut' := talks + [t], [], [];
      Assoc(Talks(talks), noise + cut, [f]);
    } else {
      cut' := cut + [f];
      Assoc(noise, cut, [f]);
      Assoc(Talks(talks), noise + cut, [f]);
    }
  }

  /** And every connection is written so. */
  lemma {:induction false} EveryConnectionIsWritten(arrivals: seq<Arrival>)
      returns (talks: seq<Talk>, noise: seq<Frame>, cut: seq<Frame>, rest: seq<Arrival>)
    ensures forall k :: 0 <= k < |talks| ==> Proper(talks[k])
    ensures IsNoise(noise) && GoesOn(cut) && (cut != [] ==> cut[0].tag == DCOD)
    ensures rest == [] || rest[0].ReadError?
    ensures arrivals == Arrived(Talks(talks) + (noise + cut)) + rest
    decreases |arrivals|
  {
    if arrivals == [] {
      talks, noise, cut, rest := [], [], [], [];
    } else {
      var n := |arrivals| - 1;
      talks, noise, cut, rest := EveryConnectionIsWritten(arrivals[..n]);
      var frames := Talks(talks) + (noise + cut);
      if rest == [] && arrivals[n].Got? {
        talks, noise, cut := OneMoreFrame(talks, noise, cut, arrivals[n].frame);
        ArrivedConcat(frames, [arrivals[n].frame]);
      } else {
        Assoc(Arrived(frames), rest, [arrivals[n]]);
        rest := rest + [arrivals[n]];
      }
    }
  }

  // ---------------------------------------------------------------- answers

  datatype Encoding = Signed | Float

  /** The seven metadata bytes: sample rate (big-endian), channels, bits, encoding. */
  function MetaBytes(rate: u32, channels: byte, bits: byte, encoding: Encoding): (r: Bytes)
    ensures |r| == 7
  {
    [rate / 0x100_0000, rate / 0x1_0000 % 0x100, rate / 0x100 % 0x100, rate % 0x100,
     channels, bits, if encoding.Float? then 1 else 0]
  }

  function BigEndian(b0: int, b1: int, b2: int, b3: int): int {
    b0 * 0x100_0000 + b1 * 0x1_0000 + b2 * 0x100 + b3
  }

  /** `decode_meta`: too little data is an error; an unknown encoding byte means signed. */
  function DecodeMeta(data: Bytes): Option<(u32, byte, byte, Encoding)> {
    if |data| < 7 then None
    else
      Some((BigEndian(data[0], data[1], data[2], data[3]), data[4], data[5], if data[6] == 1 then Float else Signed))
  }

  lemma LastDigit(n: int, rest: int, digit: int)
    requires 0 <= digit < 0x100
    ensures n == rest * 0x100 + digit <==> n / 0x100 == rest && n % 0x100 == digit
  {
  }

  /** Four base-256 digits determine a number, and a number its four digits. */
  lemma Digits(n: int, b0: int, b1: int, b2: int, b3: int)
    requires 0 <= b0 < 0x100 && 0 <= b1 < 0x100 && 0 <= b2 < 0x100 && 0 <= b3 < 0x100
    ensures n == BigEndian(b0, b1, b2, b3) <==>
      n / 0x100_0000 == b0 && n / 0x1_0000 % 0x100 == b1 && n / 0x100 % 0x100 == b2 && n % 0x100 == b3
  {
    LastDigit(n, (b0 * 0x100 + b1) * 0x100 + b2, b3);
    LastDigit(n / 0x100, b0 * 0x100 + b1, b2);
    assert n / 0x1_0000 == n / 0x100 / 0x100;
    LastDigit(n / 0x1_0000, b0, b1);
    assert n / 0x100_0000 == n / 0x1_0000 / 0x100;
  }

  lemma MetaRoundTrip(rate: u32, channels: byte, bits: byte, encoding: Encoding)
    ensures DecodeMeta(MetaBytes(rate, channels, bits, encoding)) == Some((rate, channels, bits, encoding))
  {
    Digits(rate, rate / 0x100_0000, rate / 0x1_0000 % 0x100, rate / 0x100 % 0x100, rate % 0x100);
  }

  /** Decoding then encoding gives the first seven bytes back exactly when the encoding byte
      is one the encoder writes. */
  lemma MetaRoundTripBack(data: Bytes)
    requires |data| >= 7
    ensures var (rate, channels, bits, encoding) := DecodeMeta(data).value;
      MetaBytes(rate, channels, bits, encoding) == data[..7] <==> data[6] <= 1
  {
    var (rate, channels, bits, encoding) := DecodeMeta(data).value;
    Digits(rate, data[0], data[1], data[2], data[3]);
    var last: byte := if encoding.Float? then 1 else 0;
    assert MetaBytes(rate, channels, bits, encoding) == [data[0], data[1], data[2], data[3], data[4], data[5], last];
    assert data[..7] == [data[0], data[1], data[2], data[3], data[4], data[5], data[6]];
    assert MetaBytes(rate, channels, bits, encoding)[6] == last && data[..7][6] == data[6];
  }

  function EncodingOf(a: Audio): Encoding {
    if a.isFloat then Float else Signed
  }

  function MetaFrame(a: Audio): Frame {
    Frame(META, MetaBytes(a.rate, a.channels, a.bits, EncodingOf(a)))
  }

  function PcmFrames(audios: seq<Audio>): (r: seq<Frame>)
    ensures |r| == |audios|
    ensures forall i :: 0 <= i < |r| ==> r[i] == Frame(PCMS, audios[i].data)
  {
    seq(|audios|, i requires 0 <= i < |audios| => Frame(PCMS, audios[i].data))
  }

  /** The answer to a session as far as its audio goes. */
  function Stream(audios: seq<Audio>): seq<Frame> {
    if audios == [] then [] else [MetaFrame(audios[0])] + PcmFrames(audios)
  }

  const DONE_FRAME: Frame := Frame(DONE, [])

  function Answer(audios: seq<Audio>): seq<Frame> {
    Stream(audios) + [DONE_FRAME]
  }

  /** The full answer to a connection. */
  function Answers(c: Codec, sessions: seq<Source>): seq<Frame> {
    if sessions == [] then [] else Answer(Decoded(c, sessions[0])) + Answers(c, sessions[1..])
  }

  lemma {:induction false} AnswersConcat(c: Codec, a: seq<Source>, b: seq<Source>)
    ensures Answers(c, a + b) == Answers(c, a) + Answers(c, b)
  {
    if a == [] {
      assert a + b == b;
    } else {
      assert (a + b)[1..] == a[1..] + b;
      AnswersConcat(c, a[1..], b);
      Assoc(Answer(Decoded(c, a[0])), Answers(c, a[1..]), Answers(c, b));
    }
  }

  lemma AnswersOne(c: Codec, src: Source)
    ensures Answers(c, [src]) == Answer(Decoded(c, src))
  {
    assert [src][1..] == [];
  }

  lemma AnswersFirst(c: Codec, src: Source, later: seq<Source>)
    ensures Answers(c, [src] + later) == Answer(Decoded(c, src)) + Answers(c, later)
  {
    assert ([src] + later)[1..] == later;
  }

  lemma StreamAppend(audios: seq<Audio>, a: Audio)
    ensures Stream(audios + [a]) ==
      Stream(audios) + (if audios == [] then [MetaFrame(a)] else []) + [Frame(PCMS, a.data)]
  {
    assert PcmFrames(audios + [a]) == PcmFrames(audios) + [Frame(PCMS, a.data)];
    if audios != [] {
      assert (audios + [a])[0] == audios[0];
    }
  }

  lemma StreamPrefix(a: seq<Audio>, b: seq<Audio>)
    requires a <= b
    ensures Stream(a) <= Stream(b)
  {
    assert PcmFrames(a) <= PcmFrames(b);
  }

  // ---------------------------------------------------------------- the grammar

  /** A reader of the answers: between sessions, after META with no PCM yet, in the PCM. */
  datatype Reader = Between | AfterMeta | InPcm | Rejected

  function Reading(r: Reader, f: Frame): Reader {
    match (r, f.tag)
    case (Between, META) => if |f.data| == 7 then AfterMeta else Rejected
    case (Between, DONE) => Between
    case (AfterMeta, PCMS) => InPcm
    case (InPcm, PCMS) => InPcm
    case (InPcm, DONE) => Between
    case _ => Rejected
  }

  function ReadAll(r: Reader, frames: seq<Frame>): Reader
    decreases |frames|
  {
    if frames == [] then r else ReadAll(Reading(r, frames[0]), frames[1..])
  }

  lemma {:induction false} ReadConcat(r: Reader, a: seq<Frame>, b: seq<Frame>)
    ensures ReadAll(r, a + b) == ReadAll(ReadAll(r, a), b)
    decreases |a|
  {
    if a == [] {
      assert a + b == b;
    } else {
      assert (a + b)[1..] == a[1..] + b;
      ReadConcat(Reading(r, a[0]), a[1..], b);
    }
  }

  lemma ReadOne(r: Reader, f: Frame)
    ensures ReadAll(r, [f]) == Reading(r, f)
  {
    assert [f][1..] == [];
    assert ReadAll(Reading(r, f), []) == Reading(r, f);
  }

  lemma {:induction false} RejectedStays(frames: seq<Frame>)
    ensures ReadAll(Rejected, frames) == Rejected
    decreases |frames|
  {
    if frames != [] { RejectedStays(frames[1..]); }
  }

  lemma {:induction false} PcmReads(audios: seq<Audio>)
    ensures ReadAll(InPcm, PcmFrames(audios)) == InPcm
  {
    if audios != [] {
      assert PcmFrames(audios)[1..] == PcmFrames(audios[1..]);
      PcmReads(audios[1..]);
    }
  }

  lemma PcmReadsAfterMeta(audios: seq<Audio>)
    requires audios != []
    ensures ReadAll(AfterMeta, PcmFrames(audios)) == InPcm
  {
    assert PcmFrames(audios)[1..] == PcmFrames(audios[1..]);
    PcmReads(audios[1..]);
  }

  lemma AnswerReads(audios: seq<Audio>)
    ensures ReadAll(Between, Answer(audios)) == Between
  {
    ReadOne(InPcm, DONE_FRAME);
    ReadOne(Between, DONE_FRAME);
    ReadConcat(Between, Stream(audios), [DONE_FRAME]);
    if audios != [] {
      assert Stream(audios)[1..] == PcmFrames(audios);
      PcmReadsAfterMeta(audios);
    }
  }

  lemma {:induction false} AnswersRead(c: Codec, sessions: seq<Source>)
    ensures ReadAll(Between, Answers(c, sessions)) == Between
  {
    if sessions != [] {
      AnswerReads(Decoded(c, sessions[0]));
      ReadConcat(Between, Answer(Decoded(c, sessions[0])), Answers(c, sessions[1..]));
      AnswersRead(c, sessions[1..]);
    }
  }

  /** Whatever part of its answers a connection has written, a reader accepts it. */
  lemma AnyPartReads(c: Codec, sessions: seq<Source>, part: seq<Frame>)
    requires part <= Answers(c, sessions)
    ensures ReadAll(Between, part) != Rejected
  {
    var rest := Answers(c, sessions)[|part|..];
    assert Answers(c, sessions) == part + rest;
    ReadConcat(Between, part, rest);
    AnswersRead(c, sessions);
    RejectedStays(rest);
  }

  function CountTag(frames: seq<Frame>, t: Tag): nat {
    if frames == [] then 0 else (if frames[0].tag == t then 1 else 0) + CountTag(frames[1..], t)
  }

  lemma {:induction false} CountConcat(a: seq<Frame>, b: seq<Frame>, t: Tag)
    ensures CountTag(a + b, t) == CountTag(a, t) + CountTag(b, t)
  {
    if a == [] {
      assert a + b == b;
    } else {
      assert (a + b)[1..] == a[1..] + b;
      CountConcat(a[1..], b, t);
    }
  }

  lemma {:induction false} CountInPcm(audios: seq<Audio>, t: Tag)
    ensures CountTag(PcmFrames(audios), t) == if t.PCMS? then |audios| else 0
  {
    if audios != [] {
      assert PcmFrames(audios)[1..] == PcmFrames(audios[1..]);
      CountInPcm(audios[1..], t);
    }
  }

  /** The sessions whose input decodes to some audio. */
  function Audible(c: Codec, sessions: seq<Source>): nat {
    if sessions == [] then 0
    else (if Decoded(c, sessions[0]) != [] then 1 else 0) + Audible(c, sessions[1..])
  }

  lemma CountInAnswer(audios: seq<Audio>, t: Tag)
    ensures CountTag(Answer(audios), t) ==
      match t
      case DONE => 1
      case META => if audios == [] then 0 else 1
      case PCMS => |audios|
      case _ => 0
  {
    CountConcat(Stream(audios), [DONE_FRAME], t);
    assert [DONE_FRAME][1..] == [];
    CountInPcm(audios, t);
    if audios != [] {
      assert Stream(audios)[1..] == PcmFrames(audios);
    }
  }

  /** One DONE per session, one META per session with audio. */
  lemma {:induction false} AnswerCounts(c: Codec, sessions: seq<Source>)
    ensures CountTag(Answers(c, sessions), DONE) == |sessions|
    ensures CountTag(Answers(c, sessions), META) == Audible(c, sessions)
  {
    if sessions != [] {
      var first := Answer(Decoded(c, sessions[0]));
      CountInAnswer(Decoded(c, sessions[0]), DONE);
      CountInAnswer(Decoded(c, sessions[0]), META);
      CountConcat(first, Answers(c, sessions[1..]), DONE);
      CountConcat(first, Answers(c, sessions[1..]), META);
      AnswerCounts(c, sessions[1..]);
    }
  }

  /** No part of a session's answer before its DONE holds one. */
  lemma NoDoneBefore(audios: seq<Audio>, part: seq<Frame>)
    requires part <= Stream(audios)
    ensures CountTag(part, DONE) == 0
  {
    var rest := Stream(audios)[|part|..];
    assert Stream(audios) == part + rest;
    CountConcat(part, rest, DONE);
    CountInAnswer(audios, DONE);
    CountConcat(Stream(audios), [DONE_FRAME], DONE);
    CountOne(DONE_FRAME, DONE);
  }

  lemma CountOne(f: Frame, t: Tag)
    ensures CountTag([f], t) == if f.tag == t then 1 else 0
  {
    assert [f][1..] == [];
  }

  /** On a connection that has answered some sessions and part of the next, the DONE frames
      are as many as the sessions answered. */
  lemma DonesWritten(c: Codec, answered: seq<Source>, src: Source, frames: seq<Frame>)
    requires Answers(c, answered) <= frames <= Answers(c, answered) + Stream(Decoded(c, src))
    ensures CountTag(frames, DONE) == |answered|
  {
    var part := Extends(Answers(c, answered), Stream(Decoded(c, src)), frames);
    AnswerCounts(c, answered);
    NoDoneBefore(Decoded(c, src), part);
    CountConcat(Answers(c, answered), part, DONE);
  }

  /** A session with audio is answered first by the parameters of its first audio: the rate in
      four bytes, the high one first, the channels, the bits, and whether samples are floats. */
  lemma MetaDescribesFirstAudio(c: Codec, src: Source)
    requires Decoded(c, src) != []
    ensures var first := Decoded(c, src)[0]; var f := Answer(Decoded(c, src))[0];
      && f.tag.META? && |f.data| == 7
      && first.rate ==
           f.data[0] as int * 0x100_0000 + f.data[1] as int * 0x1_0000 + f.data[2] as int * 0x100 + f.data[3]
      && first.channels == f.data[4] && first.bits == f.data[5]
      && f.data[6] == (if first.isFloat then 1 else 0)
      && DecodeMeta(f.data) == Some((first.rate, first.channels, first.bits, if first.isFloat then Float else Signed))
  {
    var a := Decoded(c, src)[0];
    MetaRoundTrip(a.rate, a.channels, a.bits, EncodingOf(a));
  }

  /** The PCM that the frames carry. */
  function PcmIn(frames: seq<Frame>): Bytes {
    if frames == [] then [] else (if frames[0].tag == PCMS then frames[0].data else []) + PcmIn(frames[1..])
  }

  lemma {:induction false} PcmInConcat(a: seq<Frame>, b: seq<Frame>)
    ensures PcmIn(a + b) == PcmIn(a) + PcmIn(b)
  {
    if a == [] {
      assert a + b == b;
    } else {
      assert (a + b)[1..] == a[1..] + b;
      PcmInConcat(a[1..], b);
      Assoc(if a[0].tag == PCMS then a[0].data else [], PcmIn(a[1..]), PcmIn(b));
    }
  }

  lemma {:induction false} PcmInFrames(audios: seq<Audio>)
    ensures PcmIn(PcmFrames(audios)) == PcmBytes(audios)
  {
    if audios != [] {
      assert PcmFrames(audios)[1..] == PcmFrames(audios[1..]);
      PcmInFrames(audios[1..]);
    }
  }

  /** A client that joins the PCM of an answer has the bytes of all its audio. */
  lemma AnswerCarriesAudio(audios: seq<Audio>)
    ensures PcmIn(Answer(audios)) == PcmBytes(audios)
  {
    PcmInConcat(Stream(audios), [DONE_FRAME]);
    assert PcmIn([DONE_FRAME]) == [] by { assert [DONE_FRAME][1..] == []; }
    PcmInFrames(audios);
    if audios != [] {
      assert Stream(audios)[1..] == PcmFrames(audios);
    }
  }
}
