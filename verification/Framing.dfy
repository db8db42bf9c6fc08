/** Length-prefixed packets and the chunk-pad-encode and parse-decode loops around a codec
    (src/bin/opus_benchmark.rs). Both backends of the benchmark run these same loops. */
module Framing {
  import opened Prelude

  type i16 = n: int | -0x8000 <= n < 0x8000

  const PREFIX: nat := 4

  // ---------------------------------------------------------------- packets

  /** Little-endian length. */
  function Length(n: u32): (r: Bytes)
    ensures |r| == PREFIX
  {
    [n % 0x100, n / 0x100 % 0x100, n / 0x1_0000 % 0x100, n / 0x100_0000]
  }

  function LengthOf(s: Bytes): u32
    requires |s| >= PREFIX
  {
    var b0: int, b1: int, b2: int, b3: int := s[0], s[1], s[2], s[3];
    b0 + b1 * 0x100 + b2 * 0x1_0000 + b3 * 0x100_0000
  }

  lemma LengthRoundTrip(n: u32, rest: Bytes)
    ensures LengthOf(Length(n) + rest) == n
  {
    var s := Length(n);
    assert n / 0x100_0000 == n / 0x1_0000 / 0x100 && n / 0x1_0000 == n / 0x100 / 0x100;
    assert (s + rest)[0] == s[0] && (s + rest)[1] == s[1] && (s + rest)[2] == s[2] && (s + rest)[3] == s[3];
  }

  /** Four bytes, the low one first. */
  lemma LengthIsLittleEndian(n: u32)
    ensures var r := Length(n);
      |r| == 4 && n == r[0] as int + r[1] as int * 0x100 + r[2] as int * 0x1_0000 + r[3] as int * 0x100_0000
  {
    LengthRoundTrip(n, []);
    assert Length(n) + [] == Length(n);
  }

  /** A packet in the stream; an empty one is left out. */
  function Framed(packet: Bytes): Bytes
    requires |packet| < 0x1_0000_0000
  {
    if packet == [] then [] else Length(|packet|) + packet
  }

  predicate Frameable(packets: seq<Bytes>) {
    forall i :: 0 <= i < |packets| ==> 0 < |packets[i]| < 0x1_0000_0000
  }

  function Stream(packets: seq<Bytes>): Bytes
    requires Frameable(packets)
  {
    if packets == [] then [] else Framed(packets[0]) + Stream(packets[1..])
  }

  /** The packets found in a byte string, and whether it ends before a packet it announced. */
  datatype Parsed = Parsed(packets: seq<Bytes>, truncated: bool)

  /** A parse that has found some packets and has the rest of the stream still to parse. */
  function After(found: seq<Bytes>, rest: Parsed): Parsed {
    Parsed(found + rest.packets, rest.truncated)
  }

  function Parse(s: Bytes): Parsed
    decreases |s|
  {
    if |s| < PREFIX then Parsed([], false)
    else
      var n := LengthOf(s);
      if n == 0 then Parse(s[PREFIX..])
      else if PREFIX + n > |s| then Parsed([], true)
      else
        After([s[PREFIX..PREFIX + n]], Parse(s[PREFIX + n..]))
  }

  lemma ParseFirst(packet: Bytes, rest: Bytes)
    requires 0 < |packet| < 0x1_0000_0000
    ensures Parse(Framed(packet) + rest) == After([packet], Parse(rest))
  {
    var s := Framed(packet) + rest;
    Assoc(Length(|packet|), packet, rest);
    LengthRoundTrip(|packet|, packet + rest);
    assert s[PREFIX..PREFIX + |packet|] == packet;
    assert s[PREFIX + |packet|..] == rest;
  }

  /** A length of zero is skipped. */
  lemma ZeroLengthIsSkipped(rest: Bytes)
    ensures Parse([0, 0, 0, 0] + rest) == Parse(rest)
  {
    assert ([0, 0, 0, 0] + rest)[PREFIX..] == rest;
  }

  /** Parsing a framed stream, whatever follows it, finds exactly its packets first. */
  lemma {:induction false} ParseStream(packets: seq<Bytes>, rest: Bytes)
    requires Frameable(packets)
    ensures Parse(Stream(packets) + rest) == After(packets, Parse(rest))
  {
    if packets == [] {
      assert Stream(packets) + rest == rest;
      assert packets + Parse(rest).packets == Parse(rest).packets;
    } else {
      Assoc(Framed(packets[0]), Stream(packets[1..]), rest);
      ParseFirst(packets[0], Stream(packets[1..]) + rest);
      ParseStream(packets[1..], rest);
      assert packets == [packets[0]] + packets[1..];
      Assoc([packets[0]], packets[1..], Parse(rest).packets);
    }
  }

  lemma PacketRoundTrip(packets: seq<Bytes>)
    requires Frameable(packets)
    ensures Parse(Stream(packets)) == Parsed(packets, false)
  {
    ParseStream(packets, []);
    assert Stream(packets) + [] == Stream(packets) && packets + [] == packets;
  }

  /** A cut inside a packet is noticed exactly if the packet's length survives it. */
  lemma CutFirst(packet: Bytes, cut: nat)
    requires 0 < |packet| < 0x1_0000_0000 && cut < |Framed(packet)|
    ensures Parse(Framed(packet)[..cut]) == Parsed([], cut >= PREFIX)
  {
    if cut >= PREFIX {
      var s := Framed(packet)[..cut];
      assert s == Length(|packet|) + packet[..cut - PREFIX];
      LengthRoundTrip(|packet|, packet[..cut - PREFIX]);
    }
  }

  /** Any cut of a framed stream parses to the packets that lie wholly before the cut, and is
      reported as truncated exactly when the cut leaves the whole length of the next packet
      but not all of its bytes. */
  lemma {:induction false} CutStream(packets: seq<Bytes>, cut: nat) returns (whole: nat, left: nat)
    requires Frameable(packets) && cut <= |Stream(packets)|
    ensures whole <= |packets| && cut == |Stream(packets[..whole])| + left
    ensures if whole == |packets| then left == 0 else left < PREFIX + |packets[whole]|
    ensures Parse(Stream(packets)[..cut]) == Parsed(packets[..whole], left >= PREFIX)
  {
    if packets == [] { return 0, 0; }
    var first, rest := Framed(packets[0]), Stream(packets[1..]);
    if cut < |first| {
      whole, left := 0, cut;
      assert (first + rest)[..cut] == first[..cut];
      CutFirst(packets[0], cut);
    } else {
      var n;
      n, left := CutStream(packets[1..], cut - |first|);
      whole := n + 1;
      assert (first + rest)[..cut] == first + rest[..cut - |first|];
      ParseFirst(packets[0], rest[..cut - |first|]);
      FirstOfMany(packets, n);
    }
  }

  lemma FirstOfMany(packets: seq<Bytes>, n: nat)
    requires n < |packets|
    ensures packets[..n + 1] == [packets[0]] + packets[1..][..n]
    ensures packets[..n + 1][0] == packets[0] && packets[..n + 1][1..] == packets[1..][..n]
  {
  }

  // ---------------------------------------------------------------- frames

  /** The first `n` samples of a chunk followed by zeros. */
  function Padded(chunk: seq<i16>, size: nat): (r: seq<i16>)
    requires |chunk| <= size
    ensures |r| == size
  {
    chunk + Zeros(size - |chunk|)
  }

  function FramesOf(pcm: seq<i16>, size: nat): seq<seq<i16>>
    requires size > 0
    decreases |pcm|
  {
    if pcm == [] then []
    else if |pcm| <= size then [Padded(pcm, size)]
    else [pcm[..size]] + FramesOf(pcm[size..], size)
  }

  function Zeros(n: nat): (r: seq<i16>)
    ensures |r| == n
  {
    seq(n, i => 0)
  }

  lemma Ceiling(n: nat, size: nat, k: nat)
    requires size > 0 && n <= size * k < n + size
    ensures (n + size - 1) / size == k
  {
    var q := (n + size - 1) / size;
    assert size * q <= n + size - 1 < size * q + size;
    if q < k {
      MulMonotone(size, q + 1, k);
    } else if q > k {
      MulMonotone(size, k + 1, q);
    }
  }

  lemma {:induction false} FramesCount(pcm: seq<i16>, size: nat)
    requires size > 0
    ensures |pcm| <= size * |FramesOf(pcm, size)| < |pcm| + size
    ensures forall i :: 0 <= i < |FramesOf(pcm, size)| ==> |FramesOf(pcm, size)[i]| == size
    decreases |pcm|
  {
    if |pcm| > size {
      FramesCount(pcm[size..], size);
      var n := |FramesOf(pcm[size..], size)|;
      assert size * (n + 1) == size * n + size;
    }
  }

  lemma {:induction false} FramesFlatten(pcm: seq<i16>, size: nat)
    requires size > 0
    ensures |pcm| <= size * |FramesOf(pcm, size)|
    ensures Flatten(FramesOf(pcm, size)) == pcm + Zeros(size * |FramesOf(pcm, size)| - |pcm|)
    decreases |pcm|
  {
    var frames := FramesOf(pcm, size);
    FramesCount(pcm, size);
    if pcm != [] && |pcm| <= size {
      assert Flatten(frames[1..]) == [];
    } else if |pcm| > size {
      var rest := pcm[size..];
      var n := |FramesOf(rest, size)|;
      FramesFlatten(rest, size);
      assert frames[1..] == FramesOf(rest, size);
      assert size * (n + 1) == size * n + size;
      Assoc(pcm[..size], rest, Zeros(size * n - |rest|));
      assert pcm == pcm[..size] + rest;
    }
  }

  /** The frames hold the samples followed by fewer than one frame of zeros; there are
      ceil(samples / size) of them, all of the full size. */
  lemma FramesHoldSamples(pcm: seq<i16>, size: nat)
    requires size > 0
    ensures var frames, n := FramesOf(pcm, size), (|pcm| + size - 1) / size;
      && (forall i :: 0 <= i < |frames| ==> |frames[i]| == size)
      && |frames| == n && 0 <= size * n - |pcm| < size
      && Flatten(frames) == pcm + Zeros(size * n - |pcm|)
  {
    FramesCount(pcm, size);
    FramesFlatten(pcm, size);
    Ceiling(|pcm|, size, |FramesOf(pcm, size)|);
  }

  // ---------------------------------------------------------------- encoding and decoding

  datatype Error = CodecError(message: string) | TruncatedStream
  datatype Result<+T> = Ok(value: T) | Err(error: Error)

  /** A stateful encoder and decoder, as functions of everything they have been given. */
  type Encoder = seq<seq<i16>> -> Result<Bytes>
  type Decoder = seq<Bytes> -> Result<seq<i16>>

  const MAX_PACKET: nat := 1500

  /** The encoder writes into a buffer of 1500 bytes. */
  ghost predicate FitsBuffer(enc: Encoder) {
    forall frames :: enc(frames).Ok? ==> |enc(frames).value| <= MAX_PACKET
  }

  /** Encoding frame after frame; the first error ends it. */
  function EncodeFrames(enc: Encoder, frames: seq<seq<i16>>): Result<Bytes>
    requires FitsBuffer(enc)
  {
    if frames == [] then Ok([])
    else
      match EncodeFrames(enc, frames[..|frames| - 1])
      case Err(e) => Err(e)
      case Ok(before) =>
        match enc(frames)
        case Err(e) => Err(e)
        case Ok(packet) => Ok(before + Framed(packet))
  }

  /** Decoding packet after packet; the first error ends it. */
  function DecodePackets(dec: Decoder, packets: seq<Bytes>): Result<seq<i16>> {
    if packets == [] then Ok([])
    else
      match DecodePackets(dec, packets[..|packets| - 1])
      case Err(e) => Err(e)
      case Ok(before) =>
        match dec(packets)
        case Err(e) => Err(e)
        case Ok(samples) => Ok(before + samples)
  }

  function DecodeStream(dec: Decoder, s: Bytes): Result<seq<i16>> {
    var parsed := Parse(s);
    match DecodePackets(dec, parsed.packets)
    case Err(e) => Err(e)
    case Ok(samples) => if parsed.truncated then Err(TruncatedStream) else Ok(samples)
  }

  /** Zeroing the reused frame buffer, then copying a chunk to its front. */
  method LoadFrame(frame: array<i16>, chunk: seq<i16>)
    requires |chunk| <= frame.Length
    modifies frame
    ensures frame[..] == Padded(chunk, frame.Length)
  {
    for i := 0 to frame.Length
      invariant forall j :: 0 <= j < i ==> frame[j] == 0
    {
      frame[i] := 0;
    }
    for i := 0 to |chunk|
      invariant forall j :: 0 <= j < i ==> frame[j] == chunk[j]
      invariant forall j :: i <= j < frame.Length ==> frame[j] == 0
    {
      frame[i] := chunk[i];
    }
  }

  /** The end of the chunk that starts at `i`. */
  function ChunkEnd(pcm: seq<i16>, size: nat, i: nat): (end: nat)
    requires size > 0 && i < |pcm|
    ensures i < end <= |pcm| && end - i <= size
  {
    if i + size < |pcm| then i + size else |pcm|
  }

  lemma NextFrame(pcm: seq<i16>, size: nat, i: nat)
    requires size > 0 && i < |pcm|
    ensures var end := ChunkEnd(pcm, size, i);
      FramesOf(pcm[i..], size) == [Padded(pcm[i..end], size)] + FramesOf(pcm[end..], size)
  {
    var rest, end := pcm[i..], ChunkEnd(pcm, size, i);
    assert pcm[i..end] == rest[..end - i] && pcm[end..] == rest[end - i..];
    if i + size < |pcm| {
      assert Padded(rest[..size], size) == rest[..size];
    } else {
      assert rest[..end - i] == rest;
    }
  }

  lemma EncodeErrorStays(enc: Encoder, frames: seq<seq<i16>>, more: seq<seq<i16>>)
    requires FitsBuffer(enc) && EncodeFrames(enc, frames).Err?
    ensures EncodeFrames(enc, frames + more) == EncodeFrames(enc, frames)
    decreases |more|
  {
    if more == [] {
      assert frames + more == frames;
    } else {
      var n := |more| - 1;
      SplitLast(frames, more);
      EncodeErrorStays(enc, frames, more[..n]);
      assert (frames + more)[..|frames + more| - 1] == frames + more[..n];
    }
  }

  lemma EncodeOneMore(enc: Encoder, frames: seq<seq<i16>>, frame: seq<i16>)
    requires FitsBuffer(enc) && EncodeFrames(enc, frames).Ok?
    ensures EncodeFrames(enc, frames + [frame]) ==
      match enc(frames + [frame])
      case Err(e) => Err(e)
      case Ok(packet) => Ok(EncodeFrames(enc, frames).value + Framed(packet))
  {
    assert (frames + [frame])[..|frames|] == frames;
  }

  /** Encoding succeeds if and only if every frame does, and fails as the first that does not. */
  lemma {:induction false} FirstEncodeError(enc: Encoder, frames: seq<seq<i16>>)
    requires FitsBuffer(enc)
    ensures var r := EncodeFrames(enc, frames);
      && (r.Ok? <==> forall k :: 0 < k <= |frames| ==> enc(frames[..k]).Ok?)
      && (r.Err? ==> exists k :: 0 < k <= |frames| && enc(frames[..k]) == Err(r.error)
                                 && forall j :: 0 < j < k ==> enc(frames[..j]).Ok?)
  {
    if frames != [] {
      var n := |frames| - 1;
      FirstEncodeError(enc, frames[..n]);
      assert forall k :: 0 <= k <= n ==> frames[..n][..k] == frames[..k];
      assert frames[..n + 1] == frames;
    }
  }

  /** One iteration on the reused buffer; `packets` grows by the frame's packet, if it has one. */
  method EncodeChunk(enc: Encoder, frame: array<i16>, chunk: seq<i16>, history: seq<seq<i16>>, packets: Bytes)
      returns (r: Result<Bytes>)
    requires |chunk| <= frame.Length && FitsBuffer(enc) && EncodeFrames(enc, history) == Ok(packets)
    modifies frame
    ensures frame[..] == Padded(chunk, frame.Length)
    ensures r == EncodeFrames(enc, history + [Padded(chunk, frame.Length)])
  {
    LoadFrame(frame, chunk);
    EncodeOneMore(enc, history, frame[..]);
    var encoded := enc(history + [frame[..]]);
    if encoded.Err? { return encoded; }
    if |encoded.value| == 0 {
      assert packets + [] == packets;
      return Ok(packets);
    }
    Assoc(packets, Length(|encoded.value|), encoded.value);
    r := Ok(packets + Length(|encoded.value|) + encoded.value);
  }

  /** The encoding loops of both backends: chunk, pad in place, encode, frame. Rust's `chunks`
      panics on a chunk size of zero. */
  method EncodeTrack(enc: Encoder, pcm: seq<i16>, frameSamples: nat) returns (r: Result<Bytes>)
    requires frameSamples > 0 && FitsBuffer(enc)
    ensures r == EncodeFrames(enc, FramesOf(pcm, frameSamples))
  {
    var frame := new i16[frameSamples](_ => 0);
    var history: seq<seq<i16>> := [];
    var packets: Bytes := [];
    var i := 0;
    assert pcm[0..] == pcm;
    assert [] + FramesOf(pcm, frameSamples) == FramesOf(pcm, frameSamples);
    while i < |pcm|
      invariant 0 <= i <= |pcm|
      invariant history + FramesOf(pcm[i..], frameSamples) == FramesOf(pcm, frameSamples)
      invariant EncodeFrames(enc, history) == Ok(packets)
    {
      var end := ChunkEnd(pcm, frameSamples, i);
      NextFrame(pcm, frameSamples, i);
      r := EncodeChunk(enc, frame, pcm[i..end], history, packets);
      Assoc(history, [frame[..]], FramesOf(pcm[end..], frameSamples));
      history := history + [frame[..]];
      if r.Err? {
        EncodeErrorStays(enc, history, FramesOf(pcm[end..], frameSamples));
        return;
      }
      packets, i := r.value, end;
    }
    assert history + [] == history;
    r := Ok(packets);
  }

  lemma DecodeErrorStays(dec: Decoder, packets: seq<Bytes>, more: seq<Bytes>)
    requires DecodePackets(dec, packets).Err?
    ensures DecodePackets(dec, packets + more) == DecodePackets(dec, packets)
    decreases |more|
  {
    if more == [] {
      assert packets + more == packets;
    } else {
      var n := |more| - 1;
      SplitLast(packets, more);
      DecodeErrorStays(dec, packets, more[..n]);
      assert (packets + more)[..|packets + more| - 1] == packets + more[..n];
    }
  }

  lemma DecodeOneMore(dec: Decoder, packets: seq<Bytes>, packet: Bytes)
    requires DecodePackets(dec, packets).Ok?
    ensures DecodePackets(dec, packets + [packet]) ==
      match dec(packets + [packet])
      case Err(e) => Err(e)
      case Ok(samples) => Ok(DecodePackets(dec, packets).value + samples)
  {
    assert (packets + [packet])[..|packets|] == packets;
  }

  /** The k-th packet is the first that fails to decode. */
  predicate FirstFailure(dec: Decoder, packets: seq<Bytes>, k: nat) {
    0 < k <= |packets| && dec(packets[..k]).Err? && forall j :: 0 < j < k ==> dec(packets[..j]).Ok?
  }

  lemma {:induction false} FirstDecodeError(dec: Decoder, packets: seq<Bytes>)
    ensures var r := DecodePackets(dec, packets);
      && (r.Ok? <==> forall k :: 0 < k <= |packets| ==> dec(packets[..k]).Ok?)
      && (r.Err? ==> exists k: nat :: FirstFailure(dec, packets, k) && r == dec(packets[..k]))
  {
    if packets != [] {
      var n := |packets| - 1;
      FirstDecodeError(dec, packets[..n]);
      assert forall k :: 0 <= k <= n ==> packets[..n][..k] == packets[..k];
      assert packets[..n + 1] == packets;
      if DecodePackets(dec, packets[..n]).Ok? {
        assert DecodePackets(dec, packets).Err? ==> FirstFailure(dec, packets, n + 1);
      } else {
        var k: nat :| FirstFailure(dec, packets[..n], k) && DecodePackets(dec, packets[..n]) == dec(packets[..n][..k]);
        assert FirstFailure(dec, packets, k);
      }
    }
  }

  /** Decoding a stream succeeds if and only if every packet found does and none is cut off; the
      first packet that fails decides the error, and a cut only where none does. */
  lemma DecodingFailsFirst(dec: Decoder, s: Bytes)
    ensures var r, packets := DecodeStream(dec, s), Parse(s).packets;
      var good := forall k :: 0 < k <= |packets| ==> dec(packets[..k]).Ok?;
      && (r.Ok? <==> good && !Parse(s).truncated)
      && (good && Parse(s).truncated ==> r == Err(TruncatedStream))
      && forall k: nat :: FirstFailure(dec, packets, k) ==> r == dec(packets[..k])
  {
    var packets := Parse(s).packets;
    FirstDecodeError(dec, packets);
    forall k: nat | FirstFailure(dec, packets, k) ensures DecodeStream(dec, s) == dec(packets[..k]) {
      var k': nat :| FirstFailure(dec, packets, k') && DecodePackets(dec, packets) == dec(packets[..k']);
      assert k == k';
    }
  }

  lemma AfterOne(found: seq<Bytes>, packet: Bytes, rest: Parsed)
    ensures After(found, After([packet], rest)) == After(found + [packet], rest)
  {
    Assoc(found, [packet], rest.packets);
  }

  lemma AfterNothing(rest: Parsed)
    ensures After([], rest) == rest
  {
  }

  lemma AfterNone(found: seq<Bytes>, truncated: bool)
    ensures After(found, Parsed([], truncated)) == Parsed(found, truncated)
  {
    assert found + [] == found;
  }

  lemma LengthAt(stream: Bytes, cursor: nat)
    requires cursor + PREFIX <= |stream|
    ensures LengthOf(stream[cursor..]) == LengthOf(stream[cursor..cursor + PREFIX])
  {
    var a, b := stream[cursor..], stream[cursor..cursor + PREFIX];
    assert a[0] == b[0] && a[1] == b[1] && a[2] == b[2] && a[3] == b[3];
  }

  /** The length at a position of the stream. */
  function Announced(stream: Bytes, cursor: nat): u32
    requires cursor + PREFIX <= |stream|
  {
    LengthOf(stream[cursor..cursor + PREFIX])
  }

  lemma ParseAt(stream: Bytes, cursor: nat, n: nat)
    requires cursor + PREFIX <= |stream| && n == LengthOf(stream[cursor..])
    ensures var body := cursor + PREFIX;
      Parse(stream[cursor..]) ==
        if n == 0 then Parse(stream[body..])
        else if body + n > |stream| then Parsed([], true)
        else After([stream[body..body + n]], Parse(stream[body + n..]))
  {
    DropAgain(stream, cursor, PREFIX);
    if n > 0 && cursor + PREFIX + n <= |stream| {
      DropAgain(stream, cursor, PREFIX + n);
      TakeAfterDrop(stream, cursor, PREFIX, PREFIX + n);
    }
  }

  /** One header and what it announces, in the coordinates of the whole stream. */
  lemma ParseOn(stream: Bytes, cursor: nat, n: nat)
    requires cursor + PREFIX <= |stream| && n == Announced(stream, cursor)
    ensures var body := cursor + PREFIX;
      && (n == 0 ==> Parse(stream[cursor..]) == Parse(stream[body..]))
      && (n > 0 && body + n > |stream| ==> Parse(stream[cursor..]) == Parsed([], true))
      && (n > 0 && body + n <= |stream| ==>
           Parse(stream[cursor..]) == After([stream[body..body + n]], Parse(stream[body + n..])))
  {
    LengthAt(stream, cursor);
    ParseAt(stream, cursor, n);
  }

  lemma FailedOn(dec: Decoder, stream: Bytes, found: seq<Bytes>, rest: Parsed)
    requires Parse(stream) == After(found, rest) && DecodePackets(dec, found).Err?
    ensures DecodeStream(dec, stream) == DecodePackets(dec, found)
  {
    DecodeErrorStays(dec, found, rest.packets);
  }

  lemma ParsedAll(dec: Decoder, stream: Bytes, found: seq<Bytes>, truncated: bool)
    requires Parse(stream) == After(found, Parsed([], truncated)) && DecodePackets(dec, found).Ok?
    ensures DecodeStream(dec, stream) == if truncated then Err(TruncatedStream) else DecodePackets(dec, found)
  {
    AfterNone(found, truncated);
  }

  /** Decoding one packet and keeping its samples. */
  method DecodePacket(dec: Decoder, packet: Bytes, history: seq<Bytes>, decoded: seq<i16>)
      returns (r: Result<seq<i16>>)
    requires DecodePackets(dec, history) == Ok(decoded)
    ensures r == DecodePackets(dec, history + [packet])
  {
    DecodeOneMore(dec, history, packet);
    r := dec(history + [packet]);
    if r.Ok? {
      if |r.value| > 0 {
        r := Ok(decoded + r.value);
      } else {
        assert decoded + r.value == decoded;
        r := Ok(decoded);
      }
    }
  }

  /** What stands at the cursor. */
  datatype Piece = Skipped | Packet(bytes: Bytes) | Cut

  /** Reading one length and the packet it announces; the cursor always advances. */
  method ReadPacket(stream: Bytes, cursor: nat) returns (piece: Piece, next: nat)
    requires cursor + PREFIX <= |stream|
    ensures cursor < next <= |stream|
    ensures Parse(stream[cursor..]) ==
      match piece
      case Skipped => Parse(stream[next..])
      case Packet(bytes) => After([bytes], Parse(stream[next..]))
      case Cut => Parsed([], true)
  {
    var length := Announced(stream, cursor);
    ParseOn(stream, cursor, length);
    next := cursor + PREFIX;
    if length == 0 {
      piece := Skipped;
    } else if next + length > |stream| {
      piece := Cut;
    } else {
      piece, next := Packet(stream[next..next + length]), next + length;
    }
  }

  /** The decoding loops of both backends. On any bytes the cursor advances and stays within
      them; the result is that of decoding the parsed packets. */
  method DecodeTrack(dec: Decoder, stream: Bytes) returns (r: Result<seq<i16>>)
    ensures r == DecodeStream(dec, stream)
  {
    var decoded: seq<i16> := [];
    var history: seq<Bytes> := [];
    var cursor := 0;
    assert stream[0..] == stream;
    AfterNothing(Parse(stream));
    while cursor + PREFIX <= |stream|
      invariant cursor <= |stream|
      invariant Parse(stream) == After(history, Parse(stream[cursor..]))
      invariant DecodePackets(dec, history) == Ok(decoded)
      decreases |stream| - cursor
    {
      var piece;
      piece, cursor := ReadPacket(stream, cursor);
      match piece
      case Skipped =>
      case Cut =>
        ParsedAll(dec, stream, history, true);
        return Err(TruncatedStream);
      case Packet(packet) =>
        AfterOne(history, packet, Parse(stream[cursor..]));
        r := DecodePacket(dec, packet, history, decoded);
        history := history + [packet];
        if r.Err? {
          FailedOn(dec, stream, history, Parse(stream[cursor..]));
          return;
        }
        decoded := r.value;
    }
    ParsedAll(dec, stream, history, false);
    r := Ok(decoded);
  }

  // ---------------------------------------------------------------- lossless round trip

  /** What the last frame of a list adds to the packets: nothing if the encoder made an empty one. */
  function LastPacket(enc: Encoder, frames: seq<seq<i16>>): seq<Bytes> {
    match enc(frames)
    case Ok(p) => if p == [] then [] else [p]
    case Err(_) => []
  }

  /** The packets an encoder makes of a list of frames. */
  function PacketsOf(enc: Encoder, frames: seq<seq<i16>>): seq<Bytes> {
    if frames == [] then [] else PacketsOf(enc, frames[..|frames| - 1]) + LastPacket(enc, frames)
  }

  /** The frames that got a packet. */
  function Kept(enc: Encoder, frames: seq<seq<i16>>): seq<seq<i16>> {
    if frames == [] then []
    else
      var n := |frames| - 1;
      Kept(enc, frames[..n]) + if LastPacket(enc, frames) == [] then [] else [frames[n]]
  }

  /** On these frames the encoder never fails, and from each packet the decoder gives the frame
      back that it was made of. */
  predicate Lossless(enc: Encoder, dec: Decoder, frames: seq<seq<i16>>) {
    frames == [] ||
    var n := |frames| - 1;
    && Lossless(enc, dec, frames[..n]) && enc(frames).Ok?
    && (enc(frames).value != [] ==> dec(PacketsOf(enc, frames)) == Ok(frames[n]))
  }

  /** What encoding and decoding a list of frames come to. */
  ghost predicate RoundTrips(enc: Encoder, dec: Decoder, frames: seq<seq<i16>>)
    requires FitsBuffer(enc)
  {
    var packets := PacketsOf(enc, frames);
    && Frameable(packets) && EncodeFrames(enc, frames) == Ok(Stream(packets))
    && DecodePackets(dec, packets) == Ok(Flatten(Kept(enc, frames)))
  }

  lemma FrameWithPacket(enc: Encoder, dec: Decoder, frames: seq<seq<i16>>)
    requires FitsBuffer(enc) && frames != [] && Lossless(enc, dec, frames) && enc(frames).value != []
    requires RoundTrips(enc, dec, frames[..|frames| - 1])
    ensures RoundTrips(enc, dec, frames)
  {
    var n, p := |frames| - 1, enc(frames).value;
    StreamAppend(PacketsOf(enc, frames[..n]), p);
    DecodeOneMore(dec, PacketsOf(enc, frames[..n]), p);
    FlattenAppend(Kept(enc, frames[..n]), frames[n]);
  }

  lemma FrameWithoutPacket(enc: Encoder, dec: Decoder, frames: seq<seq<i16>>)
    requires FitsBuffer(enc) && frames != [] && Lossless(enc, dec, frames) && enc(frames).value == []
    requires RoundTrips(enc, dec, frames[..|frames| - 1])
    ensures RoundTrips(enc, dec, frames)
  {
    var init := frames[..|frames| - 1];
    assert Stream(PacketsOf(enc, init)) + [] == Stream(PacketsOf(enc, init));
    assert PacketsOf(enc, frames) == PacketsOf(enc, init) && Kept(enc, frames) == Kept(enc, init);
  }

  lemma {:induction false} LosslessFrames(enc: Encoder, dec: Decoder, frames: seq<seq<i16>>)
    requires FitsBuffer(enc) && Lossless(enc, dec, frames)
    ensures RoundTrips(enc, dec, frames)
  {
    if frames != [] {
      LosslessFrames(enc, dec, frames[..|frames| - 1]);
      if enc(frames).value == [] {
        FrameWithoutPacket(enc, dec, frames);
      } else {
        FrameWithPacket(enc, dec, frames);
      }
    }
  }

  lemma {:induction false} StreamAppend(packets: seq<Bytes>, p: Bytes)
    requires Frameable(packets) && 0 < |p| < 0x1_0000_0000
    ensures Frameable(packets + [p]) && Stream(packets + [p]) == Stream(packets) + Framed(p)
  {
    if packets == [] {
      assert [] + [p] == [p] && [p][1..] == [];
      assert Stream([p]) == Framed(p) + Stream([p][1..]);
    } else {
      assert (packets + [p])[1..] == packets[1..] + [p];
      StreamAppend(packets[1..], p);
      Assoc(Framed(packets[0]), Stream(packets[1..]), Framed(p));
    }
  }

  lemma {:induction false} FewerAreShorter(a: seq<seq<i16>>, b: seq<seq<i16>>, size: nat)
    requires size > 0 && |a| < |b|
    requires forall i :: 0 <= i < |a| ==> |a[i]| == size
    requires forall i :: 0 <= i < |b| ==> |b[i]| == size
    ensures |Flatten(a)| < |Flatten(b)|
  {
    if a != [] { FewerAreShorter(a[1..], b[1..], size); }
  }

  lemma {:induction false} KeptSome(enc: Encoder, frames: seq<seq<i16>>, size: nat)
    requires forall i :: 0 <= i < |frames| ==> |frames[i]| == size
    ensures |Kept(enc, frames)| == |PacketsOf(enc, frames)| <= |frames|
    ensures forall i :: 0 <= i < |Kept(enc, frames)| ==> |Kept(enc, frames)[i]| == size
    ensures |Kept(enc, frames)| == |frames| ==> Kept(enc, frames) == frames
  {
    if frames != [] { KeptSome(enc, frames[..|frames| - 1], size); }
  }

  lemma AllKeptIff(enc: Encoder, frames: seq<seq<i16>>, size: nat)
    requires size > 0 && forall i :: 0 <= i < |frames| ==> |frames[i]| == size
    ensures Flatten(Kept(enc, frames)) == Flatten(frames) <==> |PacketsOf(enc, frames)| == |frames|
  {
    KeptSome(enc, frames, size);
    if |Kept(enc, frames)| < |frames| { FewerAreShorter(Kept(enc, frames), frames, size); }
  }

  /** With a codec that is lossless on a track's frames, decoding what was encoded gives the
      frames back that got a packet; that is the track, followed by fewer than one frame of
      zeros, if and only if every frame got one. */
  lemma TrackRoundTrip(enc: Encoder, dec: Decoder, pcm: seq<i16>, size: nat)
    requires size > 0 && FitsBuffer(enc) && Lossless(enc, dec, FramesOf(pcm, size))
    ensures var frames, n := FramesOf(pcm, size), (|pcm| + size - 1) / size;
      && EncodeFrames(enc, frames).Ok? && 0 <= size * n - |pcm| < size
      && var decoded := DecodeStream(dec, EncodeFrames(enc, frames).value);
      && decoded == Ok(Flatten(Kept(enc, frames)))
      && (decoded == Ok(pcm + Zeros(size * n - |pcm|)) <==> |PacketsOf(enc, frames)| == n)
  {
    var frames := FramesOf(pcm, size);
    LosslessFrames(enc, dec, frames);
    PacketRoundTrip(PacketsOf(enc, frames));
    FramesHoldSamples(pcm, size);
    AllKeptIff(enc, frames, size);
  }

  // ---------------------------------------------------------------- a lossless codec

  function Unsigned(x: i16): nat {
    if x < 0 then x + 0x1_0000 else x
  }

  function SampleOf(low: byte, high: byte): i16 {
    var u: int := low + high * 0x100;
    if u < 0x8000 then u else u - 0x1_0000
  }

  /** Two little-endian bytes a sample. */
  function Raw(samples: seq<i16>): (r: Bytes)
    ensures |r| == 2 * |samples|
  {
    if samples == [] then []
    else [Unsigned(samples[0]) % 0x100, Unsigned(samples[0]) / 0x100] + Raw(samples[1..])
  }

  function Unraw(bytes: Bytes): seq<i16> {
    if |bytes| < 2 then [] else [SampleOf(bytes[0], bytes[1])] + Unraw(bytes[2..])
  }

  lemma {:induction false} RawRoundTrip(samples: seq<i16>)
    ensures Unraw(Raw(samples)) == samples
  {
    if samples != [] {
      RawRoundTrip(samples[1..]);
      assert Raw(samples)[2..] == Raw(samples[1..]);
    }
  }

  /** Uncompressed samples, as far as they fit the encoder's buffer. */
  function RawEncode(frames: seq<seq<i16>>): Result<Bytes> {
    if frames == [] then Ok([])
    else if 2 * |frames[|frames| - 1]| > MAX_PACKET then Err(CodecError("frame too long"))
    else Ok(Raw(frames[|frames| - 1]))
  }

  function RawDecode(packets: seq<Bytes>): Result<seq<i16>> {
    if packets == [] then Ok([]) else Ok(Unraw(packets[|packets| - 1]))
  }

  lemma RawLastFrame(frames: seq<seq<i16>>)
    requires frames != [] && 0 < 2 * |frames[|frames| - 1]| <= MAX_PACKET
    requires Lossless(RawEncode, RawDecode, frames[..|frames| - 1])
    ensures Lossless(RawEncode, RawDecode, frames)
    ensures |PacketsOf(RawEncode, frames)| == |PacketsOf(RawEncode, frames[..|frames| - 1])| + 1
  {
    var n := |frames| - 1;
    RawRoundTrip(frames[n]);
    assert LastPacket(RawEncode, frames) == [Raw(frames[n])];
  }

  lemma {:induction false} RawIsLossless(frames: seq<seq<i16>>, size: nat)
    requires 0 < 2 * size <= MAX_PACKET && forall i :: 0 <= i < |frames| ==> |frames[i]| == size
    ensures Lossless(RawEncode, RawDecode, frames)
    ensures |PacketsOf(RawEncode, frames)| == |frames|
  {
    if frames != [] {
      RawIsLossless(frames[..|frames| - 1], size);
      RawLastFrame(frames);
    }
  }

  /** Such a codec exists, so any track in frames that fit makes the round trip with it. */
  lemma RawTrackRoundTrip(pcm: seq<i16>, size: nat)
    requires 0 < 2 * size <= MAX_PACKET
    ensures FitsBuffer(RawEncode) && Lossless(RawEncode, RawDecode, FramesOf(pcm, size))
    ensures var n := (|pcm| + size - 1) / size;
      && EncodeFrames(RawEncode, FramesOf(pcm, size)).Ok? && 0 <= size * n - |pcm| < size
      && DecodeStream(RawDecode, EncodeFrames(RawEncode, FramesOf(pcm, size)).value)
         == Ok(pcm + Zeros(size * n - |pcm|))
  {
    FramesHoldSamples(pcm, size);
    RawIsLossless(FramesOf(pcm, size), size);
    TrackRoundTrip(RawEncode, RawDecode, pcm, size);
  }
}
