/** Vocabulary shared by every component: bytes, fixed-width unsigned integers,
    optional values, decoded audio, and two facts about sequences. */
module Prelude {

  type byte = b: int | 0 <= b < 0x100
  type u32 = n: int | 0 <= n < 0x1_0000_0000
  type Bytes = seq<byte>

  datatype Option<+T> = None | Some(value: T) {
    function OrElse(other: Option<T>): Option<T> {
      if Some? then this else other
    }
  }

  /** Decoder output: one block of PCM together with the format it is in. */
  datatype Audio = Audio(data: Bytes, rate: u32, channels: byte, bits: byte, isFloat: bool)

  /** What the decoder reports for a stretch of input: audio, or an error message. */
  datatype Item = Pcm(audio: Audio) | Fault(message: string)

  /** The audio among a sequence of reports, in order. */
  function Audios(items: seq<Item>): seq<Audio> {
    if items == [] then []
    else (if items[0].Pcm? then [items[0].audio] else []) + Audios(items[1..])
  }

  lemma {:induction false} AudiosConcat(a: seq<Item>, b: seq<Item>)
    ensures Audios(a + b) == Audios(a) + Audios(b)
  {
    if a == [] {
      assert a + b == b;
    } else {
      assert (a + b)[1..] == a[1..] + b;
      AudiosConcat(a[1..], b);
      var head := if a[0].Pcm? then [a[0].audio] else [];
      assert head + (Audios(a[1..]) + Audios(b)) == (head + Audios(a[1..])) + Audios(b);
    }
  }

  lemma AudiosAppend(a: seq<Item>, x: Item)
    ensures Audios(a + [x]) == Audios(a) + if x.Pcm? then [x.audio] else []
  {
    AudiosConcat(a, [x]);
    assert Audios([x][1..]) == [];
  }

  lemma AudiosPrefix(a: seq<Item>, b: seq<Item>)
    requires a <= b
    ensures Audios(a) <= Audios(b)
  {
    assert b == a + b[|a|..];
    AudiosConcat(a, b[|a|..]);
  }

  /** Moving the head of a queue to the end of what came before it. */
  lemma MoveOne<T>(before: seq<T>, queue: seq<T>)
    requires queue != []
    ensures (before + [queue[0]]) + queue[1..] == before + queue
  {
  }

  lemma Assoc<T>(a: seq<T>, b: seq<T>, c: seq<T>)
    ensures (a + b) + c == a + (b + c)
  {
  }

  lemma SplitLast<T>(a: seq<T>, b: seq<T>)
    requires b != []
    ensures a + b == (a + b[..|b| - 1]) + [b[|b| - 1]]
  {
  }

  lemma PrefixOfSum<T>(a: seq<T>, b: seq<T>, whole: seq<T>)
    requires a + b <= whole
    ensures a <= whole
  {
    assert forall i :: 0 <= i < |a| ==> a[i] == (a + b)[i] == whole[i];
  }

  lemma DropAgain<T>(s: seq<T>, i: nat, j: nat)
    requires i + j <= |s|
    ensures s[i..][j..] == s[i + j..]
  {
  }

  lemma TakeAfterDrop<T>(s: seq<T>, i: nat, j: nat, k: nat)
    requires i + j <= i + k <= |s|
    ensures s[i..][j..k] == s[i + j..i + k]
  {
  }

  /** Between a sequence and its extension. */
  lemma Extends<T>(a: seq<T>, b: seq<T>, s: seq<T>) returns (part: seq<T>)
    requires a <= s <= a + b
    ensures s == a + part && part <= b
  {
    part := s[|a|..];
  }

  lemma PrefixUnder<T>(a: seq<T>, b: seq<T>, c: seq<T>, whole: seq<T>)
    requires b <= c && a + c <= whole
    ensures a + b <= whole
  {
    assert c == b + c[|b|..];
    Assoc(a, b, c[|b|..]);
    PrefixOfSum(a + b, c[|b|..], whole);
  }

  /** The byte strings of a list, joined. */
  function Flatten<T>(parts: seq<seq<T>>): seq<T> {
    if parts == [] then [] else parts[0] + Flatten(parts[1..])
  }

  lemma {:induction false} FlattenConcat<T>(a: seq<seq<T>>, b: seq<seq<T>>)
    ensures Flatten(a + b) == Flatten(a) + Flatten(b)
  {
    if a == [] {
      assert a + b == b;
    } else {
      assert (a + b)[1..] == a[1..] + b;
      FlattenConcat(a[1..], b);
    }
  }

  lemma FlattenAppend<T>(a: seq<seq<T>>, x: seq<T>)
    ensures Flatten(a + [x]) == Flatten(a) + x
  {
    FlattenConcat(a, [x]);
    assert Flatten([x]) == x + Flatten([x][1..]);
  }

  /** The raw bytes of a run of audio. */
  function PcmBytes(audios: seq<Audio>): Bytes {
    if audios == [] then [] else audios[0].data + PcmBytes(audios[1..])
  }

  lemma {:induction false} PcmBytesConcat(a: seq<Audio>, b: seq<Audio>)
    ensures PcmBytes(a + b) == PcmBytes(a) + PcmBytes(b)
  {
    if a == [] {
      assert a + b == b;
    } else {
      assert (a + b)[1..] == a[1..] + b;
      PcmBytesConcat(a[1..], b);
      Assoc(a[0].data, PcmBytes(a[1..]), PcmBytes(b));
    }
  }

  lemma PcmBytesAppend(a: seq<Audio>, x: Audio)
    ensures PcmBytes(a + [x]) == PcmBytes(a) + x.data
  {
    PcmBytesConcat(a, [x]);
    assert PcmBytes([x]) == x.data + PcmBytes([x][1..]);
  }

  lemma PcmBytesPrefix(a: seq<Audio>, b: seq<Audio>)
    requires a <= b
    ensures PcmBytes(a) <= PcmBytes(b)
  {
    assert b == a + b[|a|..];
    PcmBytesConcat(a, b[|a|..]);
  }

  lemma MulMonotone(size: nat, a: nat, b: nat)
    requires a <= b
    ensures size * a <= size * b
  {
  }
}
