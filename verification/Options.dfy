/** Decode options: the query-string parser (src/decode.rs), the merge with the server's
    defaults (src/router.rs), the gRPC resolution (src/grpc.rs) and the use the worker
    makes of the merged bit depth (src/pool.rs). */
module Options {
  import opened Prelude

  datatype DecodeOptions = DecodeOptions(rate: Option<u32>, bits: Option<byte>, channels: Option<byte>)

  const NO_OPTIONS: DecodeOptions := DecodeOptions(None, None, None)

  /** Field by field, `over` where it has a value. */
  function Override(base: DecodeOptions, over: DecodeOptions): DecodeOptions {
    DecodeOptions(over.rate.OrElse(base.rate), over.bits.OrElse(base.bits), over.channels.OrElse(base.channels))
  }

  // ---------------------------------------------------------------- numbers

  predicate IsDigit(c: char) { '0' <= c <= '9' }

  function DigitsValue(s: string): nat
    requires forall i :: 0 <= i < |s| ==> IsDigit(s[i])
  {
    if s == [] then 0
    else
      var last := s[|s| - 1];
      assert IsDigit(last);
      10 * DigitsValue(s[..|s| - 1]) + (last - '0') as nat
  }

  function WithoutPlus(s: string): string {
    if s != [] && s[0] == '+' then s[1..] else s
  }

  /** `str::parse` for an unsigned type with the given largest value: an optional plus sign
      and at least one decimal digit. */
  function ParseUnsigned(s: string, max: nat): (r: Option<nat>)
    ensures r.Some? ==> r.value <= max
  {
    var digits := WithoutPlus(s);
    if digits == [] || exists i :: 0 <= i < |digits| && !IsDigit(digits[i]) then None
    else if DigitsValue(digits) > max then None
    else Some(DigitsValue(digits))
  }

  function Decimal(n: nat): (s: string)
    ensures |s| > 0 && forall i :: 0 <= i < |s| ==> IsDigit(s[i])
    ensures DigitsValue(s) == n
  {
    var last := ['0' + (n % 10) as char];
    if n < 10 then last else Decimal(n / 10) + last
  }

  /** A number written in decimal, with or without a plus sign, parses back if and only if it fits. */
  lemma ParseDecimal(n: nat, max: nat)
    ensures ParseUnsigned(Decimal(n), max) == ParseUnsigned("+" + Decimal(n), max) == if n <= max then Some(n) else None
  {
    var s := Decimal(n);
    assert IsDigit(s[0]);
    assert ("+" + s)[1..] == s;
  }

  // ---------------------------------------------------------------- the query string

  /** The pieces of a string between separators; there is always at least one. */
  function Split(q: string, sep: char): (parts: seq<string>)
    ensures |parts| > 0
  {
    if q == [] then [[]]
    else if q[0] == sep then [[]] + Split(q[1..], sep)
    else
      var rest := Split(q[1..], sep);
      [[q[0]] + rest[0]] + rest[1..]
  }

  lemma {:induction false} SplitJoin(a: string, b: string, sep: char)
    ensures Split(a + [sep] + b, sep) == Split(a, sep) + Split(b, sep)
  {
    if a == [] {
      assert a + [sep] + b == [sep] + b;
      assert ([sep] + b)[1..] == b;
    } else {
      assert (a + [sep] + b)[1..] == a[1..] + [sep] + b;
      SplitJoin(a[1..], b, sep);
      if a[0] != sep {
        var rest := Split(a[1..], sep);
        assert (rest + Split(b, sep))[1..] == rest[1..] + Split(b, sep);
        Assoc([[a[0]] + rest[0]], rest[1..], Split(b, sep));
      } else {
        Assoc([[]], Split(a[1..], sep), Split(b, sep));
      }
    }
  }

  /** The part before the first equals sign. */
  function Key(pair: string): string {
    if pair == [] || pair[0] == '=' then [] else [pair[0]] + Key(pair[1..])
  }

  /** The part after the first equals sign; empty if there is none. */
  function Value(pair: string): string {
    if pair == [] then [] else if pair[0] == '=' then pair[1..] else Value(pair[1..])
  }

  lemma {:induction false} KeyAndValue(key: string, value: string)
    requires '=' !in key
    ensures Key(key + "=" + value) == key && Value(key + "=" + value) == value
  {
    var pair := key + "=" + value;
    if key == [] {
      assert pair == "=" + value;
    } else {
      assert pair[1..] == key[1..] + "=" + value;
      KeyAndValue(key[1..], value);
    }
  }

  function RateIn(pair: string): Option<u32> {
    if Key(pair) in ["sample_rate", "output_sample_rate"] then ParseUnsigned(Value(pair), 0xFFFF_FFFF) else None
  }

  function BitsIn(pair: string): Option<byte> {
    if Key(pair) in ["bits", "output_bits", "bits_per_sample"] then
      match ParseUnsigned(Value(pair), 0xFF)
      case Some(n) => if n == 16 || n == 24 || n == 32 then Some(n) else None
      case None => None
    else None
  }

  function ChannelsIn(pair: string): Option<byte> {
    if Key(pair) in ["channels", "output_channels"] then
      match ParseUnsigned(Value(pair), 0xFF)
      case Some(n) => if 0 < n <= 16 then Some(n) else None
      case None => None
    else None
  }

  function OptionsIn(pair: string): DecodeOptions {
    DecodeOptions(RateIn(pair), BitsIn(pair), ChannelsIn(pair))
  }

  /** The last valid setting of each field among the pairs. */
  function LastOf(pairs: seq<string>): DecodeOptions {
    if pairs == [] then NO_OPTIONS else Override(OptionsIn(pairs[0]), LastOf(pairs[1..]))
  }

  lemma {:induction false} LastOfConcat(a: seq<string>, b: seq<string>)
    ensures LastOf(a + b) == Override(LastOf(a), LastOf(b))
  {
    if a == [] {
      assert a + b == b;
    } else {
      assert (a + b)[1..] == a[1..] + b;
      LastOfConcat(a[1..], b);
    }
  }

  function ParseQuery(q: string): DecodeOptions {
    LastOf(Split(q, '&'))
  }

  lemma OneMorePair(pairs: seq<string>, i: nat)
    requires i < |pairs|
    ensures LastOf(pairs[..i + 1]) == Override(LastOf(pairs[..i]), OptionsIn(pairs[i]))
  {
    assert pairs[..i + 1] == pairs[..i] + [pairs[i]];
    LastOfConcat(pairs[..i], [pairs[i]]);
    assert [pairs[i]][1..] == [];
  }

  /** What one pair does to the options so far. */
  method AssignPair(options0: DecodeOptions, pair: string) returns (options: DecodeOptions)
    ensures options == Override(options0, OptionsIn(pair))
  {
    options := options0;
    var key, value := Key(pair), Value(pair);
    match key
    case "sample_rate" | "output_sample_rate" =>
      var rate := ParseUnsigned(value, 0xFFFF_FFFF);
      if rate.Some? { options := options.(rate := Some(rate.value)); }
    case "bits" | "output_bits" | "bits_per_sample" =>
      var bits := ParseUnsigned(value, 0xFF);
      if bits.Some? && bits.value in {16, 24, 32} { options := options.(bits := Some(bits.value)); }
    case "channels" | "output_channels" =>
      var channels := ParseUnsigned(value, 0xFF);
      if channels.Some? && 0 < channels.value <= 16 { options := options.(channels := Some(channels.value)); }
    case _ =>
  }

  /** `parse_decode_options`. */
  method ParseDecodeOptions(query: Option<string>) returns (options: DecodeOptions)
    ensures options == if query.None? then NO_OPTIONS else ParseQuery(query.value)
  {
    options := NO_OPTIONS;
    if query.None? { return; }
    var pairs := Split(query.value, '&');
    for i := 0 to |pairs|
      invariant options == LastOf(pairs[..i])
    {
      OneMorePair(pairs, i);
      options := AssignPair(options, pairs[i]);
    }
    assert pairs[..|pairs|] == pairs;
  }

  /** Parsing is compositional: of two queries joined by `&`, the second overrides the first,
      field by field. */
  lemma ParseIsCompositional(q1: string, q2: string)
    ensures ParseQuery(q1 + "&" + q2) == Override(ParseQuery(q1), ParseQuery(q2))
  {
    SplitJoin(q1, q2, '&');
    LastOfConcat(Split(q1, '&'), Split(q2, '&'));
  }

  /** A field without a valid value in the later query keeps its earlier value. */
  lemma InvalidNeverErases(q1: string, q2: string)
    ensures ParseQuery(q2).rate.None? ==> ParseQuery(q1 + "&" + q2).rate == ParseQuery(q1).rate
    ensures ParseQuery(q2).bits.None? ==> ParseQuery(q1 + "&" + q2).bits == ParseQuery(q1).bits
    ensures ParseQuery(q2).channels.None? ==> ParseQuery(q1 + "&" + q2).channels == ParseQuery(q1).channels
  {
    ParseIsCompositional(q1, q2);
  }

  /** Only supported bit depths and channel counts come out of any query. */
  predicate Supported(o: DecodeOptions) {
    && (o.bits.Some? ==> o.bits.value in {16, 24, 32})
    && (o.channels.Some? ==> 0 < o.channels.value <= 16)
  }

  lemma {:induction false} LastOfSupported(pairs: seq<string>)
    ensures Supported(LastOf(pairs))
  {
    if pairs != [] { LastOfSupported(pairs[1..]); }
  }

  lemma {:induction false} SplitSingle(q: string, sep: char)
    requires sep !in q
    ensures Split(q, sep) == [q]
  {
    if q != [] {
      SplitSingle(q[1..], sep);
      assert q == [q[0]] + q[1..];
    }
  }

  function Pair(key: string, value: string): string {
    key + "=" + value
  }

  lemma NotInPair(key: string, value: string, c: char)
    requires c !in key && c !in value && c != '='
    ensures c !in Pair(key, value)
  {
  }

  lemma OnePair(key: string, value: string)
    requires '=' !in key && '&' !in key && '&' !in value
    ensures ParseQuery(Pair(key, value)) == OptionsIn(Pair(key, value))
    ensures Key(Pair(key, value)) == key && Value(Pair(key, value)) == value
  {
    var pair := Pair(key, value);
    NotInPair(key, value, '&');
    SplitSingle(pair, '&');
    KeyAndValue(key, value);
    assert LastOf([pair]) == Override(OptionsIn(pair), LastOf([])) by { assert [pair][1..] == []; }
  }

  predicate RateKey(key: string) {
    key == "sample_rate" || key == "output_sample_rate"
  }

  predicate BitsKey(key: string) {
    key == "bits" || key == "output_bits" || key == "bits_per_sample"
  }

  predicate ChannelsKey(key: string) {
    key == "channels" || key == "output_channels"
  }

  /** No key of a field is one of another field, and none holds a separator. */
  lemma KeysAreDistinct(key: string)
    ensures RateKey(key) ==> !BitsKey(key) && !ChannelsKey(key)
    ensures BitsKey(key) ==> !ChannelsKey(key)
    ensures RateKey(key) || BitsKey(key) || ChannelsKey(key) ==> '=' !in key && '&' !in key
  {
    assert "output_sample_rate"[7] == 's' && "output_bits"[7] == 'b' && "output_channels"[7] == 'c';
    assert "sample_rate"[0] == 's' && "bits"[0] == 'b' && "bits_per_sample"[0] == 'b' && "channels"[0] == 'c';
  }

  /** What a pair under one of the keys sets. */
  lemma OptionsUnder(pair: string)
    ensures RateKey(Key(pair)) ==> OptionsIn(pair) == DecodeOptions(ParseUnsigned(Value(pair), 0xFFFF_FFFF), None, None)
    ensures BitsKey(Key(pair)) ==> OptionsIn(pair) == DecodeOptions(None, BitsIn(pair), None)
    ensures ChannelsKey(Key(pair)) ==> OptionsIn(pair) == DecodeOptions(None, None, ChannelsIn(pair))
    ensures !(RateKey(Key(pair)) || BitsKey(Key(pair)) || ChannelsKey(Key(pair))) ==> OptionsIn(pair) == NO_OPTIONS
  {
    KeysAreDistinct(Key(pair));
  }

  lemma DecimalHasNoSeparator(n: nat)
    ensures '&' !in Decimal(n)
  {
    assert !IsDigit('&');
  }

  /** A rate under either of its keys is taken if it fits 32 bits. */
  lemma RateField(key: string, n: nat)
    requires RateKey(key)
    ensures ParseQuery(Pair(key, Decimal(n))) == DecodeOptions(if n <= 0xFFFF_FFFF then Some(n) else None, None, None)
  {
    KeysAreDistinct(key);
    DecimalHasNoSeparator(n);
    OnePair(key, Decimal(n));
    OptionsUnder(Pair(key, Decimal(n)));
    ParseDecimal(n, 0xFFFF_FFFF);
  }

  /** A bit depth under any of its keys is taken if it is 16, 24 or 32. */
  lemma BitsField(key: string, n: nat)
    requires BitsKey(key)
    ensures ParseQuery(Pair(key, Decimal(n))) ==
      DecodeOptions(None, if n == 16 || n == 24 || n == 32 then Some(n) else None, None)
  {
    KeysAreDistinct(key);
    DecimalHasNoSeparator(n);
    OnePair(key, Decimal(n));
    OptionsUnder(Pair(key, Decimal(n)));
    ParseDecimal(n, 0xFF);
  }

  /** A channel count under either of its keys is taken from 1 to 16. */
  lemma ChannelsField(key: string, n: nat)
    requires ChannelsKey(key)
    ensures ParseQuery(Pair(key, Decimal(n))) == DecodeOptions(None, None, if 1 <= n <= 16 then Some(n) else None)
  {
    KeysAreDistinct(key);
    DecimalHasNoSeparator(n);
    OnePair(key, Decimal(n));
    OptionsUnder(Pair(key, Decimal(n)));
    ParseDecimal(n, 0xFF);
  }

  /** The query that asks for the given options under the given keys. */
  function Query(rateKey: string, rate: nat, bitsKey: string, bits: nat, channelsKey: string, channels: nat): string {
    Pair(rateKey, Decimal(rate)) + "&" + (Pair(bitsKey, Decimal(bits)) + "&" + Pair(channelsKey, Decimal(channels)))
  }

  /** What such a query asks for, as far as it is supported. */
  lemma QueryAsks(rateKey: string, rate: nat, bitsKey: string, bits: nat, channelsKey: string, channels: nat)
    requires RateKey(rateKey) && BitsKey(bitsKey) && ChannelsKey(channelsKey)
    ensures ParseQuery(Query(rateKey, rate, bitsKey, bits, channelsKey, channels)) == DecodeOptions(
      if rate <= 0xFFFF_FFFF then Some(rate) else None,
      if bits == 16 || bits == 24 || bits == 32 then Some(bits) else None,
      if 1 <= channels <= 16 then Some(channels) else None)
  {
    var q2, q3 := Pair(bitsKey, Decimal(bits)), Pair(channelsKey, Decimal(channels));
    RateField(rateKey, rate);
    BitsField(bitsKey, bits);
    ChannelsField(channelsKey, channels);
    ParseIsCompositional(Pair(rateKey, Decimal(rate)), q2 + "&" + q3);
    ParseIsCompositional(q2, q3);
  }

  /** A query written out for some options, under any keys, parses back to exactly them if and
      only if they are supported. */
  lemma QueryRoundTrip(rateKey: string, rate: u32, bitsKey: string, bits: byte, channelsKey: string, channels: byte)
    requires RateKey(rateKey) && BitsKey(bitsKey) && ChannelsKey(channelsKey)
    ensures var o := DecodeOptions(Some(rate), Some(bits), Some(channels));
      ParseQuery(Query(rateKey, rate, bitsKey, bits, channelsKey, channels)) == o <==> Supported(o)
  {
    QueryAsks(rateKey, rate, bitsKey, bits, channelsKey, channels);
  }

  /** Not an unsigned decimal number: no digits, or something else among them but one plus sign
      in front. */
  predicate NoNumber(value: string) {
    || value == "" || value == "+"
    || exists i :: 0 <= i < |value| && !IsDigit(value[i]) && (i > 0 || value[i] != '+')
  }

  lemma NoNumberIsNone(value: string, max: nat)
    requires NoNumber(value)
    ensures ParseUnsigned(value, max) == None
  {
    if value == "+" {
      assert value[1..] == "";
    } else if value != "" {
      var i :| 0 <= i < |value| && !IsDigit(value[i]) && (i > 0 || value[i] != '+');
      var digits, k := WithoutPlus(value), if value[0] == '+' then i - 1 else i;
      assert 0 <= k < |digits| && !IsDigit(digits[k]);
    }
  }

  /** A pair with an unknown key, or with a value that is no number, sets nothing. */
  lemma JunkSetsNothing(q: string, key: string, value: string)
    requires '=' !in key && '&' !in key && '&' !in value
    requires NoNumber(value) || !(RateKey(key) || BitsKey(key) || ChannelsKey(key))
    ensures ParseQuery(q + "&" + Pair(key, value)) == ParseQuery(q)
  {
    OnePair(key, value);
    OptionsUnder(Pair(key, value));
    ParseIsCompositional(q, Pair(key, value));
    if NoNumber(value) {
      NoNumberIsNone(value, 0xFFFF_FFFF);
      NoNumberIsNone(value, 0xFF);
    }
  }

  // ---------------------------------------------------------------- defaults

  /** `merge_options`: the query's options over the configured defaults. */
  function MergeOptions(query: DecodeOptions, defaults: DecodeOptions): DecodeOptions {
    Override(defaults, query)
  }

  /** A field that the query sets is the query's, whatever the default; one that it does not
      set is the default of that same field. */
  lemma MergeDecides(query: DecodeOptions, defaults: DecodeOptions)
    ensures var o := MergeOptions(query, defaults);
      && (query.rate.Some? ==> o.rate == query.rate) && (query.rate.None? ==> o.rate == defaults.rate)
      && (query.bits.Some? ==> o.bits == query.bits) && (query.bits.None? ==> o.bits == defaults.bits)
      && (query.channels.Some? ==> o.channels == query.channels)
      && (query.channels.None? ==> o.channels == defaults.channels)
    ensures MergeOptions(NO_OPTIONS, defaults) == defaults && MergeOptions(query, NO_OPTIONS) == query
  {
  }

  /** From the query string to the options in force: what is asked for and supported, and the
      server's default for the rest. */
  lemma AskedOverDefaults(rateKey: string, rate: nat, bitsKey: string, bits: nat, channelsKey: string, channels: nat,
                          defaults: DecodeOptions)
    requires RateKey(rateKey) && BitsKey(bitsKey) && ChannelsKey(channelsKey)
    ensures var q := Query(rateKey, rate, bitsKey, bits, channelsKey, channels);
      MergeOptions(ParseQuery(q), defaults) == DecodeOptions(
        if rate <= 0xFFFF_FFFF then Some(rate) else defaults.rate,
        if bits == 16 || bits == 24 || bits == 32 then Some(bits) else defaults.bits,
        if 1 <= channels <= 16 then Some(channels) else defaults.channels)
  {
    QueryAsks(rateKey, rate, bitsKey, bits, channelsKey, channels);
  }

  /** A gRPC request's options; zero means not given. */
  datatype Requested = Requested(rate: u32, bits: u32, channels: u32)

  /** Each field resolved against the server defaults; bits and channels are cut to a byte. */
  function Resolve(r: Requested, defaults: DecodeOptions): DecodeOptions {
    DecodeOptions(
      if r.rate > 0 then Some(r.rate) else defaults.rate,
      if r.bits > 0 then Some(r.bits % 0x100) else defaults.bits,
      if r.channels > 0 then Some(r.channels % 0x100) else defaults.channels)
  }

  /** What a byte field comes to: the default if nothing is asked, what is asked if it fits, and
      else its low byte. */
  ghost predicate GivesByte(asked: u32, default: Option<byte>, given: Option<byte>) {
    && (asked == 0 ==> given == default)
    && (0 < asked <= 0xFF ==> given == Some(asked))
    && (asked > 0xFF ==> given.Some? && exists q: nat :: asked == 0x100 * q + given.value)
  }

  /** What the options in force come to, field by field. */
  ghost predicate Gives(r: Requested, defaults: DecodeOptions, o: DecodeOptions) {
    && (r.rate == 0 ==> o.rate == defaults.rate) && (r.rate > 0 ==> o.rate == Some(r.rate))
    && GivesByte(r.bits, defaults.bits, o.bits)
    && GivesByte(r.channels, defaults.channels, o.channels)
  }

  lemma ByteIsGiven(asked: u32, default: Option<byte>, given: Option<byte>)
    requires asked > 0
    ensures GivesByte(asked, default, given) <==> given == Some(asked % 0x100)
  {
    if given == Some(asked % 0x100) { assert asked == 0x100 * (asked / 0x100) + given.value; }
    if asked <= 0xFF { assert asked % 0x100 == asked; }
  }

  /** Resolution gives every request exactly that, and asking for nothing gives the defaults. */
  lemma ResolveGives(r: Requested, defaults: DecodeOptions, o: DecodeOptions)
    ensures o == Resolve(r, defaults) <==> Gives(r, defaults, o)
    ensures Resolve(Requested(0, 0, 0), defaults) == defaults
  {
    if r.bits > 0 { ByteIsGiven(r.bits, defaults.bits, o.bits); }
    if r.channels > 0 { ByteIsGiven(r.channels, defaults.channels, o.channels); }
  }

  /** Options written as a request. */
  function Asking(o: DecodeOptions): Requested {
    Requested(o.rate.OrElse(Some(0)).value, o.bits.OrElse(Some(0)).value, o.channels.OrElse(Some(0)).value)
  }

  /** A gRPC request and an HTTP query for the same options have the same effect, if and only if
      the query does not ask for a zero rate other than the default. */
  lemma GrpcAgreesWithHttp(query: DecodeOptions, defaults: DecodeOptions)
    requires Supported(query)
    ensures Resolve(Asking(query), defaults) == MergeOptions(query, defaults)
        <==> (query.rate == Some(0) ==> defaults.rate == Some(0))
  {
  }

  /** Resolution honours exactly the requests that fit into a byte where a byte is kept. */
  lemma ResolveHonoursIffFits(r: Requested, defaults: DecodeOptions)
    ensures
      && (r.bits > 0 ==> (Resolve(r, defaults).bits == Some(r.bits) <==> r.bits <= 0xFF))
      && (r.channels > 0 ==> (Resolve(r, defaults).channels == Some(r.channels) <==> r.channels <= 0xFF))
  {
    if r.bits <= 0xFF { assert r.bits % 0x100 == r.bits; }
    if r.channels <= 0xFF { assert r.channels % 0x100 == r.channels; }
    assert 0 <= r.bits % 0x100 <= 0xFF && 0 <= r.channels % 0x100 <= 0xFF;
  }

  // ---------------------------------------------------------------- the worker's divisor

  function EffectiveBits(o: DecodeOptions): byte {
    if o.bits.Some? then o.bits.value else 16
  }

  /** What the worker divides by to get the duration of its output, under its guard. */
  function Divisor(o: DecodeOptions, rate: u32, channels: byte): nat
    requires rate > 0 && channels > 0
  {
    rate * channels * (EffectiveBits(o) / 8)
  }

  lemma DivisorNonZeroIff(o: DecodeOptions, rate: u32, channels: byte)
    requires rate > 0 && channels > 0
    ensures Divisor(o, rate, channels) != 0 <==> EffectiveBits(o) >= 8
  {
    var sampleBytes := EffectiveBits(o) / 8;
    assert rate * channels > 0;
    assert sampleBytes == 0 ==> rate * channels * sampleBytes == 0;
    assert sampleBytes > 0 ==> rate * channels * sampleBytes > 0;
  }

  /** The depths that a query can ask for take two, three and four bytes for each sample, and
      so does the depth of sixteen bits that is assumed without one. */
  lemma DivisorOfDepths(rate: u32, channels: byte)
    requires rate > 0 && channels > 0
    ensures Divisor(NO_OPTIONS, rate, channels) == rate * channels * 2
    ensures Divisor(DecodeOptions(None, Some(16), None), rate, channels) == rate * channels * 2
    ensures Divisor(DecodeOptions(None, Some(24), None), rate, channels) == rate * channels * 3
    ensures Divisor(DecodeOptions(None, Some(32), None), rate, channels) == rate * channels * 4
  {
  }

  /** The duration the worker logs, in milliseconds; zero before any audio has set the format. */
  function AudioMs(o: DecodeOptions, outputBytes: nat, rate: u32, channels: byte): nat
    requires EffectiveBits(o) >= 8
  {
    if rate > 0 && channels > 0 then
      DivisorNonZeroIff(o, rate, channels);
      outputBytes * 1000 / Divisor(o, rate, channels)
    else 0
  }

  /** So many whole seconds of sixteen-bit audio, given out without a depth asked for, are logged
      as such. */
  lemma SecondsAreLogged(rate: u32, channels: byte, seconds: nat)
    requires rate > 0 && channels > 0
    ensures AudioMs(NO_OPTIONS, seconds * (rate * channels * 2), rate, channels) == 1000 * seconds
  {
    var d := rate * channels * 2;
    DivisorOfDepths(rate, channels);
    assert d > 0;
    assert seconds * d * 1000 == (1000 * seconds) * d;
    QuotientOfProduct(1000 * seconds, d);
  }

  lemma QuotientOfProduct(n: nat, d: nat)
    requires d > 0
    ensures n * d / d == n
  {
    var q := n * d / d;
    assert d * q <= n * d < d * q + d;
    if q < n {
      MulMonotone(d, q + 1, n);
    } else if q > n {
      MulMonotone(d, n + 1, q);
    }
  }

  /** An HTTP job never divides by zero, for any query, if and only if the configured default
      bit depth is absent or at least 8. */
  lemma HttpDivisorSafeIff(defaults: DecodeOptions, rate: u32, channels: byte)
    requires rate > 0 && channels > 0
    ensures (forall q: string :: Divisor(MergeOptions(ParseQuery(q), defaults), rate, channels) != 0)
        <==> (defaults.bits.None? || defaults.bits.value >= 8)
  {
    forall q: string
      ensures Divisor(MergeOptions(ParseQuery(q), defaults), rate, channels) != 0 <==>
        (ParseQuery(q).bits.Some? || defaults.bits.None? || defaults.bits.value >= 8)
    {
      LastOfSupported(Split(q, '&'));
      DivisorNonZeroIff(MergeOptions(ParseQuery(q), defaults), rate, channels);
    }
    assert ParseQuery("").bits.None? by {
      assert Split("", '&') == [""] && [""][1..] == [];
    }
  }

  /** A gRPC job never divides by zero if and only if the depth it asks for, cut to a byte, is
      at least 8, or it asks for none and the default is absent or at least 8. */
  lemma GrpcDivisorSafeIff(r: Requested, defaults: DecodeOptions, rate: u32, channels: byte)
    requires rate > 0 && channels > 0
    ensures Divisor(Resolve(r, defaults), rate, channels) != 0 <==>
      if r.bits > 0 then r.bits % 0x100 >= 8 else defaults.bits.None? || defaults.bits.value >= 8
  {
    DivisorNonZeroIff(Resolve(r, defaults), rate, channels);
  }
}
