/** The error measures of decoded against reference samples (src/bin/opus_benchmark.rs,
    `compare_pcm`), over exact sums. The peak is taken in sixteen-bit arithmetic, which wraps or
    panics on overflow depending on how the program was built. */
module Quality {
  import opened Prelude
  import opened Framing

  function Abs(x: int): nat {
    if x < 0 then -x else x
  }

  // ---------------------------------------------------------------- differences and sums

  function Diff(reference: int, decoded: int): int {
    reference - decoded
  }

  /** Sample by sample difference over the shorter of the two. */
  function Diffs(reference: seq<i16>, decoded: seq<i16>): (ds: seq<int>)
    ensures forall i :: 0 <= i < |ds| ==> Abs(ds[i]) <= 0xFFFF
  {
    seq(if |reference| <= |decoded| then |reference| else |decoded|,
        i requires 0 <= i < |reference| && i < |decoded| => Diff(reference[i], decoded[i]))
  }

  function SumSquares(ds: seq<int>): nat {
    if ds == [] then 0 else SumSquares(ds[..|ds| - 1]) + Square(ds[|ds| - 1])
  }

  function SumAbs(ds: seq<int>): nat {
    if ds == [] then 0 else SumAbs(ds[..|ds| - 1]) + Abs(ds[|ds| - 1])
  }

  function Square(x: int): (r: nat)
    ensures r == Abs(x) * Abs(x)
  {
    assert x < 0 ==> x * x == -x * -x;
    x * x
  }

  /** The largest size of a difference. */
  function Peak(ds: seq<int>): nat {
    if ds == [] then 0
    else
      var before, last := Peak(ds[..|ds| - 1]), Abs(ds[|ds| - 1]);
      if last > before then last else before
  }

  lemma {:induction false} PeakIsMaximum(ds: seq<int>)
    ensures forall i :: 0 <= i < |ds| ==> Abs(ds[i]) <= Peak(ds)
    ensures ds != [] ==> exists i :: 0 <= i < |ds| && Abs(ds[i]) == Peak(ds)
  {
    if |ds| == 1 {
      assert Abs(ds[0]) == Peak(ds);
    } else if |ds| > 1 {
      var n := |ds| - 1;
      PeakIsMaximum(ds[..n]);
      var i :| 0 <= i < n && Abs(ds[..n][i]) == Peak(ds[..n]);
      forall j | 0 <= j < |ds| ensures Abs(ds[j]) <= Peak(ds) {
        if j < n { assert ds[j] == ds[..n][j]; }
      }
      assert Abs(ds[if Abs(ds[n]) > Abs(ds[i]) then n else i]) == Peak(ds);
    }
  }

  // ---------------------------------------------------------------- inequalities

  /** The squared distances of the sizes from any value are not negative. */
  lemma {:induction false} Spread(ds: seq<int>, t: nat)
    ensures SumSquares(ds) + |ds| * (t * t) >= 2 * (SumAbs(ds) * t)
  {
    if ds != [] {
      var n := |ds| - 1;
      Spread(ds[..n], t);
      SpreadStep(SumSquares(ds[..n]), SumAbs(ds[..n]), n, t, Abs(ds[n]));
    }
  }

  lemma SpreadStep(squares: nat, sum: nat, n: nat, t: nat, x: nat)
    requires squares + n * (t * t) >= 2 * (sum * t)
    ensures squares + x * x + (n + 1) * (t * t) >= 2 * ((sum + x) * t)
  {
    assert (n + 1) * (t * t) == n * (t * t) + t * t;
    assert (sum + x) * t == sum * t + x * t;
    assert (x - t) * (x - t) == x * x - 2 * (x * t) + t * t;
    assert (x - t) * (x - t) == Square(x - t);
  }

  /** The square of the summed sizes is at most the number of samples times the summed squares. */
  lemma {:induction false} CauchySchwarz(ds: seq<int>)
    ensures SumAbs(ds) * SumAbs(ds) <= |ds| * SumSquares(ds)
  {
    if ds != [] {
      var n := |ds| - 1;
      CauchySchwarz(ds[..n]);
      Spread(ds[..n], Abs(ds[n]));
      CauchyStep(SumSquares(ds[..n]), SumAbs(ds[..n]), n, Abs(ds[n]));
    }
  }

  lemma CauchyStep(squares: nat, sum: nat, n: nat, x: nat)
    requires sum * sum <= n * squares && squares + n * (x * x) >= 2 * (sum * x)
    ensures (sum + x) * (sum + x) <= (n + 1) * (squares + x * x)
  {
    assert (sum + x) * (sum + x) == sum * sum + 2 * (sum * x) + x * x;
    assert (n + 1) * (squares + x * x) == n * squares + n * (x * x) + squares + x * x;
  }

  lemma PeakStep(squares: nat, sum: nat, n: nat, x: nat, peak: nat)
    requires squares <= peak * sum && sum <= peak * n && x <= peak
    ensures squares + x * x <= peak * (sum + x) && sum + x <= peak * (n + 1)
  {
    assert peak * (sum + x) == peak * sum + peak * x;
    assert peak * (n + 1) == peak * n + peak;
    MulMonotone(x, x, peak);
  }

  lemma {:induction false} SquaresUnderPeak(ds: seq<int>, peak: nat)
    requires forall i :: 0 <= i < |ds| ==> Abs(ds[i]) <= peak
    ensures SumSquares(ds) <= peak * SumAbs(ds) && SumAbs(ds) <= peak * |ds|
  {
    if ds != [] {
      var n := |ds| - 1;
      SquaresUnderPeak(ds[..n], peak);
      PeakStep(SumSquares(ds[..n]), SumAbs(ds[..n]), n, Abs(ds[n]), peak);
    }
  }

  lemma {:induction false} NoErrorIffEqual(ds: seq<int>)
    ensures SumSquares(ds) == 0 <==> forall i :: 0 <= i < |ds| ==> ds[i] == 0
  {
    if ds != [] {
      var n := |ds| - 1;
      NoErrorIffEqual(ds[..n]);
      if ds[n] != 0 {
        MulMonotone(Abs(ds[n]), 1, Abs(ds[n]));
      } else {
        assert forall i :: 0 <= i < n ==> ds[..n][i] == ds[i];
      }
    }
  }

  // ---------------------------------------------------------------- sixteen-bit peak

  function Wrapped(x: int): i16 {
    (x + 0x8000) % 0x1_0000 - 0x8000
  }

  /** The absolute value wraps too: the least value has none. */
  function WrappedAbs(x: i16): i16 {
    if x == -0x8000 then x else Abs(x)
  }

  /** The difference, or its absolute value, does not fit sixteen bits. */
  predicate Overflows(d: int) {
    d > 0x7FFF || d <= -0x8000
  }

  predicate AnyOverflow(ds: seq<int>) {
    exists i :: 0 <= i < |ds| && Overflows(ds[i])
  }

  function WrappedPeak(ds: seq<int>): i16 {
    if ds == [] then 0
    else
      var before, last := WrappedPeak(ds[..|ds| - 1]), WrappedAbs(Wrapped(ds[|ds| - 1]));
      if last > before then last else before
  }

  lemma WrappedAbsExact(d: int)
    requires !Overflows(d)
    ensures WrappedAbs(Wrapped(d)) == Abs(d)
  {
  }

  lemma {:induction false} WrappedPeakFits(ds: seq<int>)
    requires !AnyOverflow(ds)
    ensures WrappedPeak(ds) == Peak(ds)
  {
    if ds != [] {
      var n := |ds| - 1;
      assert forall i :: 0 <= i < n ==> ds[..n][i] == ds[i];
      WrappedPeakFits(ds[..n]);
      WrappedAbsExact(ds[n]);
    }
  }

  lemma PeakTooSmall(ds: seq<int>)
    requires AnyOverflow(ds)
    ensures Peak(ds) > 0x7FFF
  {
    var i :| 0 <= i < |ds| && Overflows(ds[i]);
    PeakIsMaximum(ds);
    assert Abs(ds[i]) >= 0x8000;
  }

  /** The reported peak is the largest error exactly if no difference overflows sixteen bits. */
  lemma PeakRightIff(ds: seq<int>)
    ensures WrappedPeak(ds) == Peak(ds) <==> !AnyOverflow(ds)
  {
    if AnyOverflow(ds) {
      PeakTooSmall(ds);
    } else {
      WrappedPeakFits(ds);
    }
  }

  /** The largest possible error is reported as one. */
  lemma PeakCanBeOne()
    ensures var ds := Diffs([0x7FFF], [-0x8000]);
      Peak(ds) == 0xFFFF && WrappedPeak(ds) == 1
  {
    var ds := Diffs([0x7FFF], [-0x8000]);
    assert ds == [0xFFFF] && ds[..0] == [];
  }

  /** What an error of this size is reported as in sixteen bits: itself if it fits, and else what
      is missing to the full range; the half of the range has no absolute value and is passed over. */
  function ReportedAs(size: nat): int {
    if size < 0x8000 then size else if size == 0x8000 then 0 else 0x1_0000 - size
  }

  lemma WrapReports(d: int)
    requires Abs(d) <= 0xFFFF
    ensures ReportedAs(Abs(d)) == if WrappedAbs(Wrapped(d)) < 0 then 0 else WrappedAbs(Wrapped(d))
  {
  }

  /** The reported peak is the largest of what the errors are reported as. */
  lemma {:induction false} ReportedPeak(ds: seq<int>)
    requires forall i :: 0 <= i < |ds| ==> Abs(ds[i]) <= 0xFFFF
    ensures forall i :: 0 <= i < |ds| ==> ReportedAs(Abs(ds[i])) <= WrappedPeak(ds)
    ensures WrappedPeak(ds) == 0 || exists i :: 0 <= i < |ds| && ReportedAs(Abs(ds[i])) == WrappedPeak(ds)
  {
    if ds != [] {
      var n := |ds| - 1;
      assert forall i :: 0 <= i < n ==> ds[..n][i] == ds[i];
      ReportedPeak(ds[..n]);
      WrapReports(ds[n]);
      if WrappedPeak(ds) == WrappedPeak(ds[..n]) && WrappedPeak(ds) != 0 {
        var i :| 0 <= i < n && ReportedAs(Abs(ds[..n][i])) == WrappedPeak(ds[..n]);
        assert ReportedAs(Abs(ds[i])) == WrappedPeak(ds);
      } else if WrappedPeak(ds) != 0 {
        assert ReportedAs(Abs(ds[n])) == WrappedPeak(ds);
      }
    }
  }

  // ---------------------------------------------------------------- compare_pcm

  /** A mean, before its division. */
  datatype Mean = Mean(sum: nat, count: nat)

  /** The signal-to-noise ratio before its logarithm: the two means whose roots it divides. */
  datatype Ratio = Silent | Infinite | Of(signal: Mean, noise: Mean)

  datatype Measures = Measures(samples: nat, minLen: nat, maxLen: nat, mse: Mean, mae: Mean, maxAbs: i16, snr: Ratio)

  datatype Outcome = Nothing | Panicked | Measured(measures: Measures)

  function SnrOf(signal: nat, noise: nat, n: nat): Ratio
    requires n > 0
  {
    if signal == 0 then Silent else if noise == 0 then Infinite else Of(Mean(signal, n), Mean(noise, n))
  }

  function MeasuresOf(reference: seq<i16>, decoded: seq<i16>): Measures
    requires reference != [] && decoded != []
  {
    var ds := Diffs(reference, decoded);
    var n := |ds|;
    Measures(n, n, if |reference| >= |decoded| then |reference| else |decoded|,
      Mean(SumSquares(ds), n), Mean(SumAbs(ds), n), WrappedPeak(ds),
      SnrOf(SumSquares(reference[..n]), SumSquares(ds), n))
  }

  /** `checks` says whether overflow panics, as in a debug build, or wraps. */
  method ComparePcm(reference: seq<i16>, decoded: seq<i16>, checks: bool) returns (r: Outcome)
    ensures r.Nothing? <==> reference == [] || decoded == []
    ensures r.Panicked? <==> checks && AnyOverflow(Diffs(reference, decoded))
    ensures r.Measured? ==> r.measures == MeasuresOf(reference, decoded)
  {
    ghost var ds := Diffs(reference, decoded);
    var n := if |reference| <= |decoded| then |reference| else |decoded|;
    if n == 0 { return Nothing; }
    var squares, sizes, signal, peak: i16 := 0, 0, 0, 0;
    for i := 0 to n
      invariant squares == SumSquares(ds[..i]) && sizes == SumAbs(ds[..i]) && peak == WrappedPeak(ds[..i])
      invariant signal == SumSquares(reference[..n][..i])
      invariant checks ==> forall j :: 0 <= j < i ==> !Overflows(ds[j])
    {
      var diff := Diff(reference[i], decoded[i]);
      assert ds[..i + 1][..i] == ds[..i] && reference[..n][..i + 1][..i] == reference[..n][..i];
      squares, sizes, signal := squares + Square(diff), sizes + Abs(diff), signal + Square(reference[i]);
      if checks && Overflows(diff) {
        assert Overflows(ds[i]);
        return Panicked;
      }
      var err := WrappedAbs(Wrapped(diff));
      if err > peak { peak := err; }
    }
    assert ds[..n] == ds && reference[..n][..n] == reference[..n];
    r := Measured(Measures(n, n, if |reference| >= |decoded| then |reference| else |decoded|,
      Mean(squares, n), Mean(sizes, n), peak, SnrOf(signal, squares, n)));
  }

  lemma NoDiffIffEqual(reference: seq<i16>, decoded: seq<i16>)
    ensures var ds := Diffs(reference, decoded);
      reference[..|ds|] == decoded[..|ds|] <==> forall i :: 0 <= i < |ds| ==> ds[i] == 0
  {
    var n := |Diffs(reference, decoded)|;
    var a, b := reference[..n], decoded[..n];
    assert (forall i :: 0 <= i < n ==> Diff(a[i], b[i]) == 0) ==> a == b;
    if a == b {
      forall i | 0 <= i < n ensures Diffs(reference, decoded)[i] == 0 {
        assert a[i] == b[i];
      }
    } else {
      var i :| 0 <= i < n && a[i] != b[i];
      assert Diffs(reference, decoded)[i] != 0;
    }
  }

  /** The mean error is at most the root mean square error: the square of the one is at most
      the square of the other. */
  lemma MeanBelowRootMeanSquare(reference: seq<i16>, decoded: seq<i16>)
    requires reference != [] && decoded != []
    ensures var m := MeasuresOf(reference, decoded);
      m.mae.count == m.mse.count == m.minLen && m.mae.sum * m.mae.sum <= m.minLen * m.mse.sum
  {
    CauchySchwarz(Diffs(reference, decoded));
  }

  /** The mean square error vanishes exactly if the compared samples agree. */
  lemma NoErrorIffSame(reference: seq<i16>, decoded: seq<i16>)
    requires reference != [] && decoded != []
    ensures var m := MeasuresOf(reference, decoded);
      m.mse.sum == 0 <==> reference[..m.minLen] == decoded[..m.minLen]
  {
    NoErrorIffEqual(Diffs(reference, decoded));
    NoDiffIffEqual(reference, decoded);
  }

  /** What is compared is the shorter length; the longer one is reported beside it. */
  lemma ComparedLengths(reference: seq<i16>, decoded: seq<i16>)
    requires reference != [] && decoded != []
    ensures var m := MeasuresOf(reference, decoded);
      && m.samples == m.minLen <= m.maxLen && m.minLen + m.maxLen == |reference| + |decoded|
      && (m.minLen == |reference| || m.minLen == |decoded|)
  {
  }

  lemma SilentSignal(reference: seq<i16>, decoded: seq<i16>)
    ensures Diffs(reference, Zeros(|decoded|)) == reference[..|Diffs(reference, decoded)|]
  {
  }

  /** The ratio is silent if and only if the compared reference is all zeros, and else infinite if
      and only if the compared samples agree. Otherwise it divides the reference's own mean square,
      which is its error against silence, by the mean square error. */
  lemma RatioCases(reference: seq<i16>, decoded: seq<i16>)
    requires reference != [] && decoded != []
    ensures var m := MeasuresOf(reference, decoded);
      var silent := forall i :: 0 <= i < m.minLen ==> reference[i] == 0;
      && (m.snr.Silent? <==> silent)
      && (m.snr.Infinite? <==> !silent && reference[..m.minLen] == decoded[..m.minLen])
      && (m.snr.Of? ==> m.snr.noise == m.mse && m.snr.signal == MeasuresOf(reference, Zeros(|decoded|)).mse)
  {
    var n := |Diffs(reference, decoded)|;
    SilentSignal(reference, decoded);
    NoErrorIffEqual(reference[..n]);
    assert forall i :: 0 <= i < n ==> reference[..n][i] == reference[i];
    NoErrorIffSame(reference, decoded);
  }

  lemma UnderPeak(ds: seq<int>)
    ensures SumSquares(ds) <= Peak(ds) * SumAbs(ds) && SumAbs(ds) <= Peak(ds) * |ds|
  {
    PeakIsMaximum(ds);
    SquaresUnderPeak(ds, Peak(ds));
  }

  /** Without overflow the reported peak is the largest error and bounds both means; with an
      overflow it is too small. */
  lemma PeakBounds(reference: seq<i16>, decoded: seq<i16>)
    requires reference != [] && decoded != []
    ensures var m, ds := MeasuresOf(reference, decoded), Diffs(reference, decoded);
      if AnyOverflow(ds) then m.maxAbs < Peak(ds)
      else m.maxAbs == Peak(ds) && m.mae.sum <= m.maxAbs * m.minLen && m.mse.sum <= m.maxAbs * m.mae.sum
  {
    var ds := Diffs(reference, decoded);
    if AnyOverflow(ds) {
      PeakTooSmall(ds);
    } else {
      WrappedPeakFits(ds);
      UnderPeak(ds);
    }
  }
}
