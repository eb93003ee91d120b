/**
 Overlap-save filtering.  Taps are real, so the two components of a complex
 sample are filtered independently; one component is modelled here.  The
 forward transform, bin-wise product, inverse transform and gain are taken to
 compute circular convolution of the window with the zero-padded kernel.
 */
module OverlapSave {
  import opened Arith

  datatype Sample = Finite(value: real) | NonFinite

  function Clean(sample: Sample): real
  {
    if sample.Finite? then sample.value else 0.0
  }

  function CleanAll(input: seq<Sample>): (r: seq<real>)
    ensures |r| == |input|
    ensures forall i :: 0 <= i < |input| ==> input[i] == Finite(r[i]) || (input[i] == NonFinite && r[i] == 0.0)
  {
    seq(|input|, i requires 0 <= i < |input| => Clean(input[i]))
  }

  // ---------------------------------------------------------------------
  // Reference: the causal FIR output, and its constant delay
  // ---------------------------------------------------------------------

  /** The first `k` terms of the convolution sum at `n`. */
  function PartialSum(h: seq<real>, x: seq<real>, n: int, k: nat): real
    requires k <= |h|
  {
    if k == 0 then 0.0 else PartialSum(h, x, n, k - 1) + h[k - 1] * At(x, n - (k - 1))
  }

  function Convolve(h: seq<real>, x: seq<real>, n: int): real
  {
    PartialSum(h, x, n, |h|)
  }

  /** Output `n` of a filter `h` delayed by `delay` samples, with zeros before. */
  function Delayed(h: seq<real>, delay: nat, x: seq<real>, n: int): real
  {
    if n < delay then 0.0 else Convolve(h, x, n - delay)
  }

  function FilteredStream(h: seq<real>, delay: nat, x: seq<real>): (y: seq<real>)
    ensures |y| == |x|
  {
    seq(|x|, n requires 0 <= n < |x| => Delayed(h, delay, x, n))
  }

  /** Convolution is additive in the samples ... */
  lemma {:induction false} ConvolutionAdds(h: seq<real>, x: seq<real>, y: seq<real>, z: seq<real>, n: int, k: nat)
    requires k <= |h| && |x| == |y| == |z| && forall i :: 0 <= i < |z| ==> z[i] == x[i] + y[i]
    ensures PartialSum(h, z, n, k) == PartialSum(h, x, n, k) + PartialSum(h, y, n, k)
  {
    if k > 0 {
      ConvolutionAdds(h, x, y, z, n, k - 1);
      TermAdds(h[k - 1], At(x, n - (k - 1)), At(y, n - (k - 1)));
    }
  }

  lemma TermAdds(h: real, x: real, y: real)
    ensures h * (x + y) == h * x + h * y
  {
  }

  /** ... and one sample alone gives the taps, from its own time on, times the sample. */
  lemma {:induction false} LoneSampleGivesTaps(h: seq<real>, x: seq<real>, at: nat, n: int, k: nat)
    requires k <= |h| && at < |x| && forall i :: 0 <= i < |x| && i != at ==> x[i] == 0.0
    ensures PartialSum(h, x, n, k) == if 0 <= n - at < k then h[n - at] * x[at] else 0.0
  {
    if k > 0 {
      LoneSampleGivesTaps(h, x, at, n, k - 1);
    }
  }

  lemma {:induction false} SumIsCausal(h: seq<real>, x: seq<real>, more: seq<real>, n: int, k: nat)
    requires k <= |h| && n < |x|
    ensures PartialSum(h, x + more, n, k) == PartialSum(h, x, n, k)
  {
    if k > 0 {
      SumIsCausal(h, x, more, n, k - 1);
    }
  }

  /** What was output stays output: later samples never change earlier results. */
  lemma FilteringIsCausal(h: seq<real>, delay: nat, x: seq<real>, more: seq<real>)
    ensures FilteredStream(h, delay, x + more)[..|x|] == FilteredStream(h, delay, x)
  {
    forall n | 0 <= n < |x|
      ensures Delayed(h, delay, x + more, n) == Delayed(h, delay, x, n)
    {
      SumIsCausal(h, x, more, n - delay, |h|);
    }
  }

  lemma StreamGrows(h: seq<real>, delay: nat, x: seq<real>, sample: real)
    ensures FilteredStream(h, delay, x + [sample])
         == FilteredStream(h, delay, x) + [Delayed(h, delay, x + [sample], |x|)]
  {
    FilteringIsCausal(h, delay, x, [sample]);
    var y := FilteredStream(h, delay, x + [sample]);
    assert y == y[..|x|] + [y[|x|]];
  }

  // ---------------------------------------------------------------------
  // Circular convolution
  // ---------------------------------------------------------------------

  /** The first `k` terms of the circular convolution of `w` with `h` padded by zeros. */
  function CircularSum(h: seq<real>, w: seq<real>, i: nat, k: nat): real
    requires i < |w| && k <= |w|
  {
    if k == 0 then 0.0
    else CircularSum(h, w, i, k - 1) + At(h, k - 1) * w[if i >= k - 1 then i - (k - 1) else i - (k - 1) + |w|]
  }

  function CircularConvolve(h: seq<real>, w: seq<real>): (y: seq<real>)
    ensures |y| == |w|
  {
    seq(|w|, i requires 0 <= i < |w| => CircularSum(h, w, i, |w|))
  }

  /** Past the overlap, no term wraps around: the circular sum is the linear one. */
  lemma {:induction false} NoWrapPastOverlap(h: seq<real>, w: seq<real>, i: nat, k: nat)
    requires |h| - 1 <= i < |w| && k <= |w| && |h| <= |w|
    ensures CircularSum(h, w, i, k) == PartialSum(h, w, i, if k <= |h| then k else |h|)
  {
    if k > 0 {
      NoWrapPastOverlap(h, w, i, k - 1);
    }
  }

  /** A window cut out of the history convolves like the history itself. */
  lemma {:induction false} WindowSum(h: seq<real>, x: seq<real>, w: seq<real>, start: int, i: nat, k: nat)
    requires |h| - 1 <= i < |w| && k <= |h|
    requires forall j :: 0 <= j < |w| ==> w[j] == At(x, start + j)
    ensures PartialSum(h, w, i, k) == PartialSum(h, x, start + i, k)
  {
    if k > 0 {
      WindowSum(h, x, w, start, i, k - 1);
      assert At(w, i - (k - 1)) == At(x, start + i - (k - 1));
    }
  }

  /** The usable part of a filtered window is the filtered history. */
  lemma WindowConvolves(h: seq<real>, x: seq<real>, w: seq<real>, start: int, i: nat)
    requires 1 <= |h| <= |w| && |h| - 1 <= i < |w|
    requires forall j :: 0 <= j < |w| ==> w[j] == At(x, start + j)
    ensures CircularConvolve(h, w)[i] == Convolve(h, x, start + i)
  {
    NoWrapPastOverlap(h, w, i, |w|);
    WindowSum(h, x, w, start, i, |h|);
  }

  lemma WholeWindowConvolves(h: seq<real>, x: seq<real>, w: seq<real>, start: int)
    requires 1 <= |h| <= |w|
    requires forall j :: 0 <= j < |w| ==> w[j] == At(x, start + j)
    ensures forall i :: |h| - 1 <= i < |w| ==> CircularConvolve(h, w)[i] == Convolve(h, x, start + i)
  {
    forall i | |h| - 1 <= i < |w| ensures CircularConvolve(h, w)[i] == Convolve(h, x, start + i) {
      WindowConvolves(h, x, w, start, i);
    }
  }

  // ---------------------------------------------------------------------
  // Geometry
  // ---------------------------------------------------------------------

  const MAX_TAPS: nat := 32_769

  function Ceiling(x: real): int { -((-x).Floor) }

  /** A passband that fits the channel clock and whose filter fits the storage limit. */
  predicate Acceptable(sampleRate: real, bandwidth: nat)
  {
    && 100.0 <= sampleRate <= 20_000_000.0
    && 0 < bandwidth && bandwidth as real <= 0.8 * sampleRate
    && 80.0 * sampleRate <= 32_769.0 * bandwidth as real
  }

  /** An odd number of taps, at least eighty for every bandwidth that the sample rate holds. */
  predicate Narrow(taps: nat, sampleRate: real, bandwidth: nat)
  {
    taps % 2 == 1 && taps as real * bandwidth as real >= 80.0 * sampleRate
  }

  /** The least tap count for a passband; zero when the geometry is refused. */
  function TapsFor(sampleRate: real, bandwidth: nat): (taps: nat)
    ensures taps != 0 <==> Acceptable(sampleRate, bandwidth)
    ensures taps != 0 ==>
      101 <= taps <= MAX_TAPS && Narrow(taps, sampleRate, bandwidth)
  {
    if !(100.0 <= sampleRate <= 20_000_000.0) || bandwidth == 0 || bandwidth as real > 0.8 * sampleRate then 0
    else
      var count := Ceiling(80.0 * sampleRate / bandwidth as real);
      var taps := if count % 2 == 0 then count + 1 else count;
      TapCountBounds(80.0 * sampleRate, bandwidth as real, count, taps);
      if taps > MAX_TAPS then 0 else taps
  }

  lemma TapCountBounds(total: real, b: real, count: int, taps: int)
    requires 0.0 < b && 100.0 * b <= total
    requires count == Ceiling(total / b) && taps == if count % 2 == 0 then count + 1 else count
    ensures taps >= 101 && taps as real * b >= total
    ensures taps <= MAX_TAPS <==> total <= MAX_TAPS as real * b
  {
    var ratio, limit := total / b, MAX_TAPS as real;
    assert total == ratio * b by { Quotient(total, b); }
    assert 100.0 <= ratio by { ScaledCompare(ratio, 100.0, b, total); }
    assert ratio <= count as real < ratio + 1.0;
    assert taps as real * b >= total by { ScaledCompare(ratio, taps as real, b, total); }
    assert taps <= MAX_TAPS <==> ratio <= limit;
    assert ratio <= limit <==> total <= limit * b by { ScaledCompare(ratio, limit, b, total); }
  }

  /** No smaller odd number would do. */
  lemma TapsAreFewest(sampleRate: real, bandwidth: nat, n: nat)
    requires Acceptable(sampleRate, bandwidth) && Narrow(n, sampleRate, bandwidth)
    ensures TapsFor(sampleRate, bandwidth) <= n
  {
    var count := Ceiling(80.0 * sampleRate / bandwidth as real);
    TapCountLeast(80.0 * sampleRate, bandwidth as real, count, if count % 2 == 0 then count + 1 else count, n);
  }

  lemma TapCountLeast(total: real, b: real, count: int, taps: int, n: nat)
    requires 0.0 < b && count == Ceiling(total / b) && taps == if count % 2 == 0 then count + 1 else count
    requires n % 2 == 1 && n as real * b >= total
    ensures taps <= n
  {
    assert total / b <= n as real by {
      Quotient(total, b);
      ScaledCompare(total / b, n as real, b, total);
    }
    CeilingLeast(total / b, n);
  }

  lemma CeilingLeast(x: real, n: int)
    requires x <= n as real
    ensures Ceiling(x) <= n
  {
  }

  /** The least power of two no smaller than `n`. */
  function NextPowerOfTwo(n: nat, p: nat): (r: nat)
    requires p >= 1
    ensures r >= n && r >= p
    decreases n - p
  {
    if p >= n then p else NextPowerOfTwo(n, 2 * p)
  }

  /** It is a power of two, and half of it would not do. */
  lemma {:induction false} LeastPowerOfTwo(n: nat, j: nat) returns (k: nat)
    ensures NextPowerOfTwo(n, Pow2(j)) == Pow2(k) && k >= j
    ensures k == j || Pow2(k - 1) < n
    decreases n - Pow2(j)
  {
    if Pow2(j) >= n {
      k := j;
    } else {
      k := LeastPowerOfTwo(n, j + 1);
    }
  }

  // ---------------------------------------------------------------------
  // The streaming filter
  // ---------------------------------------------------------------------

  class RfSelector {
    const kernel: seq<real>
    const hop: nat
    const window: array<real>
    const overlap: array<real>
    var pending: seq<real>
    var ready: seq<real>
    /** Everything accepted since the start or the last reset, and how much of it has been filtered. */
    ghost var history: seq<real>
    ghost var filtered: nat

    ghost predicate Valid()
      reads this, window, overlap
    {
      && |kernel| >= 1 && hop >= 1 && window != overlap
      && overlap.Length == |kernel| - 1 && window.Length == hop + overlap.Length
      && |pending| < hop
      && filtered + |pending| == |history| && history == history[..filtered] + pending
      && (forall i :: 0 <= i < overlap.Length ==> overlap[i] == At(history, filtered - overlap.Length + i))
      && (filtered == 0 ==> ready == [])
      && (filtered > 0 ==> filtered >= hop && |ready| == hop - 1 - |pending|)
      && (forall i :: 0 <= i < |ready| ==> ready[i] == Convolve(kernel, history, |history| - (hop - 1) + i))
    }

    constructor (kernel: seq<real>)
      requires |kernel| >= 1
      ensures Valid() && fresh(window) && fresh(overlap)
      ensures history == [] && this.kernel == kernel
      ensures hop + |kernel| - 1 == NextPowerOfTwo(2 * |kernel|, 1)
    {
      this.kernel := kernel;
      var fftLen := NextPowerOfTwo(2 * |kernel|, 1);
      hop := fftLen - (|kernel| - 1);
      window := new real[fftLen](_ => 0.0);
      overlap := new real[|kernel| - 1](_ => 0.0);
      pending, ready := [], [];
      history, filtered := [], 0;
    }

    /** Retire the convolution and window histories; the response stays. */
    method Reset()
      requires Valid()
      modifies this, overlap
      ensures Valid() && history == []
    {
      forall i | 0 <= i < overlap.Length {
        overlap[i] := 0.0;
      }
      pending, ready := [], [];
      history, filtered := [], 0;
    }

    /** The saved overlap, then the pending samples: a stretch of the history. */
    method LoadWindow()
      requires hop >= 1 && window != overlap && window.Length == hop + overlap.Length && |pending| == hop
      requires filtered + hop == |history| && history == history[..filtered] + pending
      requires forall i :: 0 <= i < overlap.Length ==> overlap[i] == At(history, filtered - overlap.Length + i)
      modifies window
      ensures forall j :: 0 <= j < window.Length ==> window[j] == At(history, filtered - overlap.Length + j)
    {
      var saved := overlap.Length;
      forall i | 0 <= i < saved {
        window[i] := overlap[i];
      }
      forall i | 0 <= i < hop {
        window[saved + i] := pending[i];
      }
    }

    /** Filter one full window: the saved overlap followed by a hop of pending samples. */
    method FilterWindow()
      requires |kernel| >= 1 && hop >= 1 && window != overlap
      requires overlap.Length == |kernel| - 1 && window.Length == hop + overlap.Length
      requires |pending| == hop && ready == []
      requires filtered + hop == |history| && history == history[..filtered] + pending
      requires forall i :: 0 <= i < overlap.Length ==> overlap[i] == At(history, filtered - overlap.Length + i)
      modifies this, window, overlap
      ensures pending == [] && history == old(history) && filtered == old(filtered) + hop
      ensures |ready| == hop
      ensures forall i :: 0 <= i < hop ==> ready[i] == Convolve(kernel, history, old(filtered) + i)
      ensures forall i :: 0 <= i < overlap.Length ==> overlap[i] == At(history, filtered - overlap.Length + i)
    {
      var saved := overlap.Length;
      ghost var start := filtered - saved;
      LoadWindow();
      forall i | 0 <= i < saved {
        overlap[i] := window[window.Length - saved + i];
      }
      var spectrum := CircularConvolve(kernel, window[..]);
      assert forall j :: saved <= j < window.Length ==> spectrum[j] == Convolve(kernel, history, start + j) by {
        WholeWindowConvolves(kernel, history, window[..], start);
      }
      ready := ready + spectrum[saved..];
      assert forall i :: 0 <= i < hop ==> ready[i] == spectrum[saved + i];
      pending := [];
      filtered := filtered + hop;
    }

    /** Take one sample and return one, keeping the constant delay. */
    method Push(sample: real) returns (y: real)
      requires Valid()
      modifies this, window, overlap
      ensures Valid()
      ensures history == old(history) + [sample]
      ensures y == Delayed(kernel, hop - 1, history, |old(history)|)
    {
      pending := pending + [sample];
      history := history + [sample];
      forall i | 0 <= i < |ready|
        ensures ready[i] == Convolve(kernel, history, |old(history)| - (hop - 1) + i)
      {
        SumIsCausal(kernel, old(history), [sample], |old(history)| - (hop - 1) + i, |kernel|);
      }
      if |pending| == hop {
        FilterWindow();
      }
      if ready == [] {
        y := 0.0;
      } else {
        y, ready := ready[0], ready[1..];
      }
    }

    /**
     For any input, however the stream is cut into calls, the output is the
     linear convolution delayed by exactly `hop - 1` samples.
     */
    method Process(input: seq<Sample>) returns (output: seq<real>)
      requires Valid()
      modifies this, window, overlap
      ensures Valid()
      ensures history == old(history) + CleanAll(input)
      ensures FilteredStream(kernel, hop - 1, history) == FilteredStream(kernel, hop - 1, old(history)) + output
    {
      output := [];
      for k := 0 to |input|
        invariant Valid()
        invariant history == old(history) + CleanAll(input)[..k]
        invariant FilteredStream(kernel, hop - 1, history) == FilteredStream(kernel, hop - 1, old(history)) + output
      {
        ghost var before := history;
        var y := Push(Clean(input[k]));
        StreamGrows(kernel, hop - 1, before, Clean(input[k]));
        assert FilteredStream(kernel, hop - 1, old(history)) + output + [y]
            == FilteredStream(kernel, hop - 1, old(history)) + (output + [y]);
        output := output + [y];
      }
    }
  }
}
