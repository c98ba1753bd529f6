/** The `histogram` type of im_object.h, four rows of 256 bins: rows 0..2
    count the levels of each colour channel, row 3 those of all three
    together. `Histograms` is the table `calc_histograms` (and, starting
    from zero, `calc_historgam`) fills from interleaved 3-channel bytes. */
module Histogram {
  import opened Cl

  const Rows: nat := 4
  const Bins: nat := 256

  /** hist[lo] + ... + hist[hi - 1]. */
  function SumRange(hist: seq<int>, lo: int, hi: int): int
    requires 0 <= lo && hi <= |hist|
    decreases hi - lo
  {
    if lo >= hi then 0 else hist[lo] + SumRange(hist, lo + 1, hi)
  }

  /** A row of bin counts. */
  predicate Counts(hist: seq<int>)
  {
    |hist| == Bins && forall i :: 0 <= i < |hist| ==> hist[i] >= 0
  }

  predicate IsTable(h: seq<seq<int>>)
  {
    |h| == Rows && forall c :: 0 <= c < Rows ==> |h[c]| == Bins
  }

  function ZeroTable(): (h: seq<seq<int>>)
    ensures IsTable(h)
  {
    seq(Rows, _ => seq(Bins, _ => 0))
  }

  /** One sample: its bin goes up by one in its channel's row and in the
      aggregate row 3. */
  function AddSample(h: seq<seq<int>>, c: nat, v: Byte): (r: seq<seq<int>>)
    requires IsTable(h) && c < 3
    ensures IsTable(r)
  {
    var h1 := h[c := h[c][v := h[c][v] + 1]];
    h1[3 := h1[3][v := h1[3][v] + 1]]
  }

  /** The first `col` samples of the pixel whose bytes start at `base`. */
  function AddPixel(h: seq<seq<int>>, src: seq<Byte>, base: nat, col: nat): (r: seq<seq<int>>)
    requires IsTable(h) && col <= 3 && base + col <= |src|
    ensures IsTable(r)
  {
    if col == 0 then h else AddSample(AddPixel(h, src, base, col - 1), col - 1, src[base + col - 1])
  }

  /** The table after the first n pixels of `src`, from all-zero bins. */
  function Histograms(src: seq<Byte>, n: nat): (h: seq<seq<int>>)
    requires 3 * n <= |src|
    ensures IsTable(h)
  {
    if n == 0 then ZeroTable() else AddPixel(Histograms(src, n - 1), src, 3 * (n - 1), 3)
  }

  /** Every bin of a row is a count and row 3 is the bin-wise sum of the
      colour rows. */
  predicate WellFormed(h: seq<seq<int>>)
  {
    && IsTable(h)
    && (forall c :: 0 <= c < Rows ==> Counts(h[c]))
    && (forall v :: 0 <= v < Bins ==> h[3][v] == h[0][v] + h[1][v] + h[2][v])
  }

  /** Bumping one bin adds one to the sum of every range holding it. */
  lemma {:induction false} SumBump(hist: seq<int>, v: int, lo: int, hi: int)
    requires 0 <= v < |hist| && 0 <= lo && hi <= |hist|
    ensures SumRange(hist[v := hist[v] + 1], lo, hi) == SumRange(hist, lo, hi) + (if lo <= v < hi then 1 else 0)
    decreases hi - lo
  {
    if lo < hi { SumBump(hist, v, lo + 1, hi); }
  }

  lemma {:induction false} SumExtend(hist: seq<int>, lo: int, hi: int)
    requires 0 <= lo <= hi < |hist|
    ensures SumRange(hist, lo, hi + 1) == SumRange(hist, lo, hi) + hist[hi]
    decreases hi - lo
  {
    if lo < hi { SumExtend(hist, lo + 1, hi); }
  }

  /** With counts that are never negative, a longer range sums to more. */
  lemma {:induction false} SumGrows(hist: seq<int>, lo: int, mid: int, hi: int)
    requires Counts(hist) && 0 <= lo <= mid <= hi <= |hist|
    ensures SumRange(hist, lo, mid) <= SumRange(hist, lo, hi)
    ensures SumRange(hist, mid, hi) <= SumRange(hist, lo, hi)
    decreases hi - lo
  {
    if lo < mid {
      SumGrows(hist, lo + 1, mid, hi);
    } else if mid < hi {
      SumGrows(hist, lo + 1, lo + 1, hi);
    }
  }

  /** Ranges on which two rows agree sum alike. */
  lemma {:induction false} SumAgrees(h1: seq<int>, h2: seq<int>, lo: int, hi: int)
    requires 0 <= lo && hi <= |h1| == |h2|
    requires forall i :: lo <= i < hi ==> h1[i] == h2[i]
    ensures SumRange(h1, lo, hi) == SumRange(h2, lo, hi)
    decreases hi - lo
  {
    if lo < hi { SumAgrees(h1, h2, lo + 1, hi); }
  }

  lemma {:induction false} SumOfZeros(lo: int, hi: int)
    requires 0 <= lo && hi <= Bins
    ensures SumRange(seq(Bins, _ => 0), lo, hi) == 0
    decreases hi - lo
  {
    if lo < hi { SumOfZeros(lo + 1, hi); }
  }

  /** The number of samples row k holds. */
  function Total(h: seq<seq<int>>, k: nat): int
    requires IsTable(h) && k < Rows
  {
    SumRange(h[k], 0, Bins)
  }

  /** One sample keeps the table well formed, adds one to its colour row
      and to row 3, and leaves the other rows alone. */
  lemma AddSampleEffect(h: seq<seq<int>>, c: nat, v: Byte)
    requires WellFormed(h) && c < 3
    ensures WellFormed(AddSample(h, c, v))
    ensures forall k :: 0 <= k < Rows ==>
              Total(AddSample(h, c, v), k) == Total(h, k) + (if k == c || k == 3 then 1 else 0)
  {
    var row, agg := h[c][v := h[c][v] + 1], h[3][v := h[3][v] + 1];
    AddSampleRows(h, c, v, row, agg, AddSample(h, c, v));
    forall k | 0 <= k < Rows
      ensures Total(AddSample(h, c, v), k) == Total(h, k) + (if k == c || k == 3 then 1 else 0)
    {
      SampleTotal(h, c, v, k);
    }
  }

  lemma SampleTotal(h: seq<seq<int>>, c: nat, v: Byte, k: nat)
    requires IsTable(h) && c < 3 && k < Rows
    ensures Total(AddSample(h, c, v), k) == Total(h, k) + (if k == c || k == 3 then 1 else 0)
  {
    var r := AddSample(h, c, v);
    if k == 3 {
      assert r[3] == h[3][v := h[3][v] + 1];
      SumBump(h[3], v, 0, Bins);
    } else if k == c {
      assert r[c] == h[c][v := h[c][v] + 1];
      SumBump(h[c], v, 0, Bins);
    } else {
      assert r[k] == h[k];
    }
  }

  lemma AddSampleRows(h: seq<seq<int>>, c: nat, v: Byte, row: seq<int>, agg: seq<int>, r: seq<seq<int>>)
    requires WellFormed(h) && c < 3
    requires row == h[c][v := h[c][v] + 1] && agg == h[3][v := h[3][v] + 1] && r == h[c := row][3 := agg]
    ensures WellFormed(r)
  {
    assert Counts(row) && Counts(agg);
    assert forall k :: 0 <= k < Rows ==> r[k] == (if k == 3 then agg else if k == c then row else h[k]);
  }

  /** The first `col` samples of a pixel add one to each of their colour
      rows and `col` to row 3. */
  lemma {:induction false} AddPixelEffect(h: seq<seq<int>>, src: seq<Byte>, base: nat, col: nat)
    requires WellFormed(h) && col <= 3 && base + col <= |src|
    ensures WellFormed(AddPixel(h, src, base, col))
    ensures forall k :: 0 <= k < 3 ==> Total(AddPixel(h, src, base, col), k) == Total(h, k) + (if k < col then 1 else 0)
    ensures Total(AddPixel(h, src, base, col), 3) == Total(h, 3) + col
  {
    if col > 0 {
      AddPixelEffect(h, src, base, col - 1);
      AddSampleEffect(AddPixel(h, src, base, col - 1), col - 1, src[base + col - 1]);
    }
  }

  /** After n pixels every row is a count, row 3 is the sum of the colour
      rows bin by bin, each colour row sums to n and row 3 to 3n. */
  lemma {:induction false} HistogramsInvariant(src: seq<Byte>, n: nat)
    requires 3 * n <= |src|
    ensures WellFormed(Histograms(src, n))
    ensures forall k :: 0 <= k < 3 ==> Total(Histograms(src, n), k) == n
    ensures Total(Histograms(src, n), 3) == 3 * n
  {
    if n == 0 {
      SumOfZeros(0, Bins);
      assert forall c :: 0 <= c < Rows ==> ZeroTable()[c] == seq(Bins, _ => 0);
    } else {
      HistogramsInvariant(src, n - 1);
      AddPixelEffect(Histograms(src, n - 1), src, 3 * (n - 1), 3);
    }
  }
}
