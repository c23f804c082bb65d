/** The visual-complexity score of one video frame: the frame is reduced to a
    single luma channel, and the score is the average of the mean absolute
    first differences along the two spatial axes.

    Arithmetic is exact (`real`); float rounding is not modelled. torch's mean
    over an empty tensor is NaN, and NaN propagates through the additions, so
    a score is either a number or NaN. */
module Complexity {

  /** A frame after `permute(0, 3, 1, 2)`: channels, then rows, then columns. */
  type Frame = seq<seq<seq<real>>>

  /** A single-channel image: rows, then columns. */
  type Grid = seq<seq<real>>

  /** A Python float produced by a torch reduction. */
  datatype Score = NaN | Num(v: real)

  /** A tensor is rectangular: every channel has as many rows as the first and
      every row as many columns as the first row of the first channel. */
  predicate WellFormed(f: Frame) {
    |f| == 0 ||
    ((forall c :: 0 <= c < |f| ==> |f[c]| == |f[0]|) &&
     (forall c, i :: 0 <= c < |f| && 0 <= i < |f[c]| ==> |f[c][i]| == Width(f[0])))
  }

  function Width(g: Grid): nat {
    if |g| == 0 then 0 else |g[0]|
  }

  predicate Rectangular(g: Grid) {
    forall i :: 0 <= i < |g| ==> |g[i]| == Width(g)
  }

  function Abs(x: real): real {
    if x < 0.0 then -x else x
  }

  function Sum(xs: seq<real>): real {
    if xs == [] then 0.0 else xs[0] + Sum(xs[1..])
  }

  /** Sum of every entry of a two-dimensional tensor. */
  function Total(rows: seq<seq<real>>): real {
    if rows == [] then 0.0 else Sum(rows[0]) + Total(rows[1..])
  }

  /** Number of entries of a two-dimensional tensor. */
  function Numel(rows: seq<seq<real>>): nat {
    if rows == [] then 0 else |rows[0]| + Numel(rows[1..])
  }

  /** `tensor.mean()`: NaN over an empty tensor. */
  function Mean(rows: seq<seq<real>>): (m: Score)
    ensures m.NaN? <==> Numel(rows) == 0
    ensures m.Num? ==> m.v * (Numel(rows) as real) == Total(rows)
  {
    if Numel(rows) == 0 then NaN else Num(Total(rows) / (Numel(rows) as real))
  }

  /** Mean of the channels at one pixel. */
  function ChannelMean(f: Frame, i: nat, j: nat): real
    requires WellFormed(f) && |f| > 0 && i < |f[0]| && j < Width(f[0])
  {
    Sum(seq(|f|, c requires 0 <= c < |f| => f[c][i][j])) / (|f| as real)
  }

  /** `frame.mean(dim=0)`: the luma grid. */
  function Luma(f: Frame): (g: Grid)
    requires WellFormed(f) && |f| > 0
    ensures |g| == |f[0]| && Width(g) == Width(f[0]) && Rectangular(g)
  {
    seq(|f[0]|, i requires 0 <= i < |f[0]| =>
      seq(Width(f[0]), j requires 0 <= j < Width(f[0]) => ChannelMean(f, i, j)))
  }

  /** `torch.abs(gray[1:, :] - gray[:-1, :])`: differences between neighbouring rows. */
  function RowDiffs(g: Grid): (d: seq<seq<real>>)
    requires Rectangular(g)
    ensures |g| >= 1 ==> |d| == |g| - 1
    ensures forall i :: 0 <= i < |d| ==> |d[i]| == Width(g)
  {
    if |g| < 1 then []
    else
      seq(|g| - 1, i requires 0 <= i < |g| - 1 =>
        seq(Width(g), j requires 0 <= j < Width(g) => Abs(g[i + 1][j] - g[i][j])))
  }

  /** `torch.abs(gray[:, 1:] - gray[:, :-1])`: differences between neighbouring columns. */
  function ColDiffs(g: Grid): (d: seq<seq<real>>)
    requires Rectangular(g)
    ensures |d| == |g|
    ensures forall i :: 0 <= i < |d| ==> |d[i]| == if Width(g) < 1 then 0 else Width(g) - 1
  {
    seq(|g|, i requires 0 <= i < |g| =>
      if Width(g) < 1 then []
      else seq(Width(g) - 1, j requires 0 <= j < Width(g) - 1 => Abs(g[i][j + 1] - g[i][j])))
  }

  /** `_calculate_complexity`: the average of the two mean gradients. A frame
      with no channels has NaN luma everywhere, so its score is NaN too. */
  function CalculateComplexity(f: Frame): Score
    requires WellFormed(f)
  {
    if |f| == 0 then NaN
    else
      var gray := Luma(f);
      var gradientX := Mean(RowDiffs(gray));
      var gradientY := Mean(ColDiffs(gray));
      if gradientX.NaN? || gradientY.NaN? then NaN
      else Num((gradientX.v + gradientY.v) / 2.0)
  }

  /** Every luma value equals the top-left one. */
  predicate Flat(g: Grid) {
    |g| == 0 || |g[0]| == 0 ||
    forall i, j :: 0 <= i < |g| && 0 <= j < |g[i]| ==> g[i][j] == g[0][0]
  }

  predicate NonNegative(rows: seq<seq<real>>) {
    forall i, j :: 0 <= i < |rows| && 0 <= j < |rows[i]| ==> rows[i][j] >= 0.0
  }

  predicate AllZero(rows: seq<seq<real>>) {
    forall i, j :: 0 <= i < |rows| && 0 <= j < |rows[i]| ==> rows[i][j] == 0.0
  }

  // ---------------------------------------------------------------------------
  // Sums

  lemma {:induction false} SumNonNegative(xs: seq<real>)
    requires forall k :: 0 <= k < |xs| ==> xs[k] >= 0.0
    ensures Sum(xs) >= 0.0
    ensures Sum(xs) == 0.0 <==> forall k :: 0 <= k < |xs| ==> xs[k] == 0.0
  {
    if xs != [] {
      SumNonNegative(xs[1..]);
      assert forall k :: 1 <= k < |xs| ==> xs[k] == xs[1..][k - 1];
    }
  }

  /** A total of non-negative entries is non-negative, and zero exactly when
      every entry is zero. */
  lemma {:induction false} TotalNonNegative(rows: seq<seq<real>>)
    requires NonNegative(rows)
    ensures Total(rows) >= 0.0
    ensures Total(rows) == 0.0 <==> AllZero(rows)
  {
    if rows != [] {
      assert forall k :: 0 <= k < |rows[0]| ==> rows[0][k] >= 0.0;
      SumNonNegative(rows[0]);
      assert NonNegative(rows[1..]) by {
        forall i, j | 0 <= i < |rows[1..]| && 0 <= j < |rows[1..][i]|
          ensures rows[1..][i][j] >= 0.0
        {
          assert rows[1..][i] == rows[i + 1];
        }
      }
      TotalNonNegative(rows[1..]);
      if Total(rows) == 0.0 {
        forall i, j | 0 <= i < |rows| && 0 <= j < |rows[i]| ensures rows[i][j] == 0.0 {
          if i > 0 { assert rows[i] == rows[1..][i - 1]; }
        }
      }
      if AllZero(rows) {
        assert forall k :: 0 <= k < |rows[0]| ==> rows[0][k] == 0.0;
        assert AllZero(rows[1..]) by {
          forall i, j | 0 <= i < |rows[1..]| && 0 <= j < |rows[1..][i]|
            ensures rows[1..][i][j] == 0.0
          {
            assert rows[1..][i] == rows[i + 1];
          }
        }
      }
    }
  }

  /** A tensor of equal-length rows has rows times row length entries. */
  lemma {:induction false} NumelUniform(rows: seq<seq<real>>, w: nat)
    requires forall i :: 0 <= i < |rows| ==> |rows[i]| == w
    ensures Numel(rows) == |rows| * w
  {
    if rows != [] {
      NumelUniform(rows[1..], w);
    }
  }

  /** The mean of a non-empty tensor of non-negative entries is
      non-negative, and zero exactly when every entry is zero. */
  lemma MeanNonNegative(rows: seq<seq<real>>)
    requires NonNegative(rows) && Mean(rows).Num?
    ensures Mean(rows).v >= 0.0
    ensures Mean(rows).v == 0.0 <==> AllZero(rows)
  {
    TotalNonNegative(rows);
  }

  lemma RowDiffsNonNegative(g: Grid)
    requires Rectangular(g)
    ensures NonNegative(RowDiffs(g))
  {
    var rows := RowDiffs(g);
    forall i, j | 0 <= i < |rows| && 0 <= j < |rows[i]| ensures rows[i][j] >= 0.0 {
      assert rows[i][j] == Abs(g[i + 1][j] - g[i][j]);
    }
  }

  lemma ColDiffsNonNegative(g: Grid)
    requires Rectangular(g)
    ensures NonNegative(ColDiffs(g))
  {
    var cols := ColDiffs(g);
    forall i, j | 0 <= i < |cols| && 0 <= j < |cols[i]| ensures cols[i][j] >= 0.0 {
      assert cols[i][j] == Abs(g[i][j + 1] - g[i][j]);
    }
  }

  lemma DiffsNonNegative(g: Grid)
    requires Rectangular(g)
    ensures NonNegative(RowDiffs(g)) && NonNegative(ColDiffs(g))
  {
    RowDiffsNonNegative(g);
    ColDiffsNonNegative(g);
  }

  /** How many entries each difference tensor holds. */
  lemma DiffsNumel(g: Grid)
    requires Rectangular(g)
    ensures Numel(RowDiffs(g)) == (if |g| < 1 then 0 else (|g| - 1) * Width(g))
    ensures Numel(ColDiffs(g)) == |g| * (if Width(g) < 1 then 0 else Width(g) - 1)
  {
    if |g| >= 1 {
      NumelUniform(RowDiffs(g), Width(g));
    }
    NumelUniform(ColDiffs(g), if Width(g) < 1 then 0 else Width(g) - 1);
  }

  // ---------------------------------------------------------------------------
  // Properties of the score

  /** The score is NaN exactly when one of the difference tensors is empty:
      no channels, fewer than two rows, or fewer than two columns. */
  lemma ComplexityNaN(f: Frame)
    requires WellFormed(f)
    ensures CalculateComplexity(f).NaN? <==> |f| == 0 || |f[0]| < 2 || Width(f[0]) < 2
  {
    if |f| > 0 {
      var g := Luma(f);
      DiffsNumel(g);
      var h, w := |g|, Width(g);
      if h >= 2 && w >= 2 {
        assert (h - 1) * w > 0 && h * (w - 1) > 0 by {
          assert (h - 1) * w >= 1 * w;
          assert h * (w - 1) >= h * 1;
        }
      }
    }
  }

  /** The score is never negative. */
  lemma ComplexityNonNegative(f: Frame)
    requires WellFormed(f) && CalculateComplexity(f).Num?
    ensures CalculateComplexity(f).v >= 0.0
  {
    var g := Luma(f);
    DiffsNonNegative(g);
    MeanNonNegative(RowDiffs(g));
    MeanNonNegative(ColDiffs(g));
  }

  /** Every pixel of every channel lies in [0, 1]. */
  predicate UnitPixels(f: Frame) {
    forall c, i, j :: 0 <= c < |f| && 0 <= i < |f[c]| && 0 <= j < |f[c][i]| ==> 0.0 <= f[c][i][j] <= 1.0
  }

  predicate UnitGrid(g: Grid) {
    forall i, j :: 0 <= i < |g| && 0 <= j < |g[i]| ==> 0.0 <= g[i][j] <= 1.0
  }

  predicate AtMostOne(rows: seq<seq<real>>) {
    forall i, j :: 0 <= i < |rows| && 0 <= j < |rows[i]| ==> rows[i][j] <= 1.0
  }

  lemma {:induction false} SumAtMostLength(xs: seq<real>)
    requires forall k :: 0 <= k < |xs| ==> xs[k] <= 1.0
    ensures Sum(xs) <= |xs| as real
  {
    if xs != [] {
      assert forall k :: 0 <= k < |xs| - 1 ==> xs[1..][k] == xs[k + 1];
      SumAtMostLength(xs[1..]);
    }
  }

  /** A total of entries at most 1 is at most the number of entries. */
  lemma {:induction false} TotalAtMostNumel(rows: seq<seq<real>>)
    requires AtMostOne(rows)
    ensures Total(rows) <= Numel(rows) as real
  {
    if rows != [] {
      SumAtMostLength(rows[0]);
      assert AtMostOne(rows[1..]) by {
        forall i, j | 0 <= i < |rows[1..]| && 0 <= j < |rows[1..][i]|
          ensures rows[1..][i][j] <= 1.0
        {
          assert rows[1..][i] == rows[i + 1];
        }
      }
      TotalAtMostNumel(rows[1..]);
    }
  }

  /** The mean of entries at most 1 is at most 1. */
  lemma MeanAtMostOne(rows: seq<seq<real>>)
    requires AtMostOne(rows) && Mean(rows).Num?
    ensures Mean(rows).v <= 1.0
  {
    TotalAtMostNumel(rows);
    var n := Numel(rows) as real;
    var m := Mean(rows).v;
    assert m * n <= 1.0 * n;
    assert (m - 1.0) * n <= 0.0;
  }

  /** The channel mean of pixels in [0, 1] lies in [0, 1]. */
  lemma LumaUnit(f: Frame)
    requires WellFormed(f) && |f| > 0 && UnitPixels(f)
    ensures UnitGrid(Luma(f))
  {
    var g := Luma(f);
    forall i, j | 0 <= i < |g| && 0 <= j < |g[i]|
      ensures 0.0 <= g[i][j] <= 1.0
    {
      var column := seq(|f|, c requires 0 <= c < |f| => f[c][i][j]);
      assert g[i][j] == ChannelMean(f, i, j) == Sum(column) / (|f| as real);
      assert forall c :: 0 <= c < |f| ==> 0.0 <= column[c] <= 1.0;
      SumNonNegative(column);
      SumAtMostLength(column);
    }
  }

  lemma RowDiffsAtMostOne(g: Grid)
    requires Rectangular(g) && UnitGrid(g)
    ensures AtMostOne(RowDiffs(g))
  {
    var rows := RowDiffs(g);
    forall i, j | 0 <= i < |rows| && 0 <= j < |rows[i]| ensures rows[i][j] <= 1.0 {
      assert rows[i][j] == Abs(g[i + 1][j] - g[i][j]);
    }
  }

  lemma ColDiffsAtMostOne(g: Grid)
    requires Rectangular(g) && UnitGrid(g)
    ensures AtMostOne(ColDiffs(g))
  {
    var cols := ColDiffs(g);
    forall i, j | 0 <= i < |cols| && 0 <= j < |cols[i]| ensures cols[i][j] <= 1.0 {
      assert cols[i][j] == Abs(g[i][j + 1] - g[i][j]);
    }
  }

  /** The documented range of the score, "0-1", holds for frames whose pixel
      values lie in [0, 1] and that have a channel and at least two rows and
      two columns (smaller frames score NaN). */
  lemma ComplexityAtMostOne(f: Frame)
    requires WellFormed(f) && UnitPixels(f) && CalculateComplexity(f).Num?
    ensures 0.0 <= CalculateComplexity(f).v <= 1.0
  {
    ComplexityNonNegative(f);
    var g := Luma(f);
    LumaUnit(f);
    RowDiffsAtMostOne(g);
    ColDiffsAtMostOne(g);
    MeanAtMostOne(RowDiffs(g));
    MeanAtMostOne(ColDiffs(g));
  }

  /** With one channel, the luma is the channel itself. */
  lemma SingleChannelMean(f: Frame, i: nat, j: nat)
    requires WellFormed(f) && |f| == 1 && i < |f[0]| && j < Width(f[0])
    ensures ChannelMean(f, i, j) == f[0][i][j]
  {
    var column := seq(|f|, c requires 0 <= c < |f| => f[c][i][j]);
    assert column == [f[0][i][j]];
    assert Sum(column) == f[0][i][j] + Sum([]);
  }

  lemma EightBitLuma()
    ensures Luma([[[0.0, 255.0], [0.0, 255.0]]]) == [[0.0, 255.0], [0.0, 255.0]]
  {
    var f: Frame := [[[0.0, 255.0], [0.0, 255.0]]];
    var g := Luma(f);
    forall i, j | 0 <= i < 2 && 0 <= j < 2 ensures g[i][j] == f[0][i][j] {
      SingleChannelMean(f, i, j);
    }
    assert |g| == 2 && |g[0]| == 2 && |g[1]| == 2;
    assert g[0] == [0.0, 255.0] && g[1] == [0.0, 255.0];
  }

  lemma EightBitDiffs()
    ensures RowDiffs([[0.0, 255.0], [0.0, 255.0]]) == [[0.0, 0.0]]
    ensures ColDiffs([[0.0, 255.0], [0.0, 255.0]]) == [[255.0], [255.0]]
  {
    var g: Grid := [[0.0, 255.0], [0.0, 255.0]];
    var rows, cols := RowDiffs(g), ColDiffs(g);
    assert rows[0][0] == Abs(g[1][0] - g[0][0]) && rows[0][1] == Abs(g[1][1] - g[0][1]);
    assert |rows| == 1 && rows[0] == [0.0, 0.0];
    assert cols[0][0] == Abs(g[0][1] - g[0][0]) && cols[1][0] == Abs(g[1][1] - g[1][0]);
    assert |cols| == 2 && cols[0] == [255.0] && cols[1] == [255.0];
  }

  /** With pixel values on the 0-255 scale, held as floats, the score
      leaves [0, 1]: a one-channel 2x2 frame with a black and a white
      column scores 127.5. */
  lemma EightBitFrameScore()
    ensures CalculateComplexity([[[0.0, 255.0], [0.0, 255.0]]]) == Num(127.5)
  {
    EightBitLuma();
    EightBitDiffs();
    EightBitMeans();
  }

  lemma EightBitMeans()
    ensures Mean([[0.0, 0.0]]) == Num(0.0)
    ensures Mean([[255.0], [255.0]]) == Num(255.0)
  {
    assert Numel([[0.0, 0.0]]) == 2 && Numel([[255.0], [255.0]]) == 2;
    assert Total([[255.0], [255.0]]) == 510.0;
  }

  /** Along a row whose neighbouring columns agree, every entry equals the first. */
  lemma {:induction false} RowConstant(g: Grid, i: nat, j: nat)
    requires Rectangular(g) && AllZero(ColDiffs(g))
    requires i < |g| && j < Width(g)
    ensures g[i][j] == g[i][0]
  {
    if j > 0 {
      RowConstant(g, i, j - 1);
      var d := ColDiffs(g);
      assert d[i][j - 1] == Abs(g[i][j] - g[i][j - 1]) == 0.0;
      assert g[i][j] == g[i][j - 1];
    }
  }

  /** Down the first column, when neighbouring rows agree, every entry equals the top one. */
  lemma {:induction false} ColumnConstant(g: Grid, i: nat)
    requires Rectangular(g) && AllZero(RowDiffs(g))
    requires i < |g| && 0 < Width(g)
    ensures g[i][0] == g[0][0]
  {
    if i > 0 {
      ColumnConstant(g, i - 1);
      var d := RowDiffs(g);
      assert d[i - 1][0] == Abs(g[i][0] - g[i - 1][0]) == 0.0;
      assert g[i][0] == g[i - 1][0];
    }
  }

  /** A grid whose neighbouring rows and columns agree everywhere is flat. */
  lemma NoDiffsFlat(g: Grid)
    requires Rectangular(g)
    requires AllZero(RowDiffs(g)) && AllZero(ColDiffs(g))
    ensures Flat(g)
  {
    if |g| > 0 && |g[0]| > 0 {
      forall i, j | 0 <= i < |g| && 0 <= j < |g[i]| ensures g[i][j] == g[0][0] {
        RowConstant(g, i, j);
        ColumnConstant(g, i);
      }
    }
  }

  /** A flat grid has no non-zero differences. */
  lemma FlatNoDiffs(g: Grid)
    requires Rectangular(g) && Flat(g)
    ensures AllZero(RowDiffs(g)) && AllZero(ColDiffs(g))
  {
    forall i, j | 0 <= i < |RowDiffs(g)| && 0 <= j < |RowDiffs(g)[i]|
      ensures RowDiffs(g)[i][j] == 0.0
    {
      assert g[i + 1][j] == g[0][0] && g[i][j] == g[0][0];
    }
    forall i, j | 0 <= i < |ColDiffs(g)| && 0 <= j < |ColDiffs(g)[i]|
      ensures ColDiffs(g)[i][j] == 0.0
    {
      assert g[i][j + 1] == g[0][0] && g[i][j] == g[0][0];
    }
  }

  /** A frame whose luma is uniform scores exactly 0, and a frame with at least
      two rows and two columns scores 0 only when its luma is uniform. */
  lemma ComplexityZeroIffFlat(f: Frame)
    requires WellFormed(f) && |f| > 0 && |f[0]| >= 2 && Width(f[0]) >= 2
    ensures CalculateComplexity(f) == Num(0.0) <==> Flat(Luma(f))
  {
    var g := Luma(f);
    ComplexityNaN(f);
    DiffsNonNegative(g);
    MeanNonNegative(RowDiffs(g));
    MeanNonNegative(ColDiffs(g));
    if Flat(g) {
      FlatNoDiffs(g);
    }
    if CalculateComplexity(f) == Num(0.0) {
      NoDiffsFlat(g);
    }
  }
}
