/** `_adaptive_tokenize`: every frame gets a token budget from its complexity
    score, the vision encoder turns the frame into that many tokens, and the
    per-frame token sets are reduced by similarity. */
module AdaptiveTokenization {
  import opened Outcomes
  import opened Complexity
  import opened Reduction

  /** `self.max_frame_tokens`, fixed at construction. */
  const MaxFrameTokens: real := 1024.0

  /** The budget floor and the tokens granted per unit of complexity. */
  const MinFrameTokens: real := 16.0
  const TokensPerComplexity: real := 64.0

  /** The vision encoder, a collaborator of the tokenizer: a frame and the
      requested number of output tokens give the frame's token set. */
  type Encoder = (Frame, Score) -> TokenSet

  /** Python's built-in `max(a, b)`: `b` only when `b > a`. */
  function PyMax(a: real, b: real): real {
    if b > a then b else a
  }

  /** Python's built-in `min(a, b)`: `b` only when `b < a`. */
  function PyMin(a: real, b: real): real {
    if b < a then b else a
  }

  /** `min(max(complexity * 64, 16), max_frame_tokens)`. The value is not
      rounded to an integer. A NaN score stays NaN, since Python's `max` and
      `min` return their first argument when no comparison with it holds. */
  function TokenBudget(complexity: Score, maxFrameTokens: real): (budget: Score)
    ensures budget.NaN? <==> complexity.NaN?
    ensures budget.Num? ==> budget.v <= maxFrameTokens
    ensures budget.Num? && MinFrameTokens <= maxFrameTokens ==> MinFrameTokens <= budget.v
    ensures budget.Num? && maxFrameTokens < MinFrameTokens ==> budget.v == maxFrameTokens
    ensures complexity.Num? && MinFrameTokens <= complexity.v * TokensPerComplexity <= maxFrameTokens
            ==> budget == Num(complexity.v * TokensPerComplexity)
  {
    match complexity
    case NaN => NaN
    case Num(c) => Num(PyMin(PyMax(c * TokensPerComplexity, MinFrameTokens), maxFrameTokens))
  }

  /** A more complex frame never gets a smaller budget. */
  lemma TokenBudgetMonotone(c1: real, c2: real, maxFrameTokens: real)
    requires c1 <= c2
    ensures TokenBudget(Num(c1), maxFrameTokens).v <= TokenBudget(Num(c2), maxFrameTokens).v
  {
  }

  /** The budget a frame is encoded with. */
  function FrameBudget(f: Frame): Score
    requires WellFormed(f)
  {
    TokenBudget(CalculateComplexity(f), MaxFrameTokens)
  }

  /** The budget of a frame of at least two rows and two columns lies between
      16 and 1024; a frame with fewer rows, columns or channels gets NaN. */
  lemma FrameBudgetBounds(f: Frame)
    requires WellFormed(f)
    ensures FrameBudget(f).NaN? <==> |f| == 0 || |f[0]| < 2 || Width(f[0]) < 2
    ensures FrameBudget(f).Num? ==> MinFrameTokens <= FrameBudget(f).v <= MaxFrameTokens
  {
    ComplexityNaN(f);
  }

  /** A frame with uniform luma, with at least two rows and two columns,
      gets exactly the floor of 16 tokens. */
  lemma FlatFrameGetsFloor(f: Frame)
    requires WellFormed(f) && |f| > 0 && |f[0]| >= 2 && Width(f[0]) >= 2
    requires Flat(Luma(f))
    ensures FrameBudget(f) == Num(MinFrameTokens)
  {
    ComplexityZeroIffFlat(f);
  }

  /** With pixel values in [0, 1] the score of a frame with at least two
      rows and two columns stays in its documented range, so such a frame
      gets between 16 and 64 tokens (smaller frames get NaN). */
  lemma UnitFrameBudget(f: Frame)
    requires WellFormed(f) && UnitPixels(f) && FrameBudget(f).Num?
    ensures MinFrameTokens <= FrameBudget(f).v <= TokensPerComplexity
  {
    ComplexityAtMostOne(f);
  }

  /** With pixel values on the 0-255 scale, held as floats, the score can
      exceed 16, and then the ceiling of 1024 rather than the score decides
      the budget. */
  lemma EightBitFrameHitsCeiling()
    ensures FrameBudget([[[0.0, 255.0], [0.0, 255.0]]]) == Num(MaxFrameTokens)
  {
    EightBitFrameScore();
  }

  /** The token sets of the first `n` frames, in frame order, each frame
      encoded with its budget. */
  function EncodedUpTo(frames: seq<Frame>, n: nat, encoder: Encoder): (sets: seq<TokenSet>)
    requires n <= |frames|
    requires forall i :: 0 <= i < |frames| ==> WellFormed(frames[i])
    ensures |sets| == n
  {
    if n == 0 then []
    else EncodedUpTo(frames, n - 1, encoder) + [encoder(frames[n - 1], FrameBudget(frames[n - 1]))]
  }

  /** The per-frame token sets of all the frames. */
  function EncodedFrames(frames: seq<Frame>, encoder: Encoder): (sets: seq<TokenSet>)
    requires forall i :: 0 <= i < |frames| ==> WellFormed(frames[i])
    ensures |sets| == |frames|
  {
    EncodedUpTo(frames, |frames|, encoder)
  }

  /** Token set `k` is frame `k` encoded with its own budget: one set per
      frame, in frame order. */
  lemma {:induction false} EncodedUpToPointwise(frames: seq<Frame>, n: nat, encoder: Encoder, k: nat)
    requires k < n <= |frames|
    requires forall i :: 0 <= i < |frames| ==> WellFormed(frames[i])
    ensures EncodedUpTo(frames, n, encoder)[k] == encoder(frames[k], FrameBudget(frames[k]))
  {
    if k < n - 1 {
      EncodedUpToPointwise(frames, n - 1, encoder, k);
    }
  }

  /** Each frame's token set is the frame encoded with its own budget. */
  lemma EncodedFramesPointwise(frames: seq<Frame>, encoder: Encoder, k: nat)
    requires k < |frames|
    requires forall i :: 0 <= i < |frames| ==> WellFormed(frames[i])
    ensures EncodedFrames(frames, encoder)[k] == encoder(frames[k], FrameBudget(frames[k]))
  {
    EncodedUpToPointwise(frames, |frames|, encoder, k);
  }

  /** `_adaptive_tokenize`: the loop that encodes every frame with its budget,
      followed by the reduction of the collected token sets. */
  method AdaptiveTokenize(frames: seq<Frame>, encoder: Encoder, similarity: Similarity, threshold: real)
    returns (r: Outcome<TokenSet>)
    requires forall i :: 0 <= i < |frames| ==> WellFormed(frames[i])
    ensures r == Cat(KeptSets(EncodedFrames(frames, encoder), threshold, similarity))
    ensures r.Raised? <==> frames == []
  {
    var tokens: seq<TokenSet> := [];
    for i := 0 to |frames|
      invariant tokens == EncodedUpTo(frames, i, encoder)
    {
      var frameComplexity := CalculateComplexity(frames[i]);
      var numTokens := TokenBudget(frameComplexity, MaxFrameTokens);
      var frameTokens := encoder(frames[i], numTokens);
      tokens := tokens + [frameTokens];
    }
    r := ReduceSimilarTokens(tokens, threshold, similarity);
  }
}
