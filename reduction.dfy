/** `_reduce_similar_tokens`: walk the per-frame token sets in frame order,
    keep the first, keep each later set only when its similarity to the most
    recently KEPT set is below the threshold, and concatenate what was kept. */
module Reduction {
  import opened Outcomes

  /** One token vector. */
  type Token = seq<real>

  /** The tokens the vision encoder produced for one frame. */
  type TokenSet = seq<Token>

  /** The similarity measure between two token sets, a collaborator of the
      tokenizer whose definition is not part of this model. */
  type Similarity = (TokenSet, TokenSet) -> real

  /** Total number of tokens in a list of token sets. */
  function TotalLength(sets: seq<TokenSet>): nat {
    if sets == [] then 0 else TotalLength(sets[..|sets| - 1]) + |sets[|sets| - 1]|
  }

  /** The token sets one after another (`torch.cat(sets, dim=1)` on a
      non-empty list). */
  function Concat(sets: seq<TokenSet>): (r: TokenSet)
    ensures |r| == TotalLength(sets)
  {
    if sets == [] then [] else Concat(sets[..|sets| - 1]) + sets[|sets| - 1]
  }

  /** `torch.cat(sets, dim=1)`: raises on an empty list. */
  function Cat(sets: seq<TokenSet>): (r: Outcome<TokenSet>)
    ensures r.Raised? <==> sets == []
    ensures r.Raised? ==> r.error == EmptyTensorList
    ensures r.Ok? ==> |r.value| == TotalLength(sets)
  {
    if sets == [] then Raised(EmptyTensorList) else Ok(Concat(sets))
  }

  /** The token sets at the given indices, in the order of the indices. */
  function Select(sets: seq<TokenSet>, idx: seq<nat>): (r: seq<TokenSet>)
    requires forall k :: 0 <= k < |idx| ==> idx[k] < |sets|
    ensures |r| == |idx|
  {
    seq(|idx|, k requires 0 <= k < |idx| => sets[idx[k]])
  }

  /** Indices of the token sets that the reduction keeps among the first `n`:
      the walk over the sets one at a time, comparing each set with the last
      one kept. */
  function KeptUpTo(sets: seq<TokenSet>, n: nat, threshold: real, similarity: Similarity): (idx: seq<nat>)
    requires n <= |sets|
    ensures |idx| == 0 <==> n == 0
    ensures |idx| > 0 ==> idx[0] == 0
    ensures forall k :: 0 <= k < |idx| ==> idx[k] < n
  {
    if n == 0 then []
    else if n == 1 then [0]
    else
      var before := KeptUpTo(sets, n - 1, threshold, similarity);
      if similarity(sets[n - 1], sets[before[|before| - 1]]) < threshold then before + [n - 1] else before
  }

  /** Indices of the token sets that the reduction keeps. */
  function KeptIndices(sets: seq<TokenSet>, threshold: real, similarity: Similarity): (idx: seq<nat>)
    ensures |idx| == 0 <==> |sets| == 0
    ensures |idx| > 0 ==> idx[0] == 0
    ensures forall k :: 0 <= k < |idx| ==> idx[k] < |sets|
  {
    KeptUpTo(sets, |sets|, threshold, similarity)
  }

  /** The token sets that the reduction keeps, in frame order. */
  function KeptSets(sets: seq<TokenSet>, threshold: real, similarity: Similarity): (kept: seq<TokenSet>)
    ensures |kept| == 0 <==> |sets| == 0
    ensures |sets| > 0 ==> kept[0] == sets[0]
    ensures forall t :: t in kept ==> t in sets
  {
    Select(sets, KeptIndices(sets, threshold, similarity))
  }

  /** The index of the next kept set after the k-th kept one, or the end `n`. */
  function NextKept(idx: seq<nat>, k: nat, n: nat): nat {
    if k + 1 < |idx| then idx[k + 1] else n
  }

  /** The picks are an order-preserving choice among the first `n` sets that
      starts with the first set. */
  predicate OrderedPicks(idx: seq<nat>, n: nat) {
    && (|idx| == 0 <==> n == 0)
    && (|idx| > 0 ==> idx[0] == 0)
    && (forall k :: 0 <= k < |idx| ==> idx[k] < n)
    && (forall i, j :: 0 <= i < j < |idx| ==> idx[i] < idx[j])
  }

  /** Each pick after the first is below the threshold against the previous pick. */
  predicate KeptBelow(sets: seq<TokenSet>, threshold: real, similarity: Similarity, idx: seq<nat>)
    requires forall k :: 0 <= k < |idx| ==> idx[k] < |sets|
  {
    forall k :: 0 <= k < |idx| - 1 ==> similarity(sets[idx[k + 1]], sets[idx[k]]) < threshold
  }

  /** Every set skipped between two picks, or after the last pick and before
      `n`, is at or above the threshold against the pick before it. */
  predicate DroppedAtOrAbove(sets: seq<TokenSet>, n: nat, threshold: real, similarity: Similarity, idx: seq<nat>)
    requires n <= |sets|
    requires forall k :: 0 <= k < |idx| ==> idx[k] < n
  {
    forall k, j :: 0 <= k < |idx| && idx[k] < j < NextKept(idx, k, n) ==>
      similarity(sets[j], sets[idx[k]]) >= threshold
  }

  /** An independent description of a correct reduction of the first `n`
      sets: `idx` picks out an order-preserving subsequence that starts with
      the first set; each picked set after the first is below the threshold
      against the previously picked one; and every skipped set is at or above
      the threshold against the last pick before it. */
  predicate IsReductionUpTo(sets: seq<TokenSet>, n: nat, threshold: real, similarity: Similarity, idx: seq<nat>)
    requires n <= |sets|
  {
    && OrderedPicks(idx, n)
    && KeptBelow(sets, threshold, similarity, idx)
    && DroppedAtOrAbove(sets, n, threshold, similarity, idx)
  }

  /** A correct reduction of the whole input. */
  predicate IsReduction(sets: seq<TokenSet>, threshold: real, similarity: Similarity, idx: seq<nat>) {
    IsReductionUpTo(sets, |sets|, threshold, similarity, idx)
  }

  /** Appending `n` to picks among the first `n` sets keeps them ordered. */
  lemma KeepOrdered(before: seq<nat>, n: nat)
    requires 0 < n && OrderedPicks(before, n)
    ensures OrderedPicks(before + [n], n + 1)
  {
    var idx := before + [n];
    assert forall k :: 0 <= k < |before| ==> idx[k] == before[k] < n;
  }

  /** A pick of set `n` below the threshold against the last pick keeps
      every pick below the threshold against its predecessor. */
  lemma KeepBelow(sets: seq<TokenSet>, n: nat, threshold: real, similarity: Similarity, before: seq<nat>)
    requires n < |sets| && |before| > 0
    requires forall k :: 0 <= k < |before| ==> before[k] < n
    requires KeptBelow(sets, threshold, similarity, before)
    requires similarity(sets[n], sets[before[|before| - 1]]) < threshold
    ensures KeptBelow(sets, threshold, similarity, before + [n])
  {
    var idx := before + [n];
    forall k | 0 <= k < |idx| - 1
      ensures similarity(sets[idx[k + 1]], sets[idx[k]]) < threshold
    {
      if k < |before| - 1 {
        assert idx[k + 1] == before[k + 1] && idx[k] == before[k];
      }
    }
  }

  /** A pick of set `n` leaves the sets skipped before it as they were. */
  lemma KeepDropped(sets: seq<TokenSet>, n: nat, threshold: real, similarity: Similarity, before: seq<nat>)
    requires n < |sets|
    requires forall k :: 0 <= k < |before| ==> before[k] < n
    requires DroppedAtOrAbove(sets, n, threshold, similarity, before)
    ensures DroppedAtOrAbove(sets, n + 1, threshold, similarity, before + [n])
  {
    var idx := before + [n];
    forall k, j | 0 <= k < |idx| && idx[k] < j < NextKept(idx, k, n + 1)
      ensures similarity(sets[j], sets[idx[k]]) >= threshold
    {
      assert k < |before|;
      assert idx[k] == before[k];
      assert NextKept(idx, k, n + 1) == NextKept(before, k, n);
    }
  }

  /** Skipping set `n`, at or above the threshold against the last pick,
      extends the skipped stretch after that pick. */
  lemma DropDropped(sets: seq<TokenSet>, n: nat, threshold: real, similarity: Similarity, before: seq<nat>)
    requires n < |sets| && |before| > 0
    requires forall k :: 0 <= k < |before| ==> before[k] < n
    requires DroppedAtOrAbove(sets, n, threshold, similarity, before)
    requires similarity(sets[n], sets[before[|before| - 1]]) >= threshold
    ensures DroppedAtOrAbove(sets, n + 1, threshold, similarity, before)
  {
    forall k, j | 0 <= k < |before| && before[k] < j < NextKept(before, k, n + 1)
      ensures similarity(sets[j], sets[before[k]]) >= threshold
    {
      if k < |before| - 1 {
        assert NextKept(before, k, n + 1) == NextKept(before, k, n);
      } else if j < n {
        assert NextKept(before, k, n) == n;
      }
    }
  }

  /** Keeping set `n` extends a correct reduction of the sets before it. */
  lemma ExtendByKeep(sets: seq<TokenSet>, n: nat, threshold: real, similarity: Similarity, before: seq<nat>)
    requires 0 < n < |sets|
    requires IsReductionUpTo(sets, n, threshold, similarity, before)
    requires similarity(sets[n], sets[before[|before| - 1]]) < threshold
    ensures IsReductionUpTo(sets, n + 1, threshold, similarity, before + [n])
  {
    KeepOrdered(before, n);
    KeepBelow(sets, n, threshold, similarity, before);
    KeepDropped(sets, n, threshold, similarity, before);
  }

  /** Dropping set `n` keeps a correct reduction of the sets before it. */
  lemma ExtendByDrop(sets: seq<TokenSet>, n: nat, threshold: real, similarity: Similarity, before: seq<nat>)
    requires 0 < n < |sets|
    requires IsReductionUpTo(sets, n, threshold, similarity, before)
    requires similarity(sets[n], sets[before[|before| - 1]]) >= threshold
    ensures IsReductionUpTo(sets, n + 1, threshold, similarity, before)
  {
    DropDropped(sets, n, threshold, similarity, before);
  }

  /** The sets skipped after each pick but the last stay skipped when the
      last pick, set `n`, is taken away. */
  lemma ShrinkDropped(sets: seq<TokenSet>, n: nat, threshold: real, similarity: Similarity, idx: seq<nat>)
    requires n < |sets| && |idx| > 1 && idx[|idx| - 1] == n
    requires forall k :: 0 <= k < |idx| ==> idx[k] < n + 1
    requires forall k :: 0 <= k < |idx| - 1 ==> idx[k] < n
    requires DroppedAtOrAbove(sets, n + 1, threshold, similarity, idx)
    ensures DroppedAtOrAbove(sets, n, threshold, similarity, idx[..|idx| - 1])
  {
    var before := idx[..|idx| - 1];
    forall k, j | 0 <= k < |before| && before[k] < j < NextKept(before, k, n)
      ensures similarity(sets[j], sets[before[k]]) >= threshold
    {
      assert before[k] == idx[k];
      assert NextKept(idx, k, n + 1) == NextKept(before, k, n);
    }
  }

  /** A correct reduction of the first n + 1 sets that keeps set `n` is a
      correct reduction of the first n, extended by that keep. */
  lemma ShrinkKeep(sets: seq<TokenSet>, n: nat, threshold: real, similarity: Similarity, idx: seq<nat>)
    requires 0 < n < |sets|
    requires IsReductionUpTo(sets, n + 1, threshold, similarity, idx)
    requires idx[|idx| - 1] == n
    ensures |idx| > 1
    ensures IsReductionUpTo(sets, n, threshold, similarity, idx[..|idx| - 1])
    ensures similarity(sets[n], sets[idx[|idx| - 2]]) < threshold
  {
    var before := idx[..|idx| - 1];
    assert |idx| > 1;
    assert forall k :: 0 <= k < |before| ==> before[k] == idx[k] < idx[|idx| - 1];
    assert OrderedPicks(before, n);
    assert KeptBelow(sets, threshold, similarity, before);
    ShrinkDropped(sets, n, threshold, similarity, idx);
  }

  /** A correct reduction of the first n + 1 sets that drops set `n` is a
      correct reduction of the first n, and set `n` was at or above the
      threshold against the last pick. */
  lemma ShrinkDrop(sets: seq<TokenSet>, n: nat, threshold: real, similarity: Similarity, idx: seq<nat>)
    requires 0 < n < |sets|
    requires IsReductionUpTo(sets, n + 1, threshold, similarity, idx)
    requires idx[|idx| - 1] != n
    ensures IsReductionUpTo(sets, n, threshold, similarity, idx)
    ensures similarity(sets[n], sets[idx[|idx| - 1]]) >= threshold
  {
    assert forall k :: 0 <= k < |idx| - 1 ==> idx[k] < idx[|idx| - 1];
    assert OrderedPicks(idx, n);
    assert DroppedAtOrAbove(sets, n, threshold, similarity, idx) by {
      forall k, j | 0 <= k < |idx| && idx[k] < j < NextKept(idx, k, n)
        ensures similarity(sets[j], sets[idx[k]]) >= threshold
      {
        assert NextKept(idx, k, n) <= NextKept(idx, k, n + 1);
      }
    }
    assert idx[|idx| - 1] < n < NextKept(idx, |idx| - 1, n + 1);
  }

  /** One step of the walk keeps it a correct reduction. */
  lemma WalkStep(sets: seq<TokenSet>, n: nat, threshold: real, similarity: Similarity)
    requires 0 < n < |sets|
    requires IsReductionUpTo(sets, n, threshold, similarity, KeptUpTo(sets, n, threshold, similarity))
    ensures IsReductionUpTo(sets, n + 1, threshold, similarity, KeptUpTo(sets, n + 1, threshold, similarity))
  {
    var before := KeptUpTo(sets, n, threshold, similarity);
    if similarity(sets[n], sets[before[|before| - 1]]) < threshold {
      assert KeptUpTo(sets, n + 1, threshold, similarity) == before + [n];
      ExtendByKeep(sets, n, threshold, similarity, before);
    } else {
      assert KeptUpTo(sets, n + 1, threshold, similarity) == before;
      ExtendByDrop(sets, n, threshold, similarity, before);
    }
  }

  /** The walk over the first `n` sets produces a correct reduction of them. */
  lemma {:induction false} KeptUpToIsReduction(sets: seq<TokenSet>, n: nat, threshold: real, similarity: Similarity)
    requires n <= |sets|
    ensures IsReductionUpTo(sets, n, threshold, similarity, KeptUpTo(sets, n, threshold, similarity))
  {
    if n > 1 {
      KeptUpToIsReduction(sets, n - 1, threshold, similarity);
      WalkStep(sets, n - 1, threshold, similarity);
    }
  }

  /** Strictly increasing picks, all below `m`, number at most `m`. */
  lemma {:induction false} PicksAtMost(idx: seq<nat>, m: nat)
    requires forall i, j :: 0 <= i < j < |idx| ==> idx[i] < idx[j]
    requires forall k :: 0 <= k < |idx| ==> idx[k] < m
    ensures |idx| <= m
  {
    if |idx| > 0 {
      var last := idx[|idx| - 1];
      var prefix := idx[..|idx| - 1];
      assert forall k :: 0 <= k < |prefix| ==> prefix[k] == idx[k] < last;
      PicksAtMost(prefix, last);
    }
  }

  /** Among the first set alone, the only correct reduction keeps it. */
  lemma SinglePick(idx: seq<nat>)
    requires OrderedPicks(idx, 1)
    ensures idx == [0]
  {
    PicksAtMost(idx, 1);
  }

  /** A correct reduction that keeps set `n` agrees with the walk, given that
      its part before `n` does. */
  lemma KeepAgrees(sets: seq<TokenSet>, n: nat, threshold: real, similarity: Similarity, idx: seq<nat>)
    requires 0 < n < |sets|
    requires |idx| > 1 && idx[|idx| - 1] == n
    requires idx[..|idx| - 1] == KeptUpTo(sets, n, threshold, similarity)
    requires similarity(sets[n], sets[idx[|idx| - 2]]) < threshold
    ensures idx == KeptUpTo(sets, n + 1, threshold, similarity)
  {
    var before := idx[..|idx| - 1];
    assert before[|before| - 1] == idx[|idx| - 2];
    assert KeptUpTo(sets, n + 1, threshold, similarity) == before + [n];
    assert idx == before + [n];
  }

  /** A correct reduction that drops set `n` agrees with the walk, given that
      it agrees on the sets before `n`. */
  lemma DropAgrees(sets: seq<TokenSet>, n: nat, threshold: real, similarity: Similarity, idx: seq<nat>)
    requires 0 < n < |sets|
    requires idx == KeptUpTo(sets, n, threshold, similarity)
    requires similarity(sets[n], sets[idx[|idx| - 1]]) >= threshold
    ensures idx == KeptUpTo(sets, n + 1, threshold, similarity)
  {
  }

  /** One step back: a correct reduction of the first n + 1 sets gives a
      correct reduction of the first n, and it is the walk's as soon as
      that one is. */
  lemma StepBack(sets: seq<TokenSet>, n: nat, threshold: real, similarity: Similarity, idx: seq<nat>)
    returns (prev: seq<nat>)
    requires 0 < n < |sets|
    requires IsReductionUpTo(sets, n + 1, threshold, similarity, idx)
    ensures IsReductionUpTo(sets, n, threshold, similarity, prev)
    ensures prev == KeptUpTo(sets, n, threshold, similarity) ==> idx == KeptUpTo(sets, n + 1, threshold, similarity)
  {
    if idx[|idx| - 1] == n {
      ShrinkKeep(sets, n, threshold, similarity, idx);
      prev := idx[..|idx| - 1];
      if prev == KeptUpTo(sets, n, threshold, similarity) {
        KeepAgrees(sets, n, threshold, similarity, idx);
      }
    } else {
      ShrinkDrop(sets, n, threshold, similarity, idx);
      prev := idx;
      if prev == KeptUpTo(sets, n, threshold, similarity) {
        DropAgrees(sets, n, threshold, similarity, idx);
      }
    }
  }

  /** A correct reduction of the first `n` sets is the walk's: the
      description determines the kept sets uniquely. */
  lemma {:induction false} ReductionIsKeptUpTo(sets: seq<TokenSet>, n: nat, threshold: real, similarity: Similarity, idx: seq<nat>)
    requires n <= |sets|
    requires IsReductionUpTo(sets, n, threshold, similarity, idx)
    ensures idx == KeptUpTo(sets, n, threshold, similarity)
  {
    if n == 1 {
      SinglePick(idx);
    } else if n > 1 {
      var prev := StepBack(sets, n - 1, threshold, similarity, idx);
      ReductionIsKeptUpTo(sets, n - 1, threshold, similarity, prev);
    }
  }

  /** The walk produces a correct reduction. */
  lemma KeptIndicesIsReduction(sets: seq<TokenSet>, threshold: real, similarity: Similarity)
    ensures IsReduction(sets, threshold, similarity, KeptIndices(sets, threshold, similarity))
  {
    KeptUpToIsReduction(sets, |sets|, threshold, similarity);
  }

  /** A correct reduction is the walk's. */
  lemma ReductionIsKeptIndices(sets: seq<TokenSet>, threshold: real, similarity: Similarity, idx: seq<nat>)
    requires IsReduction(sets, threshold, similarity, idx)
    ensures idx == KeptIndices(sets, threshold, similarity)
  {
    ReductionIsKeptUpTo(sets, |sets|, threshold, similarity, idx);
  }

  /** The concatenation of a prefix of the list is a prefix of the concatenation. */
  lemma {:induction false} ConcatPrefix(sets: seq<TokenSet>, m: nat)
    requires m <= |sets|
    ensures Concat(sets[..m]) <= Concat(sets)
    decreases |sets| - m
  {
    if m < |sets| {
      ConcatPrefix(sets, m + 1);
      assert sets[..m + 1][..m] == sets[..m];
    } else {
      assert sets[..m] == sets;
    }
  }

  /** Each set sits in the concatenation right after all the sets before it. */
  lemma ConcatPlacement(sets: seq<TokenSet>, k: nat)
    requires k < |sets|
    ensures TotalLength(sets[..k]) + |sets[k]| <= |Concat(sets)|
    ensures Concat(sets)[TotalLength(sets[..k]) .. TotalLength(sets[..k]) + |sets[k]|] == sets[k]
  {
    ConcatPrefix(sets, k + 1);
    assert sets[..k + 1][..k] == sets[..k];
  }

  /** `_reduce_similar_tokens`, the loop as written: `reduced` grows by the
      current set whenever it is the first one or its similarity to
      `reduced[-1]` is below the threshold. */
  method ReduceSimilarTokens(tokens: seq<TokenSet>, threshold: real, similarity: Similarity)
    returns (r: Outcome<TokenSet>)
    ensures r == Cat(KeptSets(tokens, threshold, similarity))
    ensures r.Raised? <==> tokens == []
  {
    var reduced: seq<TokenSet> := [];
    ghost var kept: seq<nat> := [];
    for i := 0 to |tokens|
      invariant kept == KeptUpTo(tokens, i, threshold, similarity)
      invariant |reduced| == |kept|
      invariant forall k :: 0 <= k < |kept| ==> reduced[k] == tokens[kept[k]]
    {
      if i == 0 {
        reduced := reduced + [tokens[i]];
        kept := kept + [i];
        continue;
      }
      var score := similarity(tokens[i], reduced[|reduced| - 1]);
      if score < threshold {
        reduced := reduced + [tokens[i]];
        kept := kept + [i];
      }
    }
    assert reduced == KeptSets(tokens, threshold, similarity);
    r := Cat(reduced);
  }

  // ---------------------------------------------------------------------------
  // Consequences for callers

  /** The first frame's tokens always open the reduced sequence. */
  lemma FirstSetKept(tokens: seq<TokenSet>, threshold: real, similarity: Similarity)
    requires tokens != []
    ensures Cat(KeptSets(tokens, threshold, similarity)).Ok?
    ensures tokens[0] <= Cat(KeptSets(tokens, threshold, similarity)).value
  {
    var kept := KeptSets(tokens, threshold, similarity);
    ConcatPlacement(kept, 0);
    assert kept[..0] == [];
  }

  /** A single frame's tokens come back unchanged. */
  lemma SingleSetUnchanged(x: TokenSet, threshold: real, similarity: Similarity)
    ensures Cat(KeptSets([x], threshold, similarity)) == Ok(x)
  {
    assert KeptUpTo([x], 1, threshold, similarity) == [0];
    assert KeptSets([x], threshold, similarity) == [x];
    assert [x][..0] == [];
    assert Concat([x]) == Concat([]) + x == x;
    assert Cat([x]) == Ok(x);
  }

  /** The kept sets are an order-preserving selection of the input, each
      after the first below the threshold against the previously kept one,
      and every dropped set at or above it against the last kept before it. */
  lemma KeptSetsCharacterised(tokens: seq<TokenSet>, threshold: real, similarity: Similarity)
    ensures var idx := KeptIndices(tokens, threshold, similarity);
      && IsReduction(tokens, threshold, similarity, idx)
      && KeptSets(tokens, threshold, similarity) == Select(tokens, idx)
  {
    KeptIndicesIsReduction(tokens, threshold, similarity);
  }

  /** Two frames alike and a third one different: the repeat is dropped
      against the first frame, and the third is compared with the first
      (the last kept), not with the dropped repeat. */
  lemma ComparedWithLastKept(a: TokenSet, b: TokenSet, c: TokenSet, threshold: real, similarity: Similarity)
    requires similarity(b, a) >= threshold
    requires similarity(c, a) < threshold
    ensures Cat(KeptSets([a, b, c], threshold, similarity)) == Ok(a + c)
  {
    var sets := [a, b, c];
    assert KeptUpTo(sets, 1, threshold, similarity) == [0];
    assert KeptUpTo(sets, 2, threshold, similarity) == [0];
    assert KeptIndices(sets, threshold, similarity) == [0, 2];
    var kept := KeptSets(sets, threshold, similarity);
    assert kept == [a, c];
    assert kept[..1] == [a] && [a][..0] == [];
    assert Concat([a]) == a;
    assert Concat(kept) == a + c;
  }
}
