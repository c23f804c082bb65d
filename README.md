# Adaptive frame tokenization, response cache and model registry

A Dafny model of three pieces of an AI-explorer code base:

- **Adaptive frame tokenization** (`VideoLLaMA3Implementation` in
  `implementation.py`). Each video frame gets a visual-complexity score:
  the frame is averaged over its channels into a luma grid, and the score is
  the average of the mean absolute first differences along the two spatial
  axes. The score sets the frame's token budget,
  `min(max(score * 64, 16), max_frame_tokens)` with `max_frame_tokens = 1024`.
  The vision encoder turns the frame into that many tokens. Finally the
  per-frame token sets are reduced: the first set is always kept, each later
  set is kept only when its similarity to the last *kept* set is below the
  threshold (default 0.8), and the kept sets are concatenated in frame order.
- **Response cache** (`Phi2Interface` in `ui/interface.py`). A request is
  keyed by `f"{prompt}_{mode.value}_{config}"`. With caching on, a cached key
  is answered without generating. Otherwise the prompt gets its mode's prefix
  and goes to the model, and a successful response is stored under the key.
  A failure is re-raised and leaves the cache as it was. `clear_cache`
  empties the cache.
- **Model registry** (`ModelRegistry` in `model_registery.py`). Names map to
  model factories. Registering a name twice raises `ValueError`. Looking up
  an unknown name raises `KeyError`. Names are listed in registration order.
  Importing the module registers `"codellama"`.

Files: `outcomes.dfy` (exceptions as values, `Option`), `complexity.dfy`,
`reduction.dfy` and `adaptive_tokenization.dfy` (the tokenizer),
`phi2_interface.dfy` (the cache), `model_registry.dfy` (the registry).

Modelling choices:

- Pixel values, scores, budgets and similarities are Dafny `real`, so the
  arithmetic is exact.
- A score is `NaN | Num(v)`. torch's mean over an empty tensor is NaN, and
  Python's `max` and `min` return a NaN first argument unchanged.
- These collaborators are function-valued parameters or fields:
  - the vision encoder and the similarity measure;
  - the tokenizer and model together (`generate`) and `decode`, each of
    which may raise;
  - Python's `str()` of a `ModelConfig`, which renders floats;
  - each model factory.
- A Python exception is an `Outcome` value (`Raised(error)`). No
  precondition forbids an input the code accepts.
- The generation time is a parameter (`elapsed`), because the source reads
  it from the clock.

What the code does at its edges:

- The budget `min(max(score * 64, 16), max_frame_tokens)` is not rounded
  to an integer.
- A ceiling below 16 gives the ceiling.
- A frame with no channel, fewer than two rows or fewer than two columns
  scores NaN, and so does its budget.
- Reducing an empty list of token sets raises, because `torch.cat([])`
  raises.
- The docstring of `_calculate_complexity` gives the score's range as 0-1.
  That holds for a frame with a channel, at least two rows and two columns,
  and every pixel value in [0, 1]; smaller frames score NaN. With pixel
  values on the 0-255 scale, held as floats, a frame can score far above 1:
  a one-channel 2x2 frame with a black and a white column scores 127.5. The
  ceiling of 1024 then decides the budget.
- The response cache has no size limit. Nothing is ever removed from it
  except by `clear_cache`.

## Model

| member | source | states |
|---|---|---|
| `Complexity.Luma` | implementation.py:129 | the luma grid keeps the frame's rows and columns and is rectangular |
| `Complexity.RowDiffs` | implementation.py:130 | the row-difference tensor has one row fewer than the grid and the grid's width |
| `Complexity.ColDiffs` | implementation.py:131 | the column-difference tensor has the grid's rows, each one column narrower |
| `Complexity.DiffsNumel` | implementation.py:130-131 | the two difference tensors hold (rows-1)*cols and rows*(cols-1) entries |
| `Complexity.MeanNonNegative` | implementation.py:130-131 | the mean of a non-empty tensor of non-negative entries is non-negative, and zero exactly when every entry is zero |
| `Complexity.TotalNonNegative` | implementation.py:130-131 | a sum of non-negative entries is non-negative, and zero exactly when all entries are zero |
| `Complexity.ComplexityNaN` | implementation.py:129-135 | the score is NaN exactly when the frame has no channel, fewer than two rows or fewer than two columns |
| `Complexity.ComplexityNonNegative` | implementation.py:129-135 | a numeric score is never negative |
| `Complexity.Mean` | implementation.py:130-131 | the mean of a tensor is NaN exactly when it has no entries, and otherwise times the number of entries gives the total |
| `Complexity.CalculateComplexity` | implementation.py:118-135 | the score of a frame: the average of the mean absolute row and column differences of its luma; its properties are the lemmas below |
| `Complexity.ComplexityAtMostOne` | implementation.py:126-135 | when every pixel value lies in [0, 1], a numeric score (a frame with a channel and at least two rows and two columns) lies in the documented range 0-1 |
| `Complexity.EightBitFrameScore` | implementation.py:126-135 | with pixel values on the 0-255 scale, held as floats, the range fails: a one-channel 2x2 frame with a black and a white column scores 127.5 |
| `Complexity.ComplexityZeroIffFlat` | implementation.py:129-135 | a frame with at least two rows and columns scores exactly 0 if and only if its luma is uniform |
| `AdaptiveTokenization.TokenBudget` | implementation.py:100-103 | the budget never exceeds `max_frame_tokens`; it is at least 16 when `max_frame_tokens >= 16` and equals the ceiling otherwise; it equals `score*64` when that lies in [16, max]; NaN exactly for a NaN score |
| `AdaptiveTokenization.TokenBudgetMonotone` | implementation.py:100-103 | the budget is non-decreasing in the score |
| `AdaptiveTokenization.FrameBudgetBounds` | implementation.py:99-103 | with `max_frame_tokens = 1024`, every frame with two or more rows and columns gets a budget in [16, 1024]; the others get NaN |
| `AdaptiveTokenization.FrameBudget` | implementation.py:99-103 | the budget a frame is encoded with: the budget of its score under the ceiling 1024; its bounds are `FrameBudgetBounds` |
| `AdaptiveTokenization.UnitFrameBudget` | implementation.py:99-103 | a frame with pixel values in [0, 1] and at least two rows and two columns gets between 16 and 64 tokens |
| `AdaptiveTokenization.EightBitFrameHitsCeiling` | implementation.py:99-103 | the frame with 0-255 float values scoring 127.5 gets exactly the ceiling of 1024 tokens |
| `AdaptiveTokenization.FlatFrameGetsFloor` | implementation.py:99-103 | a frame of uniform luma with at least two rows and two columns gets exactly 16 tokens |
| `AdaptiveTokenization.EncodedFrames` | implementation.py:96-108 | the loop collects exactly one token set per frame |
| `AdaptiveTokenization.EncodedFramesPointwise` | implementation.py:96-108 | token set k is frame k encoded with frame k's own budget, so the sets follow frame order |
| `AdaptiveTokenization.AdaptiveTokenize` | implementation.py:80-116 | the loop encodes frame i with its own budget as token set i, and the result is the reduction of those sets; it raises exactly when there are no frames |
| `Reduction.Concat` | implementation.py:163 | the concatenation holds as many tokens as the sets together |
| `Reduction.ConcatPlacement` | implementation.py:163 | each set appears in the concatenation, unchanged, right after all the sets before it |
| `Reduction.Cat` | implementation.py:163 | `torch.cat` raises exactly on an empty list (torch's `RuntimeError`, named `EmptyTensorList` in the model) and otherwise returns all the tokens |
| `Reduction.Select` | implementation.py:152-161 | the selection has one set per chosen index |
| `Reduction.KeptUpTo` | implementation.py:152-161 | the walk over the first n sets keeps nothing only for n = 0, always keeps set 0, and keeps only indices below n |
| `Reduction.KeptIndices` | implementation.py:152-161 | the walk keeps index 0 whenever the input is non-empty, keeps nothing only for empty input, and keeps only valid indices |
| `Reduction.KeptSets` | implementation.py:152-161 | the kept sets are empty exactly for empty input, start with the first set, and are all taken from the input |
| `Reduction.KeptIndicesIsReduction` | implementation.py:152-161 | the kept indices are strictly increasing and start at 0; each kept set after the first is below the threshold against the previously kept set; every dropped set is at or above the threshold against the last set kept before it |
| `Reduction.ReductionIsKeptIndices` | implementation.py:152-161 | any selection with those properties is the walk's, so the description and the loop agree both ways |
| `Reduction.KeptSetsCharacterised` | implementation.py:152-163 | the kept sets are the input's sets at the kept indices, an order-preserving subsequence |
| `Reduction.ReduceSimilarTokens` | implementation.py:137-163 | the loop returns the concatenation of the kept sets, and raises exactly on empty input |
| `Reduction.FirstSetKept` | implementation.py:153-156 | for non-empty input the first frame's tokens open the output |
| `Reduction.SingleSetUnchanged` | implementation.py:152-163 | a single token set comes back unchanged |
| `Reduction.ComparedWithLastKept` | implementation.py:159-161 | with inputs [a, b, c], where b is similar to a and c is not, the output is a then c: c is compared with a, the last kept set, not with the dropped b |
| `Phi2.ModelMode.Value` | ui/interface.py:13-16 | `mode.value`: "standard", "coding" and "technical" |
| `Phi2.ModeValueInjective` | ui/interface.py:13-16 | distinct modes have distinct values |
| `Phi2.FormatPromptForMode` | ui/interface.py:120-127 | the formatted prompt starts with the mode's prefix and continues with the prompt unchanged |
| `Phi2.FormatPromptRecoverable` | ui/interface.py:120-127 | under one mode, equal formatted prompts come from equal prompts; STANDARD sends the prompt as it is |
| `Phi2.CacheKey` | ui/interface.py:64 | the key starts with the prompt, ends with the configuration text, and is two separators longer than prompt, mode value and configuration text together |
| `Phi2.CacheKeyInjective` | ui/interface.py:64 | for the same configuration text, equal cache keys mean equal prompts and equal modes |
| `Phi2.Serve` | ui/interface.py:61-118 | a hit (caching on, key present) returns the stored response without generating; otherwise the model is asked with the formatted prompt; an exception it raises is re-raised unchanged; an empty output raises `IndexError`; an exception the decoder raises on the first output sequence is re-raised unchanged; otherwise the response has the decoding of that sequence as `text`, that sequence's length as `token_count`, the elapsed time as `generation_time`, `mode.value` as `mode` and the model's name as `model_name`; a failure leaves the cache unchanged; with caching off the cache is unchanged; a success with caching on stores the response under the key and changes no other entry |
| `Phi2.RepeatIsCacheHit` | ui/interface.py:64-66 | after a successful generation with caching on, the same request is a hit that returns the same response without generating |
| `Phi2.ServeKeepsEntries` | ui/interface.py:110-112 | a call never removes or changes an entry that is already cached |
| `Phi2.Phi2Interface.constructor` | ui/interface.py:28-33 | a new interface starts with an empty cache |
| `Phi2.Phi2Interface.GenerateResponse` | ui/interface.py:51-118 | the method returns what `Serve` says, leaves the cache `Serve` says, and records a model call exactly when `Serve` generates, with the formatted prompt and the configuration, defaulted when none is given |
| `Phi2.Phi2Interface.ClearCache` | ui/interface.py:129-132 | the cache is empty afterwards |
| `Registry.ModelRegistry.constructor` | model_registery.py:10-11 | a new registry is empty |
| `Registry.ModelRegistry.RegisterModel` | model_registery.py:13-23 | a present name raises `ValueError` and leaves the registry unchanged; a new name is appended to the names and mapped to its factory, with every other entry unchanged |
| `Registry.ModelRegistry.GetModel` | model_registery.py:25-37 | an unregistered name raises `KeyError`; a registered one returns what its factory returns |
| `Registry.ModelRegistry.ListModels` | model_registery.py:39-46 | the names in registration order, each once, exactly the registered ones, as many as there were successful registrations |
| `Registry.RegisterModels` | model_registery.py:51-56 | afterwards `"codellama"` is registered; a second run raises `ValueError` and changes nothing |
| `Registry.InitializeModule` | model_registery.py:48-83 | after the module is imported, exactly `"codellama"` is registered, with the CodeLlama factory |

## Left out

- Model, weight and tokenizer loading, and device placement
  (`VideoLLaMA3Implementation.__init__`, `_load_model`,
  `Phi2Interface._initialize_model`): these are calls into external
  libraries.
- Video decoding and frame sampling (`preprocess_video`): this is file I/O
  and float index rounding. `_adaptive_tokenize` takes the decoded frames as
  its input.
- Frame data type: `preprocess_video` hands the decoder's 8-bit (`uint8`)
  frames to `_adaptive_tokenize` unconverted (implementation.py:69-73).
  `frame.mean(dim=0)` raises on an integer tensor, so as written every call
  of `preprocess_video` fails with `RuntimeError`. The model takes frames
  as reals, that is, it describes `_adaptive_tokenize` on a floating-point
  tensor.
- `VideoLLaMA3Implementation.generate_response`: it only chains
  preprocessing, the tokenizer and the model, which are all external.
- The vision encoder is a total function of the frame and its budget. An
  exception raised inside it would propagate out of `_adaptive_tokenize`
  unchanged; that path is not modelled.
- `_calculate_similarity` is called (implementation.py:159) but not
  defined in `VideoLLaMA3Implementation`, so as written
  `_reduce_similar_tokens` raises `AttributeError` on two or more token
  sets. The model takes the similarity measure as a parameter: a total,
  real-valued function with no properties assumed.
- Reduction.Cat: the encoder is assumed to return tokens of one width.
  `torch.cat(..., dim=1)` also raises when the tensors differ in their
  other dimensions, and that shape-mismatch error is not modelled.
- Phi2.Serve: `generate` is a function of the formatted prompt and the
  configuration. The source samples (`do_sample=True`,
  ui/interface.py:84-94), so two uncached identical requests can get
  different texts; the model gives both the same response.
- Float rounding, and NaN results of the similarity measure.
- `Phi2.Phi2Interface.GenerateResponse`: the method returns a copy of the
  cached response, where the source returns the cached dictionary object
  itself. Aliasing between the caller and the cache is therefore not
  modelled.
- The `stream` argument of `generate_response`: it is accepted but never
  used.
- Timing and logging: `time.time()` is replaced by the `elapsed`
  parameter, and `logging` calls are side effects only.
- The `model_info` property: it returns a constant dictionary.
- Module-level `get_available_models` and `get_model` in
  `model_registery.py`: they only forward to the global registry's
  `ListModels` and `GetModel`.
- Concurrency: the modelled code is single-threaded.
- The UI, HTTP routes, JavaScript hooks, `pipeline.py` and
  `scriptconfig.py`: these are interface and I/O code.
