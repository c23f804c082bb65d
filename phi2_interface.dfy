/** `Phi2Interface`: text generation behind a response cache. A request is
    keyed by its prompt, mode and configuration; with caching on, a key seen
    before is answered from the cache without generating, and a response is
    stored only once generation has succeeded. */
module Phi2 {
  import opened Outcomes

  /** `ModelMode`: how the prompt is framed for the model. */
  datatype ModelMode = Standard | Coding | Technical {
    /** `mode.value` */
    function Value(): string {
      match this
      case Standard => "standard"
      case Coding => "coding"
      case Technical => "technical"
    }
  }

  /** The enumeration's values are distinct, so `mode.value` identifies the mode. */
  lemma ModeValueInjective(m1: ModelMode, m2: ModelMode)
    requires m1.Value() == m2.Value()
    ensures m1 == m2
  {
  }

  /** `ModelConfig`: the generation parameters. */
  datatype ModelConfig = ModelConfig(
    maxLength: int,
    temperature: real,
    topP: real,
    topK: int,
    repetitionPenalty: real,
    numReturnSequences: int)

  /** `ModelConfig()` with its field defaults. */
  const DefaultConfig := ModelConfig(2048, 0.7, 0.9, 50, 1.1, 1)

  const ModelName := "microsoft/phi-2"

  /** The dictionary `generate_response` returns. */
  datatype Response = Response(
    text: string,
    generationTime: real,
    tokenCount: nat,
    mode: string,
    modelName: string)

  /** What `generate_response` relies on but does not define: the tokenizer
      and model together (`generate`, which turns a formatted prompt and a
      configuration into the output token sequences, or raises), the
      tokenizer's `decode`, which may also raise, and Python's `str` of a `ModelConfig` (the
      dataclass repr, which renders float fields). */
  datatype Collaborators = Collaborators(
    generate: (string, ModelConfig) -> Outcome<seq<seq<int>>>,
    decode: seq<int> -> Outcome<string>,
    configRepr: ModelConfig -> string)

  /** The text each mode puts in front of the prompt. */
  function ModePrefix(mode: ModelMode): string {
    match mode
    case Coding => "Write code to solve the following: "
    case Technical => "Provide a technical explanation for: "
    case Standard => ""
  }

  /** `_format_prompt_for_mode` */
  function FormatPromptForMode(prompt: string, mode: ModelMode): (r: string)
    ensures ModePrefix(mode) <= r
    ensures r[|ModePrefix(mode)|..] == prompt
  {
    ModePrefix(mode) + prompt
  }

  /** Under one mode, formatting loses nothing: distinct prompts are sent as
      distinct texts, and a standard prompt is sent as it is. */
  lemma FormatPromptRecoverable(p1: string, p2: string, mode: ModelMode)
    requires FormatPromptForMode(p1, mode) == FormatPromptForMode(p2, mode)
    ensures p1 == p2
    ensures FormatPromptForMode(p1, Standard) == p1
  {
  }

  /** `f"{prompt}_{mode.value}_{config}"` */
  function CacheKey(prompt: string, mode: ModelMode, configText: string): (key: string)
    ensures |key| == |prompt| + |mode.Value()| + |configText| + 2
    ensures key[..|prompt|] == prompt
    ensures key[|key| - |configText|..] == configText
  {
    prompt + "_" + mode.Value() + "_" + configText
  }

  /** Under one configuration, a cache key determines the prompt and the mode:
      distinct requests never share an entry. */
  lemma CacheKeyInjective(p1: string, m1: ModelMode, p2: string, m2: ModelMode, configText: string)
    requires CacheKey(p1, m1, configText) == CacheKey(p2, m2, configText)
    ensures p1 == p2 && m1 == m2
  {
    var k := CacheKey(p1, m1, configText);
    var tail := "_" + configText;
    var head1, head2 := p1 + "_" + m1.Value(), p2 + "_" + m2.Value();
    assert k == head1 + tail && k == head2 + tail;
    assert head1 == k[..|k| - |tail|] == head2;
    // the modes' values end in different letters
    assert head1[|head1| - 1] == m1.Value()[|m1.Value()| - 1];
    assert head2[|head2| - 1] == m2.Value()[|m2.Value()| - 1];
    assert m1 == m2;
    assert p1 == head1[..|p1|] && p2 == head2[..|p2|];
  }

  /** The outcome of one call of `generate_response`, the cache after it, and
      whether the model was asked to generate. */
  datatype Served = Served(result: Outcome<Response>, cache: map<string, Response>, generated: bool)

  /** `generate_response` as a function of the cache before the call. The
      model is asked only on a miss (or with caching off); any exception it
      or the decoder raises, or the indexing of an empty output, is re-raised and leaves the
      cache as it was; a success is stored under the key when caching is on. */
  function Serve(cache: map<string, Response>, useCache: bool, collaborators: Collaborators,
                 prompt: string, config: Option<ModelConfig>, mode: ModelMode, elapsed: real): (s: Served)
    ensures var cfg := config.GetOr(DefaultConfig);
      var key := CacheKey(prompt, mode, collaborators.configRepr(cfg));
      var outs := collaborators.generate(FormatPromptForMode(prompt, mode), cfg);
      && (useCache && key in cache ==> s == Served(Ok(cache[key]), cache, false))
      && (!(useCache && key in cache) ==> s.generated)
      && (s.generated && outs.Raised? ==> s.result == Raised(outs.error))
      && (s.generated && outs.Ok? && outs.value == [] ==> s.result == Raised(IndexError))
      && (s.generated && outs.Ok? && outs.value != [] && collaborators.decode(outs.value[0]).Raised? ==>
            s.result == Raised(collaborators.decode(outs.value[0]).error))
      && (s.generated && outs.Ok? && outs.value != [] && collaborators.decode(outs.value[0]).Ok? ==>
            && s.result.Ok?
            && s.result.value.text == collaborators.decode(outs.value[0]).value
            && s.result.value.tokenCount == |outs.value[0]|
            && s.result.value.generationTime == elapsed
            && s.result.value.modelName == ModelName)
      && (s.result.Raised? ==> s.cache == cache)
      && (!useCache ==> s.cache == cache)
      && (useCache && s.generated && s.result.Ok? ==> s.cache == cache[key := s.result.value])
      && (s.generated && s.result.Ok? ==> s.result.value.mode == mode.Value())
  {
    var cfg := config.GetOr(DefaultConfig);
    var key := CacheKey(prompt, mode, collaborators.configRepr(cfg));
    if useCache && key in cache then Served(Ok(cache[key]), cache, false)
    else
      match collaborators.generate(FormatPromptForMode(prompt, mode), cfg)
      case Raised(e) => Served(Raised(e), cache, true)
      case Ok(outputs) =>
        if |outputs| == 0 then Served(Raised(IndexError), cache, true)
        else
          match collaborators.decode(outputs[0])
          case Raised(e) => Served(Raised(e), cache, true)
          case Ok(text) =>
            var response := Response(text, elapsed, |outputs[0]|, mode.Value(), ModelName);
            Served(Ok(response), if useCache then cache[key := response] else cache, true)
  }

  /** Once a request has been answered by generation with caching on, asking
      again is answered from the cache with the same response, without
      generating, and the cache stays as it is. */
  lemma RepeatIsCacheHit(cache: map<string, Response>, collaborators: Collaborators,
                         prompt: string, config: Option<ModelConfig>, mode: ModelMode, elapsed1: real, elapsed2: real)
    requires Serve(cache, true, collaborators, prompt, config, mode, elapsed1).result.Ok?
    ensures var first := Serve(cache, true, collaborators, prompt, config, mode, elapsed1);
      Serve(first.cache, true, collaborators, prompt, config, mode, elapsed2) == Served(first.result, first.cache, false)
  {
  }

  /** Serving never removes or changes an entry that was already cached. */
  lemma ServeKeepsEntries(cache: map<string, Response>, useCache: bool, collaborators: Collaborators,
                          prompt: string, config: Option<ModelConfig>, mode: ModelMode, elapsed: real, key: string)
    requires key in cache
    ensures var s := Serve(cache, useCache, collaborators, prompt, config, mode, elapsed);
      key in s.cache && s.cache[key] == cache[key]
  {
  }

  /** `Phi2Interface`, its cache state machine. `generateCalls` records every
      request that reached the model, with the formatted prompt and the
      configuration it was given. */
  class Phi2Interface {
    const modelName: string := ModelName
    const useCache: bool
    const collaborators: Collaborators
    var responseCache: map<string, Response>
    ghost var generateCalls: seq<(string, ModelConfig)>

    /** `__init__`; loading the weights is not modelled. */
    constructor(useCache: bool, collaborators: Collaborators)
      ensures this.useCache == useCache && this.collaborators == collaborators
      ensures modelName == ModelName
      ensures responseCache == map[] && generateCalls == []
    {
      this.useCache := useCache;
      this.collaborators := collaborators;
      responseCache := map[];
      generateCalls := [];
    }

    /** `generate_response`, cache path and generation; `elapsed` is the
        wall-clock time the generation took. */
    method GenerateResponse(prompt: string, config: Option<ModelConfig>, mode: ModelMode, elapsed: real)
      returns (r: Outcome<Response>)
      modifies this
      ensures var s := Serve(old(responseCache), useCache, collaborators, prompt, config, mode, elapsed);
        && r == s.result
        && responseCache == s.cache
        && generateCalls == old(generateCalls) +
             (if s.generated then [(FormatPromptForMode(prompt, mode), config.GetOr(DefaultConfig))] else [])
    {
      ghost var served := Serve(responseCache, useCache, collaborators, prompt, config, mode, elapsed);
      var cfg := if config.Some? then config.value else DefaultConfig;
      var cacheKey := CacheKey(prompt, mode, collaborators.configRepr(cfg));
      if useCache && cacheKey in responseCache {
        assert served == Served(Ok(responseCache[cacheKey]), responseCache, false);
        return Ok(responseCache[cacheKey]);
      }
      var formattedPrompt := FormatPromptForMode(prompt, mode);
      generateCalls := generateCalls + [(formattedPrompt, cfg)];
      var outputs := collaborators.generate(formattedPrompt, cfg);
      if outputs.Raised? {
        assert served == Served(Raised(outputs.error), responseCache, true);
        return Raised(outputs.error);
      }
      if |outputs.value| == 0 {
        assert served == Served(Raised(IndexError), responseCache, true);
        return Raised(IndexError);
      }
      var responseText := collaborators.decode(outputs.value[0]);
      if responseText.Raised? {
        assert served == Served(Raised(responseText.error), responseCache, true);
        return Raised(responseText.error);
      }
      var responseData := Response(responseText.value, elapsed, |outputs.value[0]|, mode.Value(), modelName);
      if useCache {
        responseCache := responseCache[cacheKey := responseData];
      }
      assert served == Served(Ok(responseData), responseCache, true);
      return Ok(responseData);
    }

    /** `clear_cache` */
    method ClearCache()
      modifies this`responseCache
      ensures responseCache == map[]
    {
      responseCache := map[];
    }
  }
}
