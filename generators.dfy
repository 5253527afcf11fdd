/**
  The generator adapters of generators_ms.py: a common `generate(query,
  parameters)` contract and three adapters that merge per-call options over
  a baseline kept by the adapter, call a backend, and read the text out of
  element 0 of the backend's answer.

  The backend (pipeline, tokenizer, model and the loaders that produce them)
  is given to the constructors as values whose operations are arbitrary
  total functions, so every property below holds whatever the backend does.
 */
module Generators {

  datatype Option<+T> = None | Some(value: T)

  /** The exceptions the adapters themselves raise. */
  datatype Error =
    | NotImplemented          // GeneratorBase.generate: NotImplementedError
    | NotAMapping             // `**parameters` with parameters = None: TypeError
    | IndexOutOfRange         // `[0]` on an empty backend answer: IndexError
    | MissingKey(key: string) // `['generated_text']` absent: KeyError

  datatype Result<+T> = Success(value: T) | Failure(error: Error)

  /**
    An option value.  Floating-point options (top_p, temperature) are kept
    as their decimal literal: they are only stored and passed on.
   */
  datatype Value =
    | NoneValue
    | BoolValue(b: bool)
    | IntValue(i: int)
    | FloatValue(literal: string)
    | StrValue(s: string)
    | ListValue(items: seq<Value>)

  /** A generation configuration or a set of per-call overrides, by option name. */
  type Options = map<string, Value>

  type TokenIds = seq<int>

  /** One element of a text-generation pipeline's answer. */
  type Response = map<string, string>

  datatype Tokenizer = Tokenizer(
    eosTokenId: Value,
    encode: string -> TokenIds,
    decode: TokenIds -> string)

  /** `generate` returns one row of token ids per returned sequence. */
  datatype Model = Model(
    config: Options,
    generate: (TokenIds, Options) -> seq<TokenIds>)

  datatype Pipeline = Pipeline(
    tokenizer: Tokenizer,
    run: (string, Options) -> seq<Response>)

  /** The loaders: pipeline(...), from_pretrained(...), GenerationConfig.from_*. */
  datatype Hub = Hub(
    textGeneration: (string, string) -> Pipeline,
    causalLM: (string, string) -> Model,
    autoTokenizer: (string, string) -> Tokenizer,
    pretrainedGenerationConfig: string -> Options,
    generationConfigFromModel: Options -> Options)

  const DefaultMirror := "modelscope"
  const PadTokenId := "pad_token_id"
  const EosTokenId := "eos_token_id"
  const Stop := "stop"
  const GeneratedText := "generated_text"

  // ---------------------------------------------------------------------
  // Option merging
  // ---------------------------------------------------------------------

  /**
    What `{**base, **overrides}` promises: every key of either map, the
    override's value wherever the caller gave one, and the baseline's value
    for every other key.
   */
  ghost predicate IsOverlay(base: Options, overrides: Options, merged: Options) {
    && merged.Keys == base.Keys + overrides.Keys
    && (forall k :: k in overrides ==> merged[k] == overrides[k])
    && (forall k :: k in base && k !in overrides ==> merged[k] == base[k])
  }

  /** `{**base, **overrides}`. */
  function Overlay(base: Options, overrides: Options): (merged: Options)
    ensures merged.Keys == base.Keys + overrides.Keys
    ensures forall k :: k in overrides ==> merged[k] == overrides[k]
    ensures forall k :: k in base && k !in overrides ==> merged[k] == base[k]
  {
    base + overrides
  }

  /** The precedence rule determines the merged options completely. */
  lemma OverlayIsUnique(base: Options, overrides: Options, merged: Options)
    requires IsOverlay(base, overrides, merged)
    ensures merged == Overlay(base, overrides)
  {
    var o := Overlay(base, overrides);
    assert forall k :: k in merged ==> merged[k] == o[k];
  }

  /** Merging no overrides gives back the baseline itself. */
  lemma OverlayOfNothing(base: Options)
    ensures Overlay(base, map[]) == base
  {
    assert forall k :: k in base ==> Overlay(base, map[])[k] == base[k];
  }

  /**
    `{**base, **parameters}` where `parameters` may be None: unpacking None
    raises TypeError.
   */
  function Unpacked(base: Options, parameters: Option<Options>): (r: Result<Options>)
    ensures r.Failure? <==> parameters.None?
    ensures r.Failure? ==> r.error == NotAMapping
    ensures r.Success? ==> IsOverlay(base, parameters.value, r.value)
  {
    match parameters
    case None => Failure(NotAMapping)
    case Some(p) => Success(Overlay(base, p))
  }

  /** `params.pop('stop')` after `'stop' in params`: the map without that key. */
  function WithoutStop(params: Options): (r: Options)
    ensures r.Keys == params.Keys - {Stop}
    ensures forall k :: k in r ==> r[k] == params[k]
  {
    if Stop in params then params - {Stop} else params
  }

  /**
    The options ReplitCode passes to `model.generate`: the caller's
    parameters (None read as empty) over the defaults, without 'stop'.
   */
  function ReplitOptions(defaults: Options, parameters: Option<Options>): (o: Options)
    ensures Stop !in o
    ensures parameters.Some? ==> o.Keys == (defaults.Keys + parameters.value.Keys) - {Stop}
    ensures parameters.None? ==> o.Keys == defaults.Keys - {Stop}
    ensures parameters.Some? ==> forall k :: k in parameters.value && k != Stop ==> o[k] == parameters.value[k]
    ensures forall k :: k in defaults && k != Stop && (parameters.None? || k !in parameters.value) ==> o[k] == defaults[k]
  {
    var overrides := match parameters case None => map[] case Some(p) => p;
    WithoutStop(Overlay(defaults, overrides))
  }

  /** `parameters=None` and `parameters={}` reach the backend as the same options. */
  lemma ReplitNoneIsEmpty(defaults: Options)
    ensures ReplitOptions(defaults, None) == ReplitOptions(defaults, Some(map[]))
    ensures Stop !in defaults ==> ReplitOptions(defaults, None) == defaults
  {
    OverlayOfNothing(defaults);
  }

  /**
    With 'stop' among the caller's parameters, the backend sees neither the
    key nor anything different for any other parameter.
   */
  lemma ReplitStopStripped(defaults: Options, parameters: Options)
    requires Stop in parameters
    ensures ReplitOptions(defaults, Some(parameters)) == ReplitOptions(defaults, Some(parameters - {Stop}))
  {
    var o1 := ReplitOptions(defaults, Some(parameters));
    var o2 := ReplitOptions(defaults, Some(parameters - {Stop}));
    assert o1.Keys == o2.Keys;
    assert forall k :: k in o1 ==> o1[k] == o2[k];
  }

  // ---------------------------------------------------------------------
  // Reading the answer
  // ---------------------------------------------------------------------

  /** `pipe(...)[0]['generated_text']`. */
  function GeneratedTextOf(responses: seq<Response>): (r: Result<string>)
    ensures |responses| == 0 ==> r == Failure(IndexOutOfRange)
    ensures |responses| > 0 && GeneratedText !in responses[0] ==> r == Failure(MissingKey(GeneratedText))
    ensures r.Success? <==> |responses| > 0 && GeneratedText in responses[0]
    ensures r.Success? ==> r.value == responses[0][GeneratedText]
  {
    if |responses| == 0 then Failure(IndexOutOfRange)
    else if GeneratedText !in responses[0] then Failure(MissingKey(GeneratedText))
    else Success(responses[0][GeneratedText])
  }

  /** `tokenizer.decode(output_ids[0], ...)`. */
  function FirstSequenceText(tokenizer: Tokenizer, outputIds: seq<TokenIds>): (r: Result<string>)
    ensures r.Success? <==> |outputIds| > 0
    ensures r.Failure? ==> r.error == IndexOutOfRange
    ensures r.Success? ==> r.value == tokenizer.decode(outputIds[0])
  {
    if |outputIds| == 0 then Failure(IndexOutOfRange) else Success(tokenizer.decode(outputIds[0]))
  }

  /** Only the first returned sequence is read: answers that share it give one result. */
  lemma OnlyFirstSequenceRead(tokenizer: Tokenizer, outputIds: seq<TokenIds>, others: seq<TokenIds>)
    requires |outputIds| > 0 && |others| > 0 && outputIds[0] == others[0]
    ensures FirstSequenceText(tokenizer, outputIds) == FirstSequenceText(tokenizer, others)
  {
  }

  // ---------------------------------------------------------------------
  // The adapters
  // ---------------------------------------------------------------------

  /** The common contract: `generate` itself is abstract. */
  class GeneratorBase {

    constructor () {}

    function Generate(query: string, parameters: Option<Options>): (r: Result<string>)
      ensures r == Failure(NotImplemented)
    {
      Failure(NotImplemented)
    }

    /** `__call__`: `generate` with `parameters` defaulting to None. */
    function Call(query: string, parameters: Option<Options> := None): (r: Result<string>)
      ensures r == Failure(NotImplemented)
    {
      Generate(query, parameters)
    }
  }

  /** Pipeline-backed adapter. */
  class StarCoder {
    const pretrained: string
    const mirror: string
    const pipe: Pipeline
    var generationConfig: Options

    constructor (hub: Hub, pretrained: string, mirror: string := DefaultMirror)
      ensures this.pretrained == pretrained && this.mirror == mirror
      ensures pipe == hub.textGeneration(pretrained, mirror)
      ensures generationConfig == hub.pretrainedGenerationConfig(pretrained)[PadTokenId := pipe.tokenizer.eosTokenId]
      ensures PadTokenId in generationConfig && generationConfig[PadTokenId] == pipe.tokenizer.eosTokenId
    {
      this.pretrained := pretrained;
      this.mirror := mirror;
      pipe := hub.textGeneration(pretrained, mirror);
      generationConfig := hub.pretrainedGenerationConfig(pretrained);
      new;
      generationConfig := generationConfig[PadTokenId := pipe.tokenizer.eosTokenId];
    }

    /**
      Runs the pipeline on the query with the caller's parameters over the
      baseline and returns the first answer's generated text.  A call
      without parameters fails before the backend is reached.
     */
    function Generate(query: string, parameters: Option<Options>): (r: Result<string>)
      reads this
      ensures parameters.None? ==> r == Failure(NotAMapping)
      ensures parameters.Some? ==> r == GeneratedTextOf(pipe.run(query, Overlay(generationConfig, parameters.value)))
    {
      var config := Unpacked(generationConfig, parameters);
      if config.Failure? then Failure(config.error)
      else GeneratedTextOf(pipe.run(query, config.value))
    }

    /** The inherited `__call__`. */
    function Call(query: string, parameters: Option<Options> := None): (r: Result<string>)
      reads this
      ensures r == Generate(query, parameters)
      ensures parameters.None? ==> r == Failure(NotAMapping)
    {
      Generate(query, parameters)
    }
  }

  /** Direct tokenizer-and-model adapter whose baseline comes from the model's configuration. */
  class SantaCoder {
    const pretrained: string
    const mirror: string
    const model: Model
    const tokenizer: Tokenizer
    var generationConfig: Options

    constructor (hub: Hub, pretrained: string, mirror: string := DefaultMirror)
      ensures this.pretrained == pretrained && this.mirror == mirror
      ensures model == hub.causalLM(pretrained, mirror) && tokenizer == hub.autoTokenizer(pretrained, mirror)
      ensures generationConfig == hub.generationConfigFromModel(model.config)[PadTokenId := tokenizer.eosTokenId]
      ensures PadTokenId in generationConfig && generationConfig[PadTokenId] == tokenizer.eosTokenId
    {
      this.pretrained := pretrained;
      this.mirror := mirror;
      var model := hub.causalLM(pretrained, mirror);
      this.model := model;
      tokenizer := hub.autoTokenizer(pretrained, mirror);
      generationConfig := hub.generationConfigFromModel(model.config);
      new;
      generationConfig := generationConfig[PadTokenId := tokenizer.eosTokenId];
    }

    /**
      Encodes the query, generates with the caller's parameters over the
      baseline, and decodes the first output sequence.
     */
    function Generate(query: string, parameters: Option<Options>): (r: Result<string>)
      reads this
      ensures parameters.None? ==> r == Failure(NotAMapping)
      ensures parameters.Some? ==>
        r == FirstSequenceText(tokenizer, model.generate(tokenizer.encode(query), Overlay(generationConfig, parameters.value)))
    {
      var inputIds := tokenizer.encode(query);
      var config := Unpacked(generationConfig, parameters);
      if config.Failure? then Failure(config.error)
      else FirstSequenceText(tokenizer, model.generate(inputIds, config.value))
    }

    /** The inherited `__call__`. */
    function Call(query: string, parameters: Option<Options> := None): (r: Result<string>)
      reads this
      ensures r == Generate(query, parameters)
      ensures parameters.None? ==> r == Failure(NotAMapping)
    {
      Generate(query, parameters)
    }
  }

  /** ReplitCode's hard-coded sampling defaults, given the tokenizer's end-of-sequence id. */
  function ReplitDefaults(eos: Value): (d: Options)
    ensures Stop !in d
    ensures d.Keys == {"do_sample", "top_p", "top_k", PadTokenId, "temperature", "num_return_sequences", EosTokenId}
    ensures d[PadTokenId] == eos && d[EosTokenId] == eos
    ensures d["do_sample"] == BoolValue(true) && d["top_k"] == IntValue(4) && d["num_return_sequences"] == IntValue(1)
    ensures d["top_p"] == FloatValue("0.95") && d["temperature"] == FloatValue("0.2")
  {
    map[
      "do_sample" := BoolValue(true),
      "top_p" := FloatValue("0.95"),
      "top_k" := IntValue(4),
      PadTokenId := eos,
      "temperature" := FloatValue("0.2"),
      "num_return_sequences" := IntValue(1),
      EosTokenId := eos]
  }

  /** Direct tokenizer-and-model adapter with hard-coded sampling defaults. */
  class ReplitCode {
    const pretrained: string
    const mirror: string
    const model: Model
    const tokenizer: Tokenizer
    const defaultParameter: Options

    /** The defaults are the hard-coded ones for this tokenizer. */
    ghost predicate Valid() {
      defaultParameter == ReplitDefaults(tokenizer.eosTokenId)
    }

    constructor (hub: Hub, pretrained: string, mirror: string := DefaultMirror)
      ensures Valid()
      ensures this.pretrained == pretrained && this.mirror == mirror
      ensures model == hub.causalLM(pretrained, mirror) && tokenizer == hub.autoTokenizer(pretrained, mirror)
    {
      this.pretrained := pretrained;
      this.mirror := mirror;
      model := hub.causalLM(pretrained, mirror);
      var tokenizer := hub.autoTokenizer(pretrained, mirror);
      this.tokenizer := tokenizer;
      defaultParameter := ReplitDefaults(tokenizer.eosTokenId);
    }

    /**
      Encodes the query, builds a fresh option map from the defaults and the
      caller's parameters, drops 'stop' from it, generates, and decodes the
      first output sequence.
     */
    method Generate(query: string, parameters: Option<Options> := None) returns (r: Result<string>)
      ensures r == FirstSequenceText(tokenizer, model.generate(tokenizer.encode(query), ReplitOptions(defaultParameter, parameters)))
    {
      var inputIds := tokenizer.encode(query);
      var params := defaultParameter + (match parameters case None => map[] case Some(p) => p);
      if Stop in params {
        params := params - {Stop};
      }
      var outputIds := model.generate(inputIds, params);
      r := FirstSequenceText(tokenizer, outputIds);
    }

    /** The inherited `__call__`. */
    method Call(query: string, parameters: Option<Options> := None) returns (r: Result<string>)
      ensures r == FirstSequenceText(tokenizer, model.generate(tokenizer.encode(query), ReplitOptions(defaultParameter, parameters)))
    {
      r := Generate(query, parameters);
    }
  }

  // ---------------------------------------------------------------------
  // Calls in sequence
  // ---------------------------------------------------------------------

  /**
    An override given on one call does not leak into the next: after any
    call, a call with `{}` hands the model exactly the defaults, and so does
    a call without parameters.  `model.generate` is a function of the input
    ids and the options, so equal options give equal text here.
   */
  method ReplitOverridesDoNotLeak(g: ReplitCode, query: string, overrides: Options)
    returns (first: Result<string>, second: Result<string>, third: Result<string>)
    requires g.Valid()
    ensures first == FirstSequenceText(g.tokenizer, g.model.generate(g.tokenizer.encode(query), ReplitOptions(g.defaultParameter, Some(overrides))))
    ensures second == FirstSequenceText(g.tokenizer, g.model.generate(g.tokenizer.encode(query), g.defaultParameter))
    ensures third == FirstSequenceText(g.tokenizer, g.model.generate(g.tokenizer.encode(query), g.defaultParameter))
  {
    first := g.Generate(query, Some(overrides));
    second := g.Generate(query, Some(map[]));
    third := g.Call(query);
    ReplitNoneIsEmpty(g.defaultParameter);
  }

  /** For the pipeline adapter, a call with `{}` runs the pipeline on the baseline itself. */
  lemma StarCoderEmptyOverridesUseBaseline(g: StarCoder, query: string)
    ensures g.Generate(query, Some(map[])) == GeneratedTextOf(g.pipe.run(query, g.generationConfig))
  {
    OverlayOfNothing(g.generationConfig);
  }

  /** For SantaCoder, a call with `{}` generates with the baseline itself. */
  lemma SantaCoderEmptyOverridesUseBaseline(g: SantaCoder, query: string)
    ensures g.Generate(query, Some(map[])) ==
      FirstSequenceText(g.tokenizer, g.model.generate(g.tokenizer.encode(query), g.generationConfig))
  {
    OverlayOfNothing(g.generationConfig);
  }
}
