/**
 * AiModelServiceImpl: creating and updating model records (identifier
 * derivation and uniqueness, the calling-type mapping, optional provider
 * type and config parsing) and listing the enabled models of one type.
 */
module AiModels {
  import opened Wrappers
  import opened JavaStrings
  import opened JsonValues
  import opened ModelCallingTypes

  datatype AccessType = RemoteApi | Local

  datatype ModelType = Llm | Embedding

  /** The model-creation request as far as the service reads it. */
  datatype CreateRequest = CreateRequest(
    modelName: Option<string>,
    modelIdentifier: Option<string>,
    modelCallingType: Option<string>,
    providerId: Option<int>,
    providerType: Option<string>,
    modelConfig: Option<string>,
    isEnabled: Option<bool>)

  datatype AiModel = AiModel(
    modelName: Option<string>,
    modelIdentifier: string,
    callingType: CallingType,
    accessType: AccessType,
    modelType: ModelType,
    providerId: Option<int>,
    providerType: Option<string>,
    modelConfig: seq<Member>,
    isEnabled: Option<bool>)

  datatype Error = Business(message: string) | NotFound(resource: string) | NullPointer

  /** Characters java.util.regex's \s matches. */
  predicate IsRegexSpace(c: char) {
    c == ' ' || c == '\t' || c == '\n' || c == '\U{B}' || c == '\U{C}' || c == '\r'
  }

  /** replaceAll("\\s+", "_"): every maximal run of whitespace becomes one underscore. */
  function CollapseSpaces(s: string): (r: string)
    ensures forall i :: 0 <= i < |r| ==> !IsRegexSpace(r[i])
    ensures |r| <= |s|
    decreases |s|
  {
    if s == "" then ""
    else if IsRegexSpace(s[0]) then "_" + CollapseSpaces(SkipSpaces(s[1..]))
    else [s[0]] + CollapseSpaces(s[1..])
  }

  /** The text after its leading whitespace. */
  function SkipSpaces(s: string): (r: string)
    ensures |r| <= |s| && s[|s| - |r|..] == r
    ensures r != "" ==> !IsRegexSpace(r[0])
  {
    if s != "" && IsRegexSpace(s[0]) then SkipSpaces(s[1..]) else s
  }

  /** Text without whitespace is left as it is. */
  lemma {:induction false} CollapseKeepsSpaceless(s: string)
    requires forall i :: 0 <= i < |s| ==> !IsRegexSpace(s[i])
    ensures CollapseSpaces(s) == s
    decreases |s|
  {
    if s != "" {
      CollapseKeepsSpaceless(s[1..]);
    }
  }

  predicate AllSpaces(w: string) {
    forall i :: 0 <= i < |w| ==> IsRegexSpace(w[i])
  }

  /** A whitespace run of any length and mix gives the same single underscore as one space. */
  lemma SpaceRunsCollapse(w: string, b: string)
    requires |w| >= 1 && AllSpaces(w) && (b == "" || !IsRegexSpace(b[0]))
    ensures CollapseSpaces(w + b) == "_" + CollapseSpaces(b)
  {
    var s := w + b;
    assert s[0] == w[0] && s[1..] == w[1..] + b;
    SkipSpacesRun(w[1..], b);
  }

  lemma {:induction false} SkipSpacesRun(w: string, b: string)
    requires AllSpaces(w) && (b == "" || !IsRegexSpace(b[0]))
    ensures SkipSpaces(w + b) == b
    decreases |w|
  {
    if w == "" {
      assert w + b == b;
    } else {
      var s := w + b;
      assert s[0] == w[0] && s[1..] == w[1..] + b;
      SkipSpacesRun(w[1..], b);
    }
  }

  /** The identifier used: the request's when it has text after trimming, else derived from the name. */
  function DeriveIdentifier(requested: Option<string>, modelName: Option<string>): (r: Result<string, Error>)
    ensures requested.Some? && Trim(requested.value) != "" ==> r == Success(requested.value)
    ensures (requested.None? || Trim(requested.value) == "") && modelName.Some?
      ==> r == Success(CollapseSpaces(Lower(modelName.value)))
    ensures (requested.None? || Trim(requested.value) == "") && modelName.None? ==> r == Failure(NullPointer)
  {
    if requested.Some? && Trim(requested.value) != "" then Success(requested.value)
    else if modelName.None? then Failure(NullPointer)
    else Success(CollapseSpaces(Lower(modelName.value)))
  }

  /** A derived identifier has no whitespace. */
  lemma DerivedIdentifierHasNoSpaces(modelName: string)
    ensures var r := DeriveIdentifier(None, Some(modelName));
      r.Success? && forall i :: 0 <= i < |r.value| ==> !IsRegexSpace(r.value[i])
  {
  }

  /** parseModelCallingType: blank text is refused before the lookup, and an unknown code is reported with it. */
  function ParseCallingType(code: Option<string>): (r: Result<CallingType, Error>)
    ensures code.None? || Trim(code.value) == "" ==> r == Failure(Business("模型调用方式不能为空"))
    ensures code.Some? && Trim(code.value) != "" && FromCode(code).Failure? ==> r == Failure(Business("无效的模型调用方式: " + code.value))
    ensures r.Success? ==> FromCode(code) == Success(r.value)
  {
    if code.None? || Trim(code.value) == "" then Failure(Business("模型调用方式不能为空"))
    else
      match FromCode(code)
      case Success(t) => Success(t)
      case Failure(_) => Failure(Business("无效的模型调用方式: " + code.value))
  }

  /** The switch in createModel / updateModel: how a calling type is accessed and what kind of model it is. */
  function Classify(t: CallingType): (r: (AccessType, ModelType))
    ensures r.0 == Local <==> t == SentenceTransformersEmbedding
    ensures r.1 == Llm <==> t == ApiLlm
  {
    match t
    case ApiLlm => (RemoteApi, Llm)
    case ApiEmbedding => (RemoteApi, Embedding)
    case SentenceTransformersEmbedding => (Local, Embedding)
  }

  /** Two calling types share both their access type and model type only when they are the same. */
  lemma ClassifyInjective(a: CallingType, b: CallingType)
    ensures Classify(a) == Classify(b) <==> a == b
  {
  }

  /** parseProviderType: blank is no provider type; other text must be a known code. */
  function ParseProviderType(code: Option<string>, known: string -> bool): (r: Result<Option<string>, Error>)
    ensures code.None? || Trim(code.value) == "" ==> r == Success(None)
    ensures r.Success? && r.value.Some? ==> r.value == code && known(code.value)
    ensures code.Some? && Trim(code.value) != "" && !known(code.value) ==> r == Failure(Business("无效的提供协议类型: " + code.value))
  {
    if code.None? || Trim(code.value) == "" then Success(None)
    else if known(code.value) then Success(code)
    else Failure(Business("无效的提供协议类型: " + code.value))
  }

  /** parseModelConfig: blank is an empty map; other text goes through the JSON reader `parse`. */
  function ParseConfig(json: Option<string>, parse: string -> Result<seq<Member>, string>): (r: Result<seq<Member>, Error>)
    ensures json.None? || Trim(json.value) == "" ==> r == Success([])
    ensures json.Some? && Trim(json.value) != "" && parse(json.value).Failure?
      ==> r == Failure(Business("无效的模型配置 JSON 格式: " + parse(json.value).error))
  {
    if json.None? || Trim(json.value) == "" then Success([])
    else
      match parse(json.value)
      case Success(m) => Success(m)
      case Failure(e) => Failure(Business("无效的模型配置 JSON 格式: " + e))
  }

  /** The identifiers already stored. */
  function Identifiers(models: seq<AiModel>): (r: set<string>)
    ensures forall m :: m in models ==> m.modelIdentifier in r
    ensures forall id :: id in r ==> exists m :: m in models && m.modelIdentifier == id
  {
    set m | m in models :: m.modelIdentifier
  }

  /** createModel, in the source's order of checks; `providers` are the ids that exist. */
  function CreateModel(models: seq<AiModel>, req: CreateRequest, providers: set<int>, knownProvider: string -> bool,
                       parse: string -> Result<seq<Member>, string>): (r: Result<AiModel, Error>)
    ensures r.Success? ==> r.value.modelIdentifier !in Identifiers(models)
    ensures r.Success? ==> r.value.providerId.None? || r.value.providerId.value in providers
    ensures r.Success? ==> (r.value.accessType, r.value.modelType) == Classify(r.value.callingType)
    ensures r.Success? ==> FromCode(req.modelCallingType) == Success(r.value.callingType)
  {
    var id :- DeriveIdentifier(req.modelIdentifier, req.modelName);
    if id in Identifiers(models) then Failure(Business("模型标识符已存在: " + id))
    else
      var t :- ParseCallingType(req.modelCallingType);
      if req.providerId.Some? && req.providerId.value !in providers then Failure(NotFound("模型提供商不存在"))
      else
        var providerType :- ParseProviderType(req.providerType, knownProvider);
        var config :- ParseConfig(req.modelConfig, parse);
        var kinds := Classify(t);
        Success(AiModel(req.modelName, id, t, kinds.0, kinds.1, req.providerId, providerType, config, req.isEnabled))
  }

  /** Adding created models one by one never stores an identifier twice. */
  lemma CreatedIdentifierIsFresh(models: seq<AiModel>, req: CreateRequest, providers: set<int>, knownProvider: string -> bool,
                                 parse: string -> Result<seq<Member>, string>)
    requires forall i, j :: 0 <= i < j < |models| ==> models[i].modelIdentifier != models[j].modelIdentifier
    requires CreateModel(models, req, providers, knownProvider, parse).Success?
    ensures var stored := models + [CreateModel(models, req, providers, knownProvider, parse).value];
      forall i, j :: 0 <= i < j < |stored| ==> stored[i].modelIdentifier != stored[j].modelIdentifier
  {
    var m := CreateModel(models, req, providers, knownProvider, parse).value;
    var stored := models + [m];
    forall i, j | 0 <= i < j < |stored|
      ensures stored[i].modelIdentifier != stored[j].modelIdentifier
    {
      if j == |models| {
        assert stored[i] in models;
      }
    }
  }

  /** AiModel.isEnabled: only an explicit true counts. */
  predicate Enabled(m: AiModel) {
    m.isEnabled == Some(true)
  }

  /** listEnabledModels: the enabled models of the requested calling type, in stored order. */
  function ListEnabled(models: seq<AiModel>, code: Option<string>): (r: Result<seq<AiModel>, string>)
    ensures FromCode(code).Failure? ==> r.Failure?
    ensures r.Success? ==> forall m :: m in r.value <==> m in models && Enabled(m) && FromCode(code) == Success(m.callingType)
  {
    var t :- FromCode(code);
    Success(Keep(models, t))
  }

  function Keep(models: seq<AiModel>, t: CallingType): (r: seq<AiModel>)
    ensures forall m :: m in r <==> m in models && Enabled(m) && m.callingType == t
    ensures |r| <= |models|
  {
    if models == [] then []
    else
      var rest := Keep(models[1..], t);
      assert forall m :: m in models <==> m == models[0] || m in models[1..];
      if Enabled(models[0]) && models[0].callingType == t then [models[0]] + rest else rest
  }
}
