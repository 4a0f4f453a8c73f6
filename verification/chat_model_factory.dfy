/**
 * The shared configuration parsing of the chat-model factories: reading
 * integers out of an untyped config map, and choosing the API base URL and
 * key from the model's config, then the model, then its provider.
 */
module ChatModelConfig {
  import opened Wrappers
  import opened JavaStrings
  import opened JsonValues

  const DEFAULT_TIMEOUT_SECONDS: int := 60
  const CONFIG_ERROR_PREFIX: string := "模型配置格式错误: "

  /** getClass().getSimpleName() of the non-numeric, non-string values Jackson produces. */
  function SimpleName(v: Json): string {
    match v
    case JBool(_) => "Boolean"
    case JArray(_) => "ArrayList"
    case JObject(_) => "LinkedHashMap"
    case JNumber(_) => "Integer"
    case JString(_) => "String"
    case JNull => "null"
  }

  function NotIntegerMessage(field: string, text: string): string {
    "Agent配置参数 " + field + " 格式错误，无法转换为整数: " + text
  }

  function NotDoubleMessage(field: string, text: string): string {
    "Agent配置参数 " + field + " 格式错误，无法转换为数字: " + text
  }

  function WrongTypeMessage(field: string, v: Json): string {
    "Agent配置参数 " + field + " 类型错误，期望 Number 或 String，实际: " + SimpleName(v)
  }

  /**
   * convertToInteger: null and blank text give null; a number is narrowed to
   * an int; other text must parse as an int; any other value is an error.
   */
  function ConvertToInteger(value: Option<Json>, field: string): (r: Result<Option<int>, string>)
    ensures value.None? ==> r == Success(None)
    ensures value.Some? && value.value.JNumber? ==> r == Success(Some(Wrap32(value.value.n)))
    ensures value.Some? && value.value.JString? && Blank(value.value.s) ==> r == Success(None)
    ensures value.Some? && value.value.JString? && !Blank(value.value.s) ==>
      (r.Success? <==> ParseInt(Some(value.value.s)).Success?)
    ensures r.Success? && r.value.Some? ==> IsInt32(r.value.value)
    ensures value.Some? && !value.value.JNumber? && !value.value.JString? ==> r == Failure(WrongTypeMessage(field, value.value))
  {
    if value.None? then Success(None)
    else
      match value.value
      case JNumber(n) => Success(Some(Wrap32(n)))
      case JString(s) =>
        if Blank(s) then Success(None)
        else
          var parsed := ParseInt(Some(s));
          if parsed.Success? then Success(Some(parsed.value)) else Failure(NotIntegerMessage(field, s))
      case _ => Failure(WrongTypeMessage(field, value.value))
  }

  /** An int written as text, or as a number, converts back to itself. */
  lemma ConvertToIntegerRoundTrip(i: int, field: string)
    requires IsInt32(i)
    ensures ConvertToInteger(Some(JString(IntToString(i))), field) == Success(Some(i))
    ensures ConvertToInteger(Some(JNumber(i)), field) == Success(Some(i))
  {
    ParseIntToString(i);
    assert !Blank(IntToString(i)) by {
      IntToStringNotBlank(i);
    }
  }

  lemma IntToStringNotBlank(i: int)
    ensures !Blank(IntToString(i))
  {
    var s := IntToString(i);
    if i < 0 {
      assert s[0] == '-';
    } else {
      assert IsDigit(s[0]);
    }
  }

  /** getIntegerValue with a default: the default replaces a null conversion. */
  function IntegerOr(config: seq<Member>, field: string, default: int): (r: Result<int, string>)
    ensures ConvertToInteger(Get(config, field), field).Success? <==> r.Success?
    ensures r.Success? && ConvertToInteger(Get(config, field), field).value.None? ==> r.value == default
    ensures r.Success? && ConvertToInteger(Get(config, field), field).value.Some?
      ==> r.value == ConvertToInteger(Get(config, field), field).value.value
  {
    var v :- ConvertToInteger(Get(config, field), field);
    Success(v.GetOr(default))
  }

  /**
   * convertToDouble as far as it can fail: only numbers, blank text and
   * text `parsesAsDouble` accepts get through. The value itself is not kept.
   */
  function CheckDouble(value: Option<Json>, field: string, parsesAsDouble: string -> bool): (r: Result<(), string>)
    ensures r.Failure? <==>
      && value.Some?
      && !value.value.JNumber?
      && !(value.value.JString? && (Blank(value.value.s) || parsesAsDouble(value.value.s)))
  {
    if value.None? then Success(())
    else
      match value.value
      case JNumber(_) => Success(())
      case JString(s) => if Blank(s) || parsesAsDouble(s) then Success(()) else Failure(NotDoubleMessage(field, s))
      case _ => Failure(WrongTypeMessage(field, value.value))
  }

  /** getStringValue: toString of the value; `render` stands for toString of arrays and maps. */
  function StringValue(config: seq<Member>, field: string, render: Json -> string): (r: Option<string>)
    ensures Get(config, field).None? <==> r.None?
    ensures Get(config, field).Some? && Get(config, field).value.JString? ==> r == Some(Get(config, field).value.s)
  {
    match Get(config, field)
    case None => None
    case Some(JString(s)) => Some(s)
    case Some(JNumber(n)) => Some(IntToString(n))
    case Some(JBool(b)) => Some(if b then "true" else "false")
    case Some(v) => Some(render(v))
  }

  /** The API base URL and key of a model or of its provider. */
  datatype Endpoint = Endpoint(apiBaseUrl: Option<string>, apiKey: Option<string>)

  /** ModelConfig without its floating-point parameters. */
  datatype ModelConfig = ModelConfig(apiKey: Option<string>, maxTokens: Option<int>, timeoutSeconds: int, apiBaseUrl: Option<string>)

  /** The first candidate with text, or the first candidate itself when none has any. */
  function Fallback(own: Option<string>, model: Option<string>, provider: Option<Option<string>>): (r: Option<string>)
  {
    if HasText(own) then own
    else if HasText(model) then model
    else if provider.Some? && HasText(provider.value) then provider.value
    else own
  }

  /** The chain picks the earliest candidate with text, and keeps the config's own value when none has text. */
  lemma FallbackPicksFirstWithText(own: Option<string>, model: Option<string>, provider: Option<Option<string>>)
    ensures HasText(own) ==> Fallback(own, model, provider) == own
    ensures !HasText(own) && HasText(model) ==> Fallback(own, model, provider) == model
    ensures !HasText(own) && !HasText(model) && provider.Some? && HasText(provider.value)
      ==> Fallback(own, model, provider) == provider.value
    ensures HasText(Fallback(own, model, provider)) <==>
      HasText(own) || HasText(model) || (provider.Some? && HasText(provider.value))
  {
  }

  /**
   * parseModelConfig: read the config (when there is one) field by field in
   * source order, then fill a blank URL and key from the model and then the
   * provider. A conversion error is reported with the config-error prefix.
   */
  function ParseModelConfig(model: Endpoint, provider: Option<Endpoint>, config: Option<seq<Member>>,
                            parsesAsDouble: string -> bool, render: Json -> string): (r: Result<ModelConfig, string>)
    ensures config.None? ==> r.Success? && r.value.timeoutSeconds == DEFAULT_TIMEOUT_SECONDS && r.value.maxTokens.None?
    ensures r.Failure? ==> CONFIG_ERROR_PREFIX <= r.error
    ensures r.Success? ==> r.value.apiBaseUrl == Fallback(
      if config.Some? then StringValue(config.value, "apiBaseUrl", render) else None,
      model.apiBaseUrl, if provider.Some? then Some(provider.value.apiBaseUrl) else None)
    ensures r.Success? ==> r.value.apiKey == Fallback(
      if config.Some? then StringValue(config.value, "apiKey", render) else None,
      model.apiKey, if provider.Some? then Some(provider.value.apiKey) else None)
  {
    var providerUrl := if provider.Some? then Some(provider.value.apiBaseUrl) else None;
    var providerKey := if provider.Some? then Some(provider.value.apiKey) else None;
    if config.None? then
      Success(ModelConfig(Fallback(None, model.apiKey, providerKey), None, DEFAULT_TIMEOUT_SECONDS,
                          Fallback(None, model.apiBaseUrl, providerUrl)))
    else
      var c := config.value;
      var parsed := ReadFields(c, parsesAsDouble);
      if parsed.Failure? then Failure(CONFIG_ERROR_PREFIX + parsed.error)
      else
        var apiKey := StringValue(c, "apiKey", render);
        var apiBaseUrl := StringValue(c, "apiBaseUrl", render);
        Success(ModelConfig(Fallback(apiKey, model.apiKey, providerKey), parsed.value.0, parsed.value.1,
                            Fallback(apiBaseUrl, model.apiBaseUrl, providerUrl)))
  }

  /** The numeric fields in the order the source reads them: temperature, maxTokens, topP, timeout. */
  function ReadFields(c: seq<Member>, parsesAsDouble: string -> bool): (r: Result<(Option<int>, int), string>)
    ensures r.Success? <==>
      && CheckDouble(Get(c, "temperature"), "temperature", parsesAsDouble).Success?
      && ConvertToInteger(Get(c, "maxTokens"), "maxTokens").Success?
      && CheckDouble(Get(c, "topP"), "topP", parsesAsDouble).Success?
      && IntegerOr(c, "timeout", DEFAULT_TIMEOUT_SECONDS).Success?
    ensures r.Success? ==> r.value.0 == ConvertToInteger(Get(c, "maxTokens"), "maxTokens").value
    ensures r.Success? ==> r.value.1 == IntegerOr(c, "timeout", DEFAULT_TIMEOUT_SECONDS).value
  {
    var _ :- CheckDouble(Get(c, "temperature"), "temperature", parsesAsDouble);
    var maxTokens :- ConvertToInteger(Get(c, "maxTokens"), "maxTokens");
    var _ :- CheckDouble(Get(c, "topP"), "topP", parsesAsDouble);
    var timeout :- IntegerOr(c, "timeout", DEFAULT_TIMEOUT_SECONDS);
    Success((maxTokens, timeout))
  }

  /** A config without a usable timeout falls back to sixty seconds. */
  lemma TimeoutDefaults(c: seq<Member>, parsesAsDouble: string -> bool, model: Endpoint, provider: Option<Endpoint>,
                        render: Json -> string)
    requires !HasKey(c, "timeout")
    requires ParseModelConfig(model, provider, Some(c), parsesAsDouble, render).Success?
    ensures ParseModelConfig(model, provider, Some(c), parsesAsDouble, render).value.timeoutSeconds == DEFAULT_TIMEOUT_SECONDS
  {
  }
}
