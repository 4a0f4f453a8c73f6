/**
 * AgentConfigServiceImpl.validateAndParseAgentConfig: the JSON text read into
 * a map, then each declared configuration item checked against the map in
 * declaration order, the first violation being reported. JSON reading and
 * regular-expression matching are parameters.
 */
module AgentConfigs {
  import opened Wrappers
  import opened JavaStrings
  import opened JsonValues

  datatype ConfigType = StringType | TextType | IntType | FloatType | BooleanType | ModelType

  /** AgentConfigDefinition, without its description, float bounds and model calling type. */
  datatype Definition = Definition(
    name: Option<string>,
    require: Option<bool>,
    userOverride: Option<bool>,
    configType: Option<ConfigType>,
    format: Option<string>,
    intStart: Option<int>,
    intEnd: Option<int>)

  /** A regular-expression engine: whether `value` matches `pattern` entirely, or why the pattern does not compile. */
  type Matcher = (string, string) -> Result<bool, string>

  const NULL_POINTER: string := "NullPointerException"

  function Item(name: Option<string>): string {
    "配置项 [" + Concatenated(name) + "]"
  }

  function JsonError(message: string): string {
    "Agent配置JSON格式错误: " + message
  }

  function RequiredMessage(name: Option<string>): string {
    Item(name) + " 是必填项，不能为空"
  }

  function NotStringMessage(name: Option<string>): string {
    Item(name) + " 必须是字符串类型"
  }

  function MismatchMessage(name: Option<string>, format: string): string {
    Item(name) + " 的值不符合格式要求: " + format
  }

  function FormatErrorMessage(name: Option<string>, cause: string): string {
    Item(name) + " 的格式定义错误: " + cause
  }

  function NotIntMessage(name: Option<string>): string {
    Item(name) + " 必须是整数类型"
  }

  function BelowMessage(name: Option<string>, bound: int): string {
    Item(name) + " 的值不能小于 " + IntToString(bound)
  }

  function AboveMessage(name: Option<string>, bound: int): string {
    Item(name) + " 的值不能大于 " + IntToString(bound)
  }

  function NotFloatMessage(name: Option<string>): string {
    Item(name) + " 必须是浮点数类型"
  }

  function NotBooleanMessage(name: Option<string>): string {
    Item(name) + " 必须是布尔类型"
  }

  function NotModelMessage(name: Option<string>): string {
    Item(name) + " 必须是字符串类型（模型标识符）"
  }

  /** Number.intValue for the integer kinds Jackson produces (Integer, Long, BigInteger): the low 32 bits. */
  function IntValue(n: int): (v: int)
    ensures IsInt32(v) && (IsInt32(n) ==> v == n)
  {
    Wrap32(n)
  }

  /**
   * validateStringValue: a string, and with a non-blank format a full match.
   * Both a mismatch and a pattern that does not compile end in the outer catch,
   * so a mismatch is reported inside a "format definition error".
   */
  function CheckString(d: Definition, v: Json, matches: Matcher): (r: Result<(), string>)
    ensures !v.JString? ==> r == Failure(NotStringMessage(d.name))
  {
    if !v.JString? then Failure(NotStringMessage(d.name))
    else if !HasText(d.format) then Success(())
    else
      match matches(d.format.value, v.s)
      case Failure(cause) => Failure(FormatErrorMessage(d.name, cause))
      case Success(true) => Success(())
      case Success(false) => Failure(FormatErrorMessage(d.name, MismatchMessage(d.name, d.format.value)))
  }

  /** validateIntValue: a number, truncated to int, within whichever bounds are present. */
  function CheckInt(d: Definition, v: Json): (r: Result<(), string>)
    ensures r.Success? <==>
      && v.JNumber?
      && (d.intStart.None? || IntValue(v.n) >= d.intStart.value)
      && (d.intEnd.None? || IntValue(v.n) <= d.intEnd.value)
  {
    if !v.JNumber? then Failure(NotIntMessage(d.name))
    else
      var i := IntValue(v.n);
      if d.intStart.Some? && i < d.intStart.value then Failure(BelowMessage(d.name, d.intStart.value))
      else if d.intEnd.Some? && i > d.intEnd.value then Failure(AboveMessage(d.name, d.intEnd.value))
      else Success(())
  }

  /** validateConfigValue: dispatch on the declared type; a null type fails the switch. */
  function CheckValue(d: Definition, v: Json, matches: Matcher): (r: Result<(), string>)
    ensures d.configType.None? ==> r == Failure(NULL_POINTER)
    ensures d.configType == Some(TextType) ==> (r.Success? <==> v.JString?)
    ensures d.configType == Some(ModelType) ==> (r.Success? <==> v.JString?)
    ensures d.configType == Some(BooleanType) ==> (r.Success? <==> v.JBool?)
    ensures d.configType == Some(FloatType) ==> (r.Success? <==> v.JNumber?)
    ensures d.configType == Some(IntType) ==> r == CheckInt(d, v)
    ensures d.configType == Some(StringType) ==> r == CheckString(d, v, matches)
  {
    match d.configType
    case None => Failure(NULL_POINTER)
    case Some(StringType) => CheckString(d, v, matches)
    case Some(TextType) => if v.JString? then Success(()) else Failure(NotStringMessage(d.name))
    case Some(IntType) => CheckInt(d, v)
    case Some(FloatType) => if v.JNumber? then Success(()) else Failure(NotFloatMessage(d.name))
    case Some(BooleanType) => if v.JBool? then Success(()) else Failure(NotBooleanMessage(d.name))
    case Some(ModelType) => if v.JString? then Success(()) else Failure(NotModelMessage(d.name))
  }

  /** Map.get with a possibly null key: no entry has the null key. */
  function Lookup(config: seq<Member>, name: Option<string>): (r: Option<Json>)
    ensures name.None? ==> r.None?
  {
    if name.None? then None else Get(config, name.value)
  }

  /** One definition against the map: a required item must be present; an absent optional one is skipped. */
  function CheckDefinition(config: seq<Member>, d: Definition, matches: Matcher): (r: Result<(), string>)
    ensures d.require == Some(true) && Lookup(config, d.name).None? ==> r == Failure(RequiredMessage(d.name))
    ensures d.require != Some(true) && Lookup(config, d.name).None? ==> r == Success(())
  {
    var v := Lookup(config, d.name);
    if d.require == Some(true) && v.None? then Failure(RequiredMessage(d.name))
    else if v.None? then Success(())
    else CheckValue(d, v.value, matches)
  }

  /** The loop over the definitions: stops at the first failing one. */
  function CheckAll(config: seq<Member>, defs: seq<Definition>, matches: Matcher): (r: Result<(), string>)
  {
    if defs == [] then Success(())
    else
      var _ :- CheckDefinition(config, defs[0], matches);
      CheckAll(config, defs[1..], matches)
  }

  /**
   * validateAndParseAgentConfig. `parsed` is what reading the text as a JSON
   * object gave: the entries, or the reader's error message.
   */
  function ValidateAndParse(json: Option<string>, parsed: Result<seq<Member>, string>, defs: Option<seq<Definition>>, matches: Matcher): (r: Result<seq<Member>, string>)
    ensures !HasText(json) ==> r == Success([])
    ensures HasText(json) && parsed.Failure? ==> r == Failure(JsonError(parsed.error))
    ensures HasText(json) && parsed.Success? && (defs.None? || defs.value == []) ==> r == parsed
    ensures r.Success? && HasText(json) ==> r == parsed
  {
    if !HasText(json) then Success([])
    else
      match parsed
      case Failure(e) => Failure(JsonError(e))
      case Success(config) =>
        if defs.None? || defs.value == [] then Success(config)
        else
          var _ :- CheckAll(config, defs.value, matches);
          Success(config)
  }

  /** The reference reading of a definition: what a value must look like for it to pass. */
  predicate Satisfied(config: seq<Member>, d: Definition, matches: Matcher) {
    match Lookup(config, d.name)
    case None => d.require != Some(true)
    case Some(v) =>
      match d.configType
      case None => false
      case Some(StringType) =>
        v.JString? && (!HasText(d.format) || matches(d.format.value, v.s) == Success(true))
      case Some(IntType) =>
        v.JNumber? && (d.intStart.None? || d.intStart.value <= IntValue(v.n))
          && (d.intEnd.None? || IntValue(v.n) <= d.intEnd.value)
      case Some(BooleanType) => v.JBool?
      case Some(FloatType) => v.JNumber?
      case Some(_) => v.JString?
  }

  lemma CheckDefinitionSatisfied(config: seq<Member>, d: Definition, matches: Matcher)
    ensures CheckDefinition(config, d, matches).Success? <==> Satisfied(config, d, matches)
  {
  }

  /** The loop passes exactly when every definition is satisfied; otherwise it reports the first that is not. */
  lemma {:induction false} CheckAllSatisfied(config: seq<Member>, defs: seq<Definition>, matches: Matcher)
    ensures CheckAll(config, defs, matches).Success? <==> forall i :: 0 <= i < |defs| ==> Satisfied(config, defs[i], matches)
    ensures CheckAll(config, defs, matches).Failure? ==>
      exists k ::
        && 0 <= k < |defs|
        && CheckAll(config, defs, matches) == CheckDefinition(config, defs[k], matches)
        && forall j :: 0 <= j < k ==> Satisfied(config, defs[j], matches)
  {
    if defs != [] {
      CheckDefinitionSatisfied(config, defs[0], matches);
      CheckAllSatisfied(config, defs[1..], matches);
      if CheckDefinition(config, defs[0], matches).Success? {
        forall i | 1 <= i < |defs|
          ensures Satisfied(config, defs[i], matches) == Satisfied(config, defs[1..][i - 1], matches)
        {
        }
        if CheckAll(config, defs, matches).Failure? {
          var k :| 0 <= k < |defs| - 1
            && CheckAll(config, defs[1..], matches) == CheckDefinition(config, defs[1..][k], matches)
            && forall j :: 0 <= j < k ==> Satisfied(config, defs[1..][j], matches);
          assert defs[1..][k] == defs[k + 1];
          assert forall j :: 0 <= j < k + 1 ==> Satisfied(config, defs[j], matches);
        }
      }
    }
  }

  /**
   * With a non-blank text that reads as an object, validation returns that very
   * map exactly when every declared item is satisfied.
   */
  lemma ValidateIffSatisfied(json: string, config: seq<Member>, defs: seq<Definition>, matches: Matcher)
    requires !Blank(json)
    ensures ValidateAndParse(Some(json), Success(config), Some(defs), matches) == Success(config)
      <==> forall i :: 0 <= i < |defs| ==> Satisfied(config, defs[i], matches)
  {
    CheckAllSatisfied(config, defs, matches);
  }

  /** A value that fails its pattern is reported as a format-definition error wrapping the mismatch. */
  lemma MismatchReportedAsFormatError(name: string, format: string, value: string, rest: seq<Member>, matches: Matcher)
    requires HasText(Some(format)) && matches(format, value) == Success(false)
    ensures var d := Definition(Some(name), Some(true), None, Some(StringType), Some(format), None, None);
      CheckDefinition([Member(name, JString(value))] + rest, d, matches)
        == Failure(FormatErrorMessage(Some(name), MismatchMessage(Some(name), format)))
  {
    GetFirst([Member(name, JString(value))] + rest, name, JString(value));
  }

  /** An integer outside the int range is truncated before the bounds are checked: 2^32 + 5 passes [0, 10]. */
  lemma TruncatedBeforeBounds(name: string)
    ensures var d := Definition(Some(name), None, None, Some(IntType), None, Some(0), Some(10));
      CheckDefinition([Member(name, JNumber(0x1_0000_0005))], d, (p, v) => Success(true)).Success?
  {
    GetFirst([Member(name, JNumber(0x1_0000_0005))], name, JNumber(0x1_0000_0005));
  }
}
