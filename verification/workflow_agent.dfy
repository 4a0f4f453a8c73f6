/**
 * The set-up steps of the workflow agent before its ReAct loop starts: the
 * runtime configuration (agent defaults with the session's permitted
 * overrides), the context limits read from the model config, the tool list
 * with its name-clash check, and the keys given to multimodal attachments.
 */
module WorkflowAgentSetup {
  import opened Wrappers
  import opened JavaStrings
  import opened JsonValues
  import AgentConfigs
  import ChatModelConfig

  const DEFAULT_MAX_TOKENS: int := 200000
  const DEFAULT_MAX_MESSAGES: int := 500
  const NULL_POINTER: string := "NullPointerException"

  /** A config map as HashMap holds it; JNull stands for a null value. */
  type Config = map<string, Json>

  /** HashMap.get with null for a missing key or a null value. */
  function Lookup(m: Config, key: Option<string>): (r: Option<Json>)
    ensures r.Some? ==> key.Some? && key.value in m && r.value == m[key.value] && r.value != JNull
  {
    if key.Some? && key.value in m && m[key.value] != JNull then Some(m[key.value]) else None
  }

  /** Whether a definition lets the session's value replace the default; a null flag cannot be unboxed. */
  function Overrides(d: AgentConfigs.Definition, session: Config): (r: Result<bool, string>)
    ensures d.userOverride.None? <==> r.Failure?
  {
    if d.userOverride.None? then Failure(NULL_POINTER)
    else Success(d.userOverride.value && Lookup(session, d.name).Some?)
  }

  /** The loop over the definitions, applied to the copy of the defaults built so far. */
  function ApplyOverrides(config: Config, session: Config, defs: seq<AgentConfigs.Definition>): (r: Result<Config, string>)
    ensures r.Success? <==> forall k :: 0 <= k < |defs| ==> defs[k].userOverride.Some?
    ensures r.Success? ==> r.value.Keys >= config.Keys
    ensures r.Success? ==> forall key :: key in r.value ==> key in config || Permits(defs, session, key)
    decreases |defs|
  {
    if defs == [] then Success(config)
    else
      var d := defs[0];
      assert forall k :: 1 <= k < |defs| ==> defs[k] == defs[1..][k - 1];
      var take :- Overrides(d, session);
      var next := if take then config[d.name.value := session[d.name.value]] else config;
      var r := ApplyOverrides(next, session, defs[1..]);
      assert r.Success? ==> forall key :: key in r.value ==> key in config || Permits(defs, session, key) by {
        if r.Success? {
          forall key | key in r.value
            ensures key in config || Permits(defs, session, key)
          {
            if key !in config && !Permits(defs[1..], session, key) {
              assert key in next;
              assert take && key == d.name.value;
              assert defs[0] == d;
            }
          }
        }
      }
      r
  }

  /** Some definition of `key` lets the user override it and the session holds a non-null value. */
  predicate Permits(defs: seq<AgentConfigs.Definition>, session: Config, key: string) {
    exists k :: 0 <= k < |defs| && defs[k].name == Some(key) && defs[k].userOverride == Some(true)
      && key in session && session[key] != JNull
  }

  /** getRuntimeAgentConfig. */
  function RuntimeAgentConfig(defaults: Config, session: Config, defs: seq<AgentConfigs.Definition>): (r: Result<Config, string>)
    ensures r.Success? <==> forall k :: 0 <= k < |defs| ==> defs[k].userOverride.Some?
  {
    ApplyOverrides(defaults, session, defs)
  }

  /** What the session may change: a key no definition permits keeps its default, present or absent. */
  lemma {:induction false} UnpermittedKeysKeepDefault(config: Config, session: Config, defs: seq<AgentConfigs.Definition>, key: string)
    requires ApplyOverrides(config, session, defs).Success?
    requires !Permits(defs, session, key)
    ensures key in ApplyOverrides(config, session, defs).value <==> key in config
    ensures key in config ==> ApplyOverrides(config, session, defs).value[key] == config[key]
    decreases |defs|
  {
    if defs != [] {
      var d := defs[0];
      var take := Overrides(d, session).value;
      var next := if take then config[d.name.value := session[d.name.value]] else config;
      forall j | 0 <= j < |defs[1..]|
        ensures !(defs[1..][j].name == Some(key) && defs[1..][j].userOverride == Some(true)
                  && key in session && session[key] != JNull)
      {
        assert defs[1..][j] == defs[j + 1];
      }
      if take {
        assert defs[0].name == Some(d.name.value) && defs[0].userOverride == Some(true);
        assert d.name.value in session && session[d.name.value] != JNull;
      }
      UnpermittedKeysKeepDefault(next, session, defs[1..], key);
    }
  }

  /** The last definition that permits a key decides its value: the session's value. */
  lemma {:induction false} PermittedKeysTakeSession(config: Config, session: Config, defs: seq<AgentConfigs.Definition>, key: string)
    requires ApplyOverrides(config, session, defs).Success?
    requires Permits(defs, session, key)
    ensures key in ApplyOverrides(config, session, defs).value
    ensures ApplyOverrides(config, session, defs).value[key] == session[key]
    decreases |defs|
  {
    var d := defs[0];
    var take := Overrides(d, session).value;
    var next := if take then config[d.name.value := session[d.name.value]] else config;
    if Permits(defs[1..], session, key) {
      PermittedKeysTakeSession(next, session, defs[1..], key);
    } else {
      var j :| 0 <= j < |defs| && defs[j].name == Some(key) && defs[j].userOverride == Some(true)
        && key in session && session[key] != JNull;
      forall j' | 0 < j' < |defs|
        ensures !(defs[j'].name == Some(key) && defs[j'].userOverride == Some(true))
      {
        assert defs[1..][j' - 1] == defs[j'];
      }
      assert j == 0;
      assert take && next[key] == session[key];
      UnpermittedKeysKeepDefault(next, session, defs[1..], key);
    }
  }

  // ---------------------------------------------------------------------------
  // Context limits
  // ---------------------------------------------------------------------------

  /** maxTokens / maxMessages: the value's text parsed as an int when present, else the default. */
  function LimitOr(modelConfig: seq<Member>, key: string, default: int, render: Json -> string): (r: Result<int, string>)
    ensures Get(modelConfig, key).None? ==> r == Success(default)
    ensures Get(modelConfig, key).Some? ==> r == ParseInt(ChatModelConfig.StringValue(modelConfig, key, render))
  {
    var text := ChatModelConfig.StringValue(modelConfig, key, render);
    if text.None? then Success(default) else ParseInt(text)
  }

  /** A numeric limit in int range is taken as written; an absent one gives the default. */
  lemma LimitReadsNumber(modelConfig: seq<Member>, key: string, default: int, render: Json -> string)
    ensures Get(modelConfig, key).None? ==> LimitOr(modelConfig, key, default, render) == Success(default)
    ensures Get(modelConfig, key).Some? && Get(modelConfig, key).value.JNumber? && IsInt32(Get(modelConfig, key).value.n)
      ==> LimitOr(modelConfig, key, default, render) == Success(Get(modelConfig, key).value.n)
  {
    if Get(modelConfig, key).Some? && Get(modelConfig, key).value.JNumber? && IsInt32(Get(modelConfig, key).value.n) {
      ParseIntToString(Get(modelConfig, key).value.n);
    }
  }

  /** The two limits of a session, with their defaults. */
  function ContextLimits(modelConfig: seq<Member>, render: Json -> string): (r: Result<(int, int), string>)
    ensures !HasKey(modelConfig, "maxTokens") && !HasKey(modelConfig, "maxMessages")
      ==> r == Success((DEFAULT_MAX_TOKENS, DEFAULT_MAX_MESSAGES))
  {
    var maxTokens :- LimitOr(modelConfig, "maxTokens", DEFAULT_MAX_TOKENS, render);
    var maxMessages :- LimitOr(modelConfig, "maxMessages", DEFAULT_MAX_MESSAGES, render);
    Success((maxTokens, maxMessages))
  }

  // ---------------------------------------------------------------------------
  // Tool assembly
  // ---------------------------------------------------------------------------

  function ClashMessage(name: string): string {
    "客户端工具" + name + "与服务内部工具重名"
  }

  /** The first tool of a group whose name the client already uses. */
  function FirstClash(group: seq<string>, clientNames: set<string>): (r: Option<string>)
    ensures r.None? <==> forall k :: 0 <= k < |group| ==> group[k] !in clientNames
    ensures r.Some? ==> r.value in clientNames && r.value in group
  {
    if group == [] then None
    else if group[0] in clientNames then Some(group[0])
    else
      assert forall k :: 1 <= k < |group| ==> group[k] == group[1..][k - 1];
      FirstClash(group[1..], clientNames)
  }

  function Flatten(groups: seq<seq<string>>): (r: seq<string>)
  {
    if groups == [] then [] else groups[0] + Flatten(groups[1..])
  }

  /**
   * The server tool groups in the order they are added (todo, status,
   * ComfyUI, and the optional file, Python and local-command groups), each
   * checked against the client's tool names before it is added.
   */
  function AssembleTools(clientTools: seq<string>, clientNames: set<string>, groups: seq<seq<string>>): (r: Result<seq<string>, string>)
    ensures r.Success? ==> r.value == clientTools + Flatten(groups)
    decreases |groups|
  {
    if groups == [] then Success(clientTools)
    else
      match FirstClash(groups[0], clientNames)
      case Some(name) => Failure(ClashMessage(name))
      case None =>
        var rest :- AssembleTools(clientTools + groups[0], clientNames, groups[1..]);
        assert clientTools + groups[0] + Flatten(groups[1..]) == clientTools + Flatten(groups);
        Success(rest)
  }

  /** Assembly fails exactly when some server tool shares a name with a client tool. */
  lemma {:induction false} AssembleFailsIffClash(clientTools: seq<string>, clientNames: set<string>, groups: seq<seq<string>>)
    ensures AssembleTools(clientTools, clientNames, groups).Failure? <==> exists t :: t in Flatten(groups) && t in clientNames
    decreases |groups|
  {
    if groups != [] {
      AssembleFailsIffClash(clientTools + groups[0], clientNames, groups[1..]);
      assert Flatten(groups) == groups[0] + Flatten(groups[1..]);
      var c := FirstClash(groups[0], clientNames);
      if c.None? {
        assert forall t :: t in groups[0] ==> t !in clientNames by {
          forall t | t in groups[0] ensures t !in clientNames {
            var k :| 0 <= k < |groups[0]| && groups[0][k] == t;
          }
        }
      }
    }
  }

  /** The error names the clashing tool. */
  lemma ClashNamed(clientTools: seq<string>, clientNames: set<string>, groups: seq<seq<string>>)
    requires groups != [] && FirstClash(groups[0], clientNames).Some?
    ensures AssembleTools(clientTools, clientNames, groups) == Failure(ClashMessage(FirstClash(groups[0], clientNames).value))
  {
  }

  // ---------------------------------------------------------------------------
  // Multimodal attachments
  // ---------------------------------------------------------------------------

  datatype MediaKind = Image | Video | Audio | PdfFile | OtherMedia

  function KeyPrefix(k: MediaKind): string {
    match k
    case Image => "image_"
    case Video => "video_"
    case Audio => "audio_"
    case PdfFile => "pdfFile_"
    case OtherMedia => ""
  }

  /** How many of the attachments are of kind `k`. */
  function CountKind(contents: seq<MediaKind>, k: MediaKind): (n: nat)
    ensures n <= |contents|
  {
    if contents == [] then 0
    else CountKind(contents[..|contents| - 1], k) + (if contents[|contents| - 1] == k then 1 else 0)
  }

  /** The loop's per-kind counters after a prefix of the attachments. */
  datatype Counters = Counters(image: nat, video: nat, audio: nat, pdfFile: nat)

  function Counter(c: Counters, k: MediaKind): nat {
    match k
    case Image => c.image
    case Video => c.video
    case Audio => c.audio
    case PdfFile => c.pdfFile
    case OtherMedia => 0
  }

  function Bump(c: Counters, k: MediaKind): (r: Counters)
    ensures k != OtherMedia ==> Counter(r, k) == Counter(c, k) + 1
    ensures forall j :: j != k ==> Counter(r, j) == Counter(c, j)
  {
    match k
    case Image => c.(image := c.image + 1)
    case Video => c.(video := c.video + 1)
    case Audio => c.(audio := c.audio + 1)
    case PdfFile => c.(pdfFile := c.pdfFile + 1)
    case OtherMedia => c
  }

  /** The key the loop gives each attachment (None for a kind it does not handle), with the final counters. */
  function AssignKeys(contents: seq<MediaKind>): (r: (seq<Option<string>>, Counters))
    ensures |r.0| == |contents|
    ensures forall k :: k != OtherMedia ==> Counter(r.1, k) == CountKind(contents, k)
  {
    if contents == [] then ([], Counters(0, 0, 0, 0))
    else
      var prev := AssignKeys(contents[..|contents| - 1]);
      var k := contents[|contents| - 1];
      var key := if k == OtherMedia then None else Some(KeyPrefix(k) + IntToString(Counter(prev.1, k)));
      (prev.0 + [key], Bump(prev.1, k))
  }

  /** The key of an attachment is its kind's prefix and the number of earlier attachments of that kind. */
  lemma {:induction false} KeyCountsEarlierOfKind(contents: seq<MediaKind>, i: nat)
    requires i < |contents|
    ensures contents[i] == OtherMedia ==> AssignKeys(contents).0[i].None?
    ensures contents[i] != OtherMedia ==>
      AssignKeys(contents).0[i] == Some(KeyPrefix(contents[i]) + IntToString(CountKind(contents[..i], contents[i])))
  {
    var init := contents[..|contents| - 1];
    if i < |contents| - 1 {
      KeyCountsEarlierOfKind(init, i);
      assert init[i] == contents[i] && init[..i] == contents[..i];
    } else {
      assert contents[..i] == init;
    }
  }

  /** Two attachments of the same kind never share a key. */
  lemma KeysDistinctWithinKind(contents: seq<MediaKind>, i: nat, j: nat)
    requires i < j < |contents| && contents[i] == contents[j] != OtherMedia
    ensures AssignKeys(contents).0[i] != AssignKeys(contents).0[j]
  {
    var k := contents[i];
    KeyCountsEarlierOfKind(contents, i);
    KeyCountsEarlierOfKind(contents, j);
    CountKindGrows(contents, i, j);
    if AssignKeys(contents).0[i] == AssignKeys(contents).0[j] {
      var p := KeyPrefix(k);
      var a := IntToString(CountKind(contents[..i], k));
      var b := IntToString(CountKind(contents[..j], k));
      assert p + a == p + b;
      assert a == (p + a)[|p|..] == (p + b)[|p|..] == b;
      IntToStringInjective(CountKind(contents[..i], k), CountKind(contents[..j], k));
    }
  }

  /** A later prefix that takes in one more attachment of a kind counts strictly more of it. */
  lemma {:induction false} CountKindGrows(contents: seq<MediaKind>, i: nat, j: nat)
    requires i < j <= |contents|
    ensures CountKind(contents[..j], contents[i]) >= CountKind(contents[..i], contents[i]) + 1
    decreases j - i
  {
    var k := contents[i];
    assert contents[..j][..j - 1] == contents[..j - 1];
    if j == i + 1 {
      assert contents[..j][j - 1] == k;
    } else {
      CountKindGrows(contents, i, j - 1);
    }
  }

  /** Whether an attachment also goes to the model: only when the model config's support flag is exactly true. */
  function Forwarded(modelConfig: seq<Member>, k: MediaKind): (r: bool)
    ensures r ==> k != OtherMedia
  {
    var flag := match k
      case Image => "supportImageMultimodal"
      case Video => "supportVideoMultimodal"
      case Audio => "supportAudioMultimodal"
      case PdfFile => "supportPdfFileMultimodal"
      case OtherMedia => "";
    k != OtherMedia && Get(modelConfig, flag) == Some(JBool(true))
  }
}
