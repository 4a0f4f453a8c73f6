/**
 * McpSchemaUtil: the translation between an MCP tool's JSON-schema map and the
 * typed schema tree the chat-model library uses.
 *
 * Reading (map to tree) inspects "type" first; a map without a type is an anyOf,
 * a $ref or an object, in that order, and an unknown type reads as null, which
 * drops the property. Writing (tree to map) always emits the keys the reader
 * looks for, so a round trip returns the tree up to the few things the map
 * format cannot carry (see Normal).
 */
module McpSchema {
  import opened Wrappers
  import opened JsonValues
  import JavaStrings

  const CLASS_CAST: string := "ClassCastException"
  const NULL_ENUM: string := "enumValues cannot be null"
  const DEFS_PREFIX: string := "#/$defs/"
  const DEFINITIONS_PREFIX: string := "#/definitions/"

  /** The library's JsonSchemaElement subtypes. */
  datatype Element =
    | StringSchema(description: Option<string>)
    | IntegerSchema(description: Option<string>)
    | NumberSchema(description: Option<string>)
    | BooleanSchema(description: Option<string>)
    | NullSchema
    | EnumSchema(enumValues: seq<string>, description: Option<string>)
    | ArraySchema(description: Option<string>, items: Option<Element>)
    | ObjectSchema(description: Option<string>, properties: seq<Property>, required: Option<seq<string>>,
                   additionalProperties: Option<bool>, definitions: seq<Property>)
    | AnyOfSchema(description: Option<string>, anyOf: seq<Element>)
    | ReferenceSchema(reference: string)

  datatype Property = Property(name: string, schema: Element)

  /** The MCP JsonSchema record: type, properties, required, additionalProperties, $defs, definitions. */
  datatype McpJsonSchema = McpJsonSchema(
    schemaType: Option<string>,
    properties: Option<seq<Member>>,
    required: Option<seq<string>>,
    additionalProperties: Option<bool>,
    defs: Option<seq<Member>>,
    definitions: Option<seq<Member>>)

  // ===========================================================================
  // Map to tree
  // ===========================================================================

  /** `(String) map.get(key)`: absent or null reads as null, any other non-string throws. */
  function GetString(fields: seq<Member>, key: string): (r: Result<Option<string>, string>)
    ensures Get(fields, key).None? ==> r == Success(None)
    ensures Get(fields, key).Some? && Get(fields, key).value.JString? ==> r == Success(Some(Get(fields, key).value.s))
    ensures Get(fields, key).Some? && !Get(fields, key).value.JString? ==> r == Failure(CLASS_CAST)
  {
    var v := Get(fields, key);
    if v.None? then Success(None)
    else if v.value.JString? then Success(Some(v.value.s))
    else Failure(CLASS_CAST)
  }

  /** convertObjectToJsonSchemaElement; Success(None) is the Java null. */
  function FromObject(obj: Json): (r: Result<Option<Element>, string>)
    ensures obj.JNull? ==> r == Success(Some(NullSchema))
    ensures !obj.JNull? && !obj.JObject? ==> r == Success(None)
    ensures obj.JObject? && GetString(obj.fields, "type").Failure? ==> r.Failure?
    ensures obj.JObject? && GetString(obj.fields, "description").Failure? ==> r.Failure?
    ensures obj.JObject? && GetString(obj.fields, "type") == Success(Some("integer")) &&
            GetString(obj.fields, "description").Success? ==>
              r == Success(Some(IntegerSchema(GetString(obj.fields, "description").value)))
    decreases Size(obj)
  {
    match obj
    case JNull => Success(Some(NullSchema))
    case JObject(fields) =>
      var typ :- GetString(fields, "type");
      var description :- GetString(fields, "description");
      if typ.None? then
        if HasKey(fields, "anyOf") then FromAnyOf(fields, description)
        else if HasKey(fields, "$ref") then FromReference(fields)
        else FromObjectMap(fields, description)
      else if typ.value == "string" then FromString(fields, description)
      else if typ.value == "integer" then Success(Some(IntegerSchema(description)))
      else if typ.value == "number" then Success(Some(NumberSchema(description)))
      else if typ.value == "boolean" then Success(Some(BooleanSchema(description)))
      else if typ.value == "array" then FromArray(fields, description)
      else if typ.value == "object" then FromObjectMap(fields, description)
      else if typ.value == "null" then Success(Some(NullSchema))
      else Success(None)
    case _ => Success(None)
  }

  /** convertStringSchema: an "enum" key makes it an enum, whatever its description. */
  function FromString(fields: seq<Member>, description: Option<string>): (r: Result<Option<Element>, string>)
    ensures HasKey(fields, "enum") ==> r.Failure? || (r.value.Some? && r.value.value.EnumSchema?)
    ensures !HasKey(fields, "enum") ==> r == Success(Some(StringSchema(description)))
  {
    if HasKey(fields, "enum") then
      var v := Get(fields, "enum");
      if v.None? then Failure(NULL_ENUM)
      else if v.value.JArray? && AllStrings(v.value.items) then
        Success(Some(EnumSchema(Strings(v.value.items), description)))
      else Failure(CLASS_CAST)
    else Success(Some(StringSchema(description)))
  }

  /** convertArraySchema: an items value that reads as null leaves the items unset. */
  function FromArray(fields: seq<Member>, description: Option<string>): (r: Result<Option<Element>, string>)
    ensures Get(fields, "items").None? ==> r == Success(Some(ArraySchema(description, None)))
    ensures (Get(fields, "items").Some? && Get(fields, "items").value.JObject? &&
             GetString(Get(fields, "items").value.fields, "type").Failure?) ==> r.Failure?
    ensures r.Success? ==> r.value.Some? && r.value.value.ArraySchema? && r.value.value.description == description
    decreases FieldsSize(fields)
  {
    GetSmaller(fields, "items");
    var items := Get(fields, "items");
    if items.None? then Success(Some(ArraySchema(description, None)))
    else
      var e :- FromObject(items.value);
      Success(Some(ArraySchema(description, e)))
  }

  /** convertObjectSchema: each part is read only when it has the expected JSON type. */
  function FromObjectMap(fields: seq<Member>, description: Option<string>): (r: Result<Option<Element>, string>)
    ensures (Get(fields, "required").Some? && Get(fields, "required").value.JArray? &&
             !AllStrings(Get(fields, "required").value.items)) ==> r.Failure?
    ensures r.Success? ==> && r.value.Some? && r.value.value.ObjectSchema?
                           && r.value.value.description == description
                           && r.value.value.definitions == []
                           && (r.value.value.required.Some? <==>
                                 Get(fields, "required").Some? && Get(fields, "required").value.JArray?)
                           && (r.value.value.additionalProperties.Some? <==>
                                 Get(fields, "additionalProperties").Some? && Get(fields, "additionalProperties").value.JBool?)
    decreases FieldsSize(fields)
  {
    GetSmaller(fields, "properties");
    var propertiesObj := Get(fields, "properties");
    var properties :- if propertiesObj.Some? && propertiesObj.value.JObject?
      then FromProperties(propertiesObj.value.fields) else Success([]);
    var requiredObj := Get(fields, "required");
    var required :- if requiredObj.Some? && requiredObj.value.JArray? then
        (if AllStrings(requiredObj.value.items) then Success(Some(Strings(requiredObj.value.items))) else Failure(CLASS_CAST))
      else Success(None);
    var additionalObj := Get(fields, "additionalProperties");
    var additional := if additionalObj.Some? && additionalObj.value.JBool? then Some(additionalObj.value.b) else None;
    Success(Some(ObjectSchema(description, properties, required, additional, [])))
  }

  /** convertAnyOfSchema. */
  function FromAnyOf(fields: seq<Member>, description: Option<string>): (r: Result<Option<Element>, string>)
    ensures !(Get(fields, "anyOf").Some? && Get(fields, "anyOf").value.JArray?) ==>
              r == Success(Some(AnyOfSchema(description, [])))
    ensures r.Success? ==> r.value.Some? && r.value.value.AnyOfSchema? && r.value.value.description == description
    decreases FieldsSize(fields)
  {
    GetSmaller(fields, "anyOf");
    var anyOfObj := Get(fields, "anyOf");
    if anyOfObj.Some? && anyOfObj.value.JArray? then
      var elements :- FromList(anyOfObj.value.items);
      Success(Some(AnyOfSchema(description, elements)))
    else Success(Some(AnyOfSchema(description, [])))
  }

  /** The reference with "#/definitions/" and then "#/$defs/" deleted wherever they occur. */
  function StripReference(ref: string): (r: string)
    ensures '#' !in ref ==> r == ref
  {
    var once := JavaStrings.Replace(ref, DEFINITIONS_PREFIX, "");
    assert '#' !in ref ==> once == ref by {
      if '#' !in ref { JavaStrings.ReplaceAbsent(ref, DEFINITIONS_PREFIX, ""); }
    }
    assert '#' !in ref ==> JavaStrings.Replace(once, DEFS_PREFIX, "") == once by {
      if '#' !in ref { JavaStrings.ReplaceAbsent(once, DEFS_PREFIX, ""); }
    }
    JavaStrings.Replace(once, DEFS_PREFIX, "")
  }

  /** convertReferenceSchema. */
  function FromReference(fields: seq<Member>): (r: Result<Option<Element>, string>)
    ensures GetString(fields, "$ref") == Success(None) ==> r == Success(None)
    ensures GetString(fields, "$ref").Failure? ==> r.Failure?
    ensures GetString(fields, "$ref").Success? && GetString(fields, "$ref").value.Some? ==>
      r == Success(Some(ReferenceSchema(StripReference(GetString(fields, "$ref").value.value))))
  {
    var ref :- GetString(fields, "$ref");
    if ref.None? then Success(None) else Success(Some(ReferenceSchema(StripReference(ref.value))))
  }

  /** The entries whose value converts to a non-null element, in order. */
  function FromProperties(members: seq<Member>): (r: Result<seq<Property>, string>)
    ensures r.Success? ==> |r.value| <= |members|
    decreases FieldsSize(members)
  {
    if members == [] then Success([])
    else
      var e :- FromObject(members[0].value);
      var rest :- FromProperties(members[1..]);
      Success((if e.Some? then [Property(members[0].key, e.value)] else []) + rest)
  }

  function FromList(items: seq<Json>): (r: Result<seq<Element>, string>)
    ensures r.Success? ==> |r.value| <= |items|
    decreases ItemsSize(items)
  {
    if items == [] then Success([])
    else
      var e :- FromObject(items[0]);
      var rest :- FromList(items[1..]);
      Success((if e.Some? then [e.value] else []) + rest)
  }

  /** toJsonObjectSchema: a non-empty $defs wins over definitions. */
  function ToJsonObjectSchema(mcp: Option<McpJsonSchema>): (r: Result<Option<Element>, string>)
    ensures mcp.None? ==> r == Success(None)
    ensures mcp.Some? && r.Success? ==>
              && r.value.Some? && r.value.value.ObjectSchema?
              && r.value.value.description.None?
              && r.value.value.required == mcp.value.required
              && r.value.value.additionalProperties == mcp.value.additionalProperties
  {
    if mcp.None? then Success(None)
    else
      var m := mcp.value;
      var properties :- if m.properties.Some? && m.properties.value != [] then FromProperties(m.properties.value) else Success([]);
      var definitions :- FromDefinitions(m);
      Success(Some(ObjectSchema(None, properties, m.required, m.additionalProperties, definitions)))
  }

  /** Line 53: the definitions read are $defs when it is non-empty, else definitions. */
  function DefinitionsSource(m: McpJsonSchema): (r: Option<seq<Member>>)
    ensures m.defs.Some? && m.defs.value != [] ==> r == m.defs
    ensures !(m.defs.Some? && m.defs.value != []) ==> r == m.definitions
  {
    if m.defs.Some? && m.defs.value != [] then m.defs else m.definitions
  }

  /** The definitions read from the preferred source; an absent or empty source reads as none. */
  function FromDefinitions(m: McpJsonSchema): (r: Result<seq<Property>, string>)
    ensures DefinitionsSource(m).None? || DefinitionsSource(m) == Some([]) ==> r == Success([])
    ensures r.Success? && DefinitionsSource(m).Some? ==> |r.value| <= |DefinitionsSource(m).value|
  {
    var source := DefinitionsSource(m);
    if source.Some? && source.value != [] then FromProperties(source.value) else Success([])
  }

  // ===========================================================================
  // Tree to map
  // ===========================================================================

  function DescriptionMember(d: Option<string>): seq<Member> {
    if d.Some? then [Member("description", JString(d.value))] else []
  }

  function TypeMember(t: string): seq<Member> {
    [Member("type", JString(t))]
  }

  /** convertJsonSchemaElementToObject and the per-type writers, keys in insertion order. */
  function ToObject(e: Element): (r: Json)
    ensures r.JObject?
    decreases e, 1
  {
    match e
    case StringSchema(d) => JObject(DescriptionMember(d) + TypeMember("string"))
    case IntegerSchema(d) => JObject(DescriptionMember(d) + TypeMember("integer"))
    case NumberSchema(d) => JObject(DescriptionMember(d) + TypeMember("number"))
    case BooleanSchema(d) => JObject(DescriptionMember(d) + TypeMember("boolean"))
    case NullSchema => JObject(TypeMember("null"))
    case EnumSchema(values, d) =>
      JObject(TypeMember("string") + [Member("enum", JArray(FromStrings(values)))] + DescriptionMember(d))
    case ArraySchema(d, items) =>
      JObject(TypeMember("array") + DescriptionMember(d)
        + (if items.Some? then [Member("items", ToObject(items.value))] else []))
    case ObjectSchema(d, properties, required, additional, _) =>
      JObject(ObjectMap(d, ToMembers(properties), required, additional))
    case AnyOfSchema(d, elements) => JObject(AnyOfMap(d, ToList(elements)))
    case ReferenceSchema(ref) => JObject([Member("$ref", JString(DEFS_PREFIX + ref))])
  }

  /** The object writer's map, given the properties already written; empty parts are omitted. */
  function ObjectMap(d: Option<string>, members: seq<Member>, required: Option<seq<string>>, additional: Option<bool>): seq<Member> {
    TypeMember("object") + DescriptionMember(d)
      + (if members != [] then [Member("properties", JObject(members))] else [])
      + (if required.Some? && required.value != [] then [Member("required", JArray(FromStrings(required.value)))] else [])
      + (if additional.Some? then [Member("additionalProperties", JBool(additional.value))] else [])
  }

  /** The anyOf writer's map, given the alternatives already written; no "type" key. */
  function AnyOfMap(d: Option<string>, items: seq<Json>): seq<Member> {
    DescriptionMember(d) + (if items != [] then [Member("anyOf", JArray(items))] else [])
  }

  function ToMembers(properties: seq<Property>): (r: seq<Member>)
    ensures |r| == |properties|
    ensures forall i :: 0 <= i < |r| ==> r[i].key == properties[i].name
    decreases properties, 0
  {
    if properties == [] then []
    else [Member(properties[0].name, ToObject(properties[0].schema))] + ToMembers(properties[1..])
  }

  function ToList(elements: seq<Element>): (r: seq<Json>)
    ensures |r| == |elements|
    decreases elements, 0
  {
    if elements == [] then [] else [ToObject(elements[0])] + ToList(elements[1..])
  }

  /** toMcpJsonSchema: always type "object"; required and additionalProperties pass through. */
  function ToMcpJsonSchema(o: Option<Element>): (r: Option<McpJsonSchema>)
    requires o.Some? ==> o.value.ObjectSchema?
    ensures o.None? <==> r.None?
    ensures r.Some? ==>
      r.value.schemaType == Some("object")
      && r.value.required == o.value.required
      && r.value.additionalProperties == o.value.additionalProperties
      && r.value.definitions.None?
      && (r.value.properties.Some? <==> o.value.properties != [])
      && (r.value.properties.Some? ==> |r.value.properties.value| == |o.value.properties|)
      && (r.value.defs.Some? <==> o.value.definitions != [])
  {
    if o.None? then None
    else
      var s := o.value;
      Some(McpJsonSchema(
        Some("object"),
        if s.properties == [] then None else Some(ToMembers(s.properties)),
        s.required,
        s.additionalProperties,
        if s.definitions == [] then None else Some(ToMembers(s.definitions)),
        None))
  }

  // ===========================================================================
  // Round trip
  // ===========================================================================

  /**
   * What a tree looks like after it is written and read back: a required list
   * that is empty is not written, nested definitions are not written, and an
   * anyOf with no alternatives is written as a bare map, which reads as an object.
   */
  function Normal(e: Element): Element
    decreases e, 1
  {
    match e
    case ArraySchema(d, items) => ArraySchema(d, if items.Some? then Some(Normal(items.value)) else None)
    case ObjectSchema(d, properties, required, additional, _) =>
      ObjectSchema(d, NormalProperties(properties), if required == Some([]) then None else required, additional, [])
    case AnyOfSchema(d, elements) =>
      if elements == [] then ObjectSchema(d, [], None, None, []) else AnyOfSchema(d, NormalList(elements))
    case _ => e
  }

  function NormalProperties(properties: seq<Property>): (r: seq<Property>)
    ensures |r| == |properties|
    decreases properties, 0
  {
    if properties == [] then []
    else [Property(properties[0].name, Normal(properties[0].schema))] + NormalProperties(properties[1..])
  }

  function NormalList(elements: seq<Element>): (r: seq<Element>)
    ensures |r| == |elements|
    decreases elements, 0
  {
    if elements == [] then [] else [Normal(elements[0])] + NormalList(elements[1..])
  }

  /** No reference that the writer emits contains '#', so the reader's prefix deletion finds only its own prefix. */
  predicate PlainReferences(e: Element)
    decreases e, 1
  {
    match e
    case ReferenceSchema(ref) => '#' !in ref
    case ArraySchema(_, items) => items.Some? ==> PlainReferences(items.value)
    case ObjectSchema(_, properties, _, _, _) => PlainProperties(properties)
    case AnyOfSchema(_, elements) => PlainList(elements)
    case _ => true
  }

  predicate PlainProperties(properties: seq<Property>)
    decreases properties, 0
  {
    properties != [] ==> PlainReferences(properties[0].schema) && PlainProperties(properties[1..])
  }

  predicate PlainList(elements: seq<Element>)
    decreases elements, 0
  {
    elements != [] ==> PlainReferences(elements[0]) && PlainList(elements[1..])
  }

  /** A reference written as "#/$defs/name" reads back as the bare name. */
  lemma ReferenceRoundTrip(ref: string)
    requires '#' !in ref
    ensures StripReference(DEFS_PREFIX + ref) == ref
  {
    var s := DEFS_PREFIX + ref;
    assert !(DEFINITIONS_PREFIX <= s) by {
      assert s[2] == '$' && DEFINITIONS_PREFIX[2] == 'd';
    }
    assert s[1..] == "/$defs/" + ref;
    JavaStrings.ReplaceAbsent(s[1..], DEFINITIONS_PREFIX, "");
    assert [s[0]] + s[1..] == s;
    JavaStrings.ReplacePrefix(DEFS_PREFIX, "", ref);
    JavaStrings.ReplaceAbsent(ref, DEFS_PREFIX, "");
  }

  /** The older "#/definitions/name" form reads as the bare name too. */
  lemma DefinitionsReferenceStripped(ref: string)
    requires '#' !in ref
    ensures StripReference(DEFINITIONS_PREFIX + ref) == ref
  {
    JavaStrings.ReplacePrefix(DEFINITIONS_PREFIX, "", ref);
    JavaStrings.ReplaceAbsent(ref, DEFINITIONS_PREFIX, "");
    assert "" + ref == ref;
    JavaStrings.ReplaceAbsent(ref, DEFS_PREFIX, "");
  }

  /** Writing a tree and reading the map back yields its normal form. */
  lemma {:induction false} RoundTrip(e: Element)
    requires PlainReferences(e)
    ensures FromObject(ToObject(e)) == Success(Some(Normal(e)))
    decreases e, 1
  {
    match e
    case StringSchema(d) => PrimitiveRoundTrip(d, "string");
    case IntegerSchema(d) => PrimitiveRoundTrip(d, "integer");
    case NumberSchema(d) => PrimitiveRoundTrip(d, "number");
    case BooleanSchema(d) => PrimitiveRoundTrip(d, "boolean");
    case NullSchema => GetSingle("type", JString("null"), "type"); GetSingle("type", JString("null"), "description");
    case EnumSchema(values, d) => EnumRoundTrip(values, d);
    case ArraySchema(d, items) =>
      if items.Some? {
        RoundTrip(items.value);
      }
      ArrayRoundTrip(d, items);
    case ObjectSchema(d, properties, required, additional, definitions) =>
      PropertiesRoundTrip(properties);
      ObjectRoundTrip(d, properties, required, additional, definitions);
    case AnyOfSchema(d, elements) =>
      if elements != [] {
        ListRoundTrip(elements);
      }
      AnyOfRoundTrip(d, elements);
    case ReferenceSchema(ref) =>
      ReferenceRoundTrip(ref);
      var fields := [Member("$ref", JString(DEFS_PREFIX + ref))];
      GetSingle("$ref", JString(DEFS_PREFIX + ref), "type");
      GetSingle("$ref", JString(DEFS_PREFIX + ref), "description");
      GetSingle("$ref", JString(DEFS_PREFIX + ref), "anyOf");
      GetSingle("$ref", JString(DEFS_PREFIX + ref), "$ref");
  }

  lemma PrimitiveRoundTrip(d: Option<string>, t: string)
    requires t in {"string", "integer", "number", "boolean"}
    ensures FromObject(ToObject(match t
      case "string" => StringSchema(d)
      case "integer" => IntegerSchema(d)
      case "number" => NumberSchema(d)
      case _ => BooleanSchema(d)))
      == Success(Some(match t
      case "string" => StringSchema(d)
      case "integer" => IntegerSchema(d)
      case "number" => NumberSchema(d)
      case _ => BooleanSchema(d)))
  {
    var f := DescriptionMember(d) + TypeMember(t);
    PrimitiveMapLookup(d, t);
    TypedRead(f, t, d);
    if t == "string" {
      assert ToObject(StringSchema(d)) == JObject(f);
    } else if t == "integer" {
      assert ToObject(IntegerSchema(d)) == JObject(f);
    } else if t == "number" {
      assert ToObject(NumberSchema(d)) == JObject(f);
    } else {
      assert ToObject(BooleanSchema(d)) == JObject(f);
    }
  }

  /** What a reader finds in a primitive writer's map. */
  lemma PrimitiveMapLookup(d: Option<string>, t: string)
    ensures var f := DescriptionMember(d) + TypeMember(t);
      && GetString(f, "type") == Success(Some(t))
      && GetString(f, "description") == Success(d)
      && !HasKey(f, "enum")
  {
    var dm := DescriptionMember(d);
    var tm := TypeMember(t);
    assert dm + tm + [] == dm + tm;
    PartLookup3(dm, tm, [], "type", "description", "type", "enum");
    PartLookup3(dm, tm, [], "description", "description", "type", "enum");
    PartLookup3(dm, tm, [], "enum", "description", "type", "enum");
  }

  /** A map whose "type" names a known schema is read by that schema's reader. */
  lemma TypedRead(f: seq<Member>, t: string, d: Option<string>)
    requires GetString(f, "type") == Success(Some(t))
    requires GetString(f, "description") == Success(d)
    ensures t == "string" ==> FromObject(JObject(f)) == FromString(f, d)
    ensures t == "integer" ==> FromObject(JObject(f)) == Success(Some(IntegerSchema(d)))
    ensures t == "number" ==> FromObject(JObject(f)) == Success(Some(NumberSchema(d)))
    ensures t == "boolean" ==> FromObject(JObject(f)) == Success(Some(BooleanSchema(d)))
    ensures t == "array" ==> FromObject(JObject(f)) == FromArray(f, d)
    ensures t == "object" ==> FromObject(JObject(f)) == FromObjectMap(f, d)
  {
  }

  lemma EnumRoundTrip(values: seq<string>, d: Option<string>)
    ensures FromObject(ToObject(EnumSchema(values, d))) == Success(Some(EnumSchema(values, d)))
  {
    var f := TypeMember("string") + [Member("enum", JArray(FromStrings(values)))] + DescriptionMember(d);
    assert ToObject(EnumSchema(values, d)) == JObject(f);
    EnumMapLookup(values, d);
    TypedRead(f, "string", d);
  }

  /** What a reader finds in an enum writer's map. */
  lemma EnumMapLookup(values: seq<string>, d: Option<string>)
    ensures var f := TypeMember("string") + [Member("enum", JArray(FromStrings(values)))] + DescriptionMember(d);
      && GetString(f, "type") == Success(Some("string"))
      && GetString(f, "description") == Success(d)
      && HasKey(f, "enum")
      && Get(f, "enum") == Some(JArray(FromStrings(values)))
  {
    var tm := TypeMember("string");
    var em := [Member("enum", JArray(FromStrings(values)))];
    var dm := DescriptionMember(d);
    PartLookup3(tm, em, dm, "type", "type", "enum", "description");
    PartLookup3(tm, em, dm, "description", "type", "enum", "description");
    PartLookup3(tm, em, dm, "enum", "type", "enum", "description");
  }

  lemma ArrayRoundTrip(d: Option<string>, items: Option<Element>)
    requires items.Some? ==> FromObject(ToObject(items.value)) == Success(Some(Normal(items.value)))
    ensures FromObject(ToObject(ArraySchema(d, items))) == Success(Some(Normal(ArraySchema(d, items))))
  {
    var j := if items.Some? then Some(ToObject(items.value)) else None;
    var f := TypeMember("array") + DescriptionMember(d) + (if j.Some? then [Member("items", j.value)] else []);
    assert ToObject(ArraySchema(d, items)) == JObject(f);
    ArrayMapLookup(d, j);
    TypedRead(f, "array", d);
    ArrayFieldsRead(f, d, items);
  }

  /** What a reader finds in an array writer's map, given the items already written. */
  lemma ArrayMapLookup(d: Option<string>, j: Option<Json>)
    requires j.Some? ==> j.value.JObject?
    ensures var f := TypeMember("array") + DescriptionMember(d) + (if j.Some? then [Member("items", j.value)] else []);
      && GetString(f, "type") == Success(Some("array"))
      && GetString(f, "description") == Success(d)
      && Get(f, "items") == j
  {
    var tm := TypeMember("array");
    var dm := DescriptionMember(d);
    var im := if j.Some? then [Member("items", j.value)] else [];
    PartLookup3(tm, dm, im, "type", "type", "description", "items");
    PartLookup3(tm, dm, im, "description", "type", "description", "items");
    PartLookup3(tm, dm, im, "items", "type", "description", "items");
  }

  /** The array reader on any map whose "items" entry is a written element. */
  lemma ArrayFieldsRead(f: seq<Member>, d: Option<string>, items: Option<Element>)
    requires Get(f, "items") == if items.Some? then Some(ToObject(items.value)) else None
    requires items.Some? ==> FromObject(ToObject(items.value)) == Success(Some(Normal(items.value)))
    ensures FromArray(f, d) == Success(Some(Normal(ArraySchema(d, items))))
  {
  }

  /** What a reader finds in an object writer's map. */
  lemma ObjectMapLookup(d: Option<string>, members: seq<Member>, required: Option<seq<string>>, additional: Option<bool>)
    ensures var f := ObjectMap(d, members, required, additional);
      && GetString(f, "type") == Success(Some("object"))
      && GetString(f, "description") == Success(d)
      && Get(f, "properties") == (if members != [] then Some(JObject(members)) else None)
      && Get(f, "required") == (if required.Some? && required.value != [] then Some(JArray(FromStrings(required.value))) else None)
      && Get(f, "additionalProperties") == (if additional.Some? then Some(JBool(additional.value)) else None)
  {
    var f := ObjectMap(d, members, required, additional);
    ObjectMapKey(d, members, required, additional, "type");
    ObjectMapKey(d, members, required, additional, "description");
    ObjectMapKey(d, members, required, additional, "properties");
    ObjectMapKey(d, members, required, additional, "required");
    ObjectMapKey(d, members, required, additional, "additionalProperties");
  }

  /** The entry an object writer puts under each of its keys, or None when that part is omitted. */
  function ObjectEntry(d: Option<string>, members: seq<Member>, required: Option<seq<string>>, additional: Option<bool>,
                       key: string): Option<Json>
  {
    if key == "type" then Some(JString("object"))
    else if key == "description" then (if d.Some? then Some(JString(d.value)) else None)
    else if key == "properties" then (if members != [] then Some(JObject(members)) else None)
    else if key == "required" then
      (if required.Some? && required.value != [] then Some(JArray(FromStrings(required.value))) else None)
    else if key == "additionalProperties" then (if additional.Some? then Some(JBool(additional.value)) else None)
    else None
  }

  /** A lookup of one of the writer's keys in the object map finds that key's entry. */
  lemma ObjectMapKey(d: Option<string>, members: seq<Member>, required: Option<seq<string>>, additional: Option<bool>,
                     key: string)
    requires key == "type" || key == "description" || key == "properties" || key == "required" || key == "additionalProperties"
    ensures Get(ObjectMap(d, members, required, additional), key) == ObjectEntry(d, members, required, additional, key)
  {
    var t := TypeMember("object");
    var dm := DescriptionMember(d);
    var pm := if members != [] then [Member("properties", JObject(members))] else [];
    var rm := if required.Some? && required.value != [] then [Member("required", JArray(FromStrings(required.value)))] else [];
    var am := if additional.Some? then [Member("additionalProperties", JBool(additional.value))] else [];
    PartLookup(t, dm, pm, rm, am, key, "type", "description", "properties", "required", "additionalProperties");
  }

  /** Five parts of at most one entry each, under distinct keys: a lookup finds the part named by the key. */
  lemma PartLookup(a: seq<Member>, b: seq<Member>, c: seq<Member>, d: seq<Member>, e: seq<Member>, key: string,
                   ka: string, kb: string, kc: string, kd: string, ke: string)
    requires |a| <= 1 && |b| <= 1 && |c| <= 1 && |d| <= 1 && |e| <= 1
    requires a != [] ==> a[0].key == ka
    requires b != [] ==> b[0].key == kb
    requires c != [] ==> c[0].key == kc
    requires d != [] ==> d[0].key == kd
    requires e != [] ==> e[0].key == ke
    requires key == ka || key == kb || key == kc || key == kd || key == ke
    requires ka != kb && ka != kc && ka != kd && ka != ke && kb != kc && kb != kd && kb != ke
    requires kc != kd && kc != ke && kd != ke
    ensures Get(a + b + c + d + e, key) ==
      if key == ka then PartValue(a) else if key == kb then PartValue(b) else if key == kc then PartValue(c)
      else if key == kd then PartValue(d) else PartValue(e)
  {
    GetAppend5(a, b, c, d, e, key);
    if key == ka { PartGet(a, key); }
    else if key == kb { PartGet(b, key); }
    else if key == kc { PartGet(c, key); }
    else if key == kd { PartGet(d, key); }
    else { PartGet(e, key); }
    if key != ka { PartAbsent(a, ka, key); }
    if key != kb { PartAbsent(b, kb, key); }
    if key != kc { PartAbsent(c, kc, key); }
    if key != kd { PartAbsent(d, kd, key); }
    if key != ke { PartAbsent(e, ke, key); }
  }

  /** The value a part of at most one entry holds, with a JSON null read as Java null. */
  function PartValue(p: seq<Member>): Option<Json> {
    if p == [] || p[0].value == JNull then None else Some(p[0].value)
  }

  /** A lookup of its own key in a part of at most one entry finds the part's value. */
  lemma PartGet(p: seq<Member>, key: string)
    requires |p| <= 1 && (p != [] ==> p[0].key == key)
    ensures Get(p, key) == PartValue(p)
  {
  }

  /** A part of at most one entry under another key does not have the key. */
  lemma PartAbsent(p: seq<Member>, kp: string, key: string)
    requires |p| <= 1 && (p != [] ==> p[0].key == kp) && kp != key
    ensures !HasKey(p, key) && Get(p, key).None?
  {
  }

  /** Three parts of at most one entry each, under distinct keys: a lookup finds the part named by the key. */
  lemma PartLookup3(a: seq<Member>, b: seq<Member>, c: seq<Member>, key: string, ka: string, kb: string, kc: string)
    requires |a| <= 1 && |b| <= 1 && |c| <= 1
    requires a != [] ==> a[0].key == ka
    requires b != [] ==> b[0].key == kb
    requires c != [] ==> c[0].key == kc
    requires key == ka || key == kb || key == kc
    requires ka != kb && ka != kc && kb != kc
    ensures Get(a + b + c, key) == if key == ka then Get(a, key) else if key == kb then Get(b, key) else Get(c, key)
    ensures HasKey(a + b + c, key) <==> (key == ka && a != []) || (key == kb && b != []) || (key == kc && c != [])
  {
    GetAppend(a + b, c, key);
    HasKeyAppend(a + b, c, key);
    GetAppend(a, b, key);
    HasKeyAppend(a, b, key);
    if key != ka { PartAbsent(a, ka, key); } else if a != [] { PartPresent(a, key); }
    if key != kb { PartAbsent(b, kb, key); } else if b != [] { PartPresent(b, key); }
    if key != kc { PartAbsent(c, kc, key); } else if c != [] { PartPresent(c, key); }
  }

  /** A part of one entry under the key has the key. */
  lemma PartPresent(p: seq<Member>, key: string)
    requires |p| == 1 && p[0].key == key
    ensures HasKey(p, key)
  {
  }

  lemma ObjectRoundTrip(d: Option<string>, properties: seq<Property>, required: Option<seq<string>>,
                        additional: Option<bool>, definitions: seq<Property>)
    requires FromProperties(ToMembers(properties)) == Success(NormalProperties(properties))
    ensures FromObject(ToObject(ObjectSchema(d, properties, required, additional, definitions)))
      == Success(Some(Normal(ObjectSchema(d, properties, required, additional, definitions))))
  {
    var members := ToMembers(properties);
    var f := ObjectMap(d, members, required, additional);
    ObjectMapLookup(d, members, required, additional);
    TypedRead(f, "object", d);
    ObjectMapRead(d, properties, required, additional);
  }

  lemma ObjectMapRead(d: Option<string>, properties: seq<Property>, required: Option<seq<string>>, additional: Option<bool>)
    requires FromProperties(ToMembers(properties)) == Success(NormalProperties(properties))
    ensures FromObjectMap(ObjectMap(d, ToMembers(properties), required, additional), d)
      == Success(Some(ObjectSchema(d, NormalProperties(properties), if required == Some([]) then None else required, additional, [])))
  {
    var members := ToMembers(properties);
    ObjectMapLookup(d, members, required, additional);
    ObjectFieldsRead(ObjectMap(d, members, required, additional), d, members, NormalProperties(properties), required, additional);
  }

  /** The object reader on any map holding the parts an object writer emits. */
  lemma ObjectFieldsRead(f: seq<Member>, d: Option<string>, members: seq<Member>, read: seq<Property>,
                         required: Option<seq<string>>, additional: Option<bool>)
    requires Get(f, "properties") == (if members != [] then Some(JObject(members)) else None)
    requires Get(f, "required") == (if required.Some? && required.value != [] then Some(JArray(FromStrings(required.value))) else None)
    requires Get(f, "additionalProperties") == (if additional.Some? then Some(JBool(additional.value)) else None)
    requires members != [] ==> FromProperties(members) == Success(read)
    requires members == [] ==> read == []
    ensures FromObjectMap(f, d) == Success(Some(ObjectSchema(d, read, if required == Some([]) then None else required, additional, [])))
  {
  }

  /** What a reader finds in an anyOf writer's map. */
  lemma AnyOfMapLookup(d: Option<string>, items: seq<Json>)
    ensures var f := AnyOfMap(d, items);
      && GetString(f, "type") == Success(None)
      && GetString(f, "description") == Success(d)
      && (HasKey(f, "anyOf") <==> items != [])
      && (items != [] ==> Get(f, "anyOf") == Some(JArray(items)))
      && !HasKey(f, "$ref")
      && Get(f, "properties").None? && Get(f, "required").None? && Get(f, "additionalProperties").None?
  {
    var dm := DescriptionMember(d);
    var am := if items != [] then [Member("anyOf", JArray(items))] else [];
    var keys := ["type", "description", "anyOf", "$ref", "properties", "required", "additionalProperties"];
    forall k | k in keys
      ensures Get(dm + am, k) == if HasKey(dm, k) then Get(dm, k) else Get(am, k)
      ensures HasKey(dm + am, k) <==> HasKey(dm, k) || HasKey(am, k)
      ensures HasKey(dm, k) <==> d.Some? && k == "description"
      ensures HasKey(am, k) <==> items != [] && k == "anyOf"
      ensures Get(dm, k) == if d.Some? && k == "description" then Some(JString(d.value)) else None
      ensures Get(am, k) == if items != [] && k == "anyOf" then Some(JArray(items)) else None
    {
      GetAppend(dm, am, k);
      HasKeyAppend(dm, am, k);
      if d.Some? { GetSingle("description", JString(d.value), k); }
      if items != [] { GetSingle("anyOf", JArray(items), k); }
    }
  }

  lemma AnyOfRoundTrip(d: Option<string>, elements: seq<Element>)
    requires elements != [] ==> FromList(ToList(elements)) == Success(NormalList(elements))
    ensures FromObject(ToObject(AnyOfSchema(d, elements))) == Success(Some(Normal(AnyOfSchema(d, elements))))
  {
    var items := ToList(elements);
    assert ToObject(AnyOfSchema(d, elements)) == JObject(AnyOfMap(d, items));
    if elements == [] {
      assert items == [];
      EmptyAnyOfReads(d);
    } else {
      NonEmptyAnyOfReads(d, items, NormalList(elements));
    }
  }

  /** An anyOf map without alternatives has no type and no anyOf key, so it reads as an empty object. */
  lemma EmptyAnyOfReads(d: Option<string>)
    ensures FromObject(JObject(AnyOfMap(d, []))) == Success(Some(ObjectSchema(d, [], None, None, [])))
  {
    AnyOfMapLookup(d, []);
    var f := AnyOfMap(d, []);
    assert FromObject(JObject(f)) == FromObjectMap(f, d);
  }

  /** An anyOf map with alternatives reads back as an anyOf of what they read as. */
  lemma NonEmptyAnyOfReads(d: Option<string>, items: seq<Json>, elements: seq<Element>)
    requires items != [] && FromList(items) == Success(elements)
    ensures FromObject(JObject(AnyOfMap(d, items))) == Success(Some(AnyOfSchema(d, elements)))
  {
    AnyOfMapLookup(d, items);
    var f := AnyOfMap(d, items);
    assert FromObject(JObject(f)) == FromAnyOf(f, d);
  }

  lemma {:induction false} PropertiesRoundTrip(properties: seq<Property>)
    requires PlainProperties(properties)
    ensures FromProperties(ToMembers(properties)) == Success(NormalProperties(properties))
    decreases properties, 0
  {
    if properties != [] {
      RoundTrip(properties[0].schema);
      PropertiesRoundTrip(properties[1..]);
      assert ToMembers(properties)[1..] == ToMembers(properties[1..]);
    }
  }

  lemma {:induction false} ListRoundTrip(elements: seq<Element>)
    requires PlainList(elements)
    ensures FromList(ToList(elements)) == Success(NormalList(elements))
    decreases elements, 0
  {
    if elements != [] {
      RoundTrip(elements[0]);
      ListRoundTrip(elements[1..]);
      assert ToList(elements)[1..] == ToList(elements[1..]);
    }
  }

  /**
   * toMcpJsonSchema then toJsonObjectSchema keeps the properties (in normal form),
   * required, additionalProperties and the definitions; only the top-level
   * description is lost, since the MCP record has no place for it.
   */
  lemma McpRoundTrip(o: Element)
    requires o.ObjectSchema? && PlainProperties(o.properties) && PlainProperties(o.definitions)
    ensures ToJsonObjectSchema(ToMcpJsonSchema(Some(o)))
      == Success(Some(ObjectSchema(None, NormalProperties(o.properties), o.required, o.additionalProperties,
                                   NormalProperties(o.definitions))))
  {
    PropertiesRoundTrip(o.properties);
    PropertiesRoundTrip(o.definitions);
  }

  /** A non-empty $defs is read and definitions is ignored. */
  lemma DefsWinOverDefinitions(m: McpJsonSchema, other: Option<seq<Member>>)
    requires m.defs.Some? && m.defs.value != []
    ensures ToJsonObjectSchema(Some(m)) == ToJsonObjectSchema(Some(m.(definitions := other)))
  {
  }

  /** Without a non-empty $defs, definitions is read in its place. */
  lemma DefinitionsWhenDefsEmpty(m: McpJsonSchema)
    requires m.defs.None? || m.defs == Some([])
    ensures ToJsonObjectSchema(Some(m)) == ToJsonObjectSchema(Some(m.(defs := m.definitions, definitions := None)))
  {
  }

  /** A map whose "type" names no known schema reads as null, so a property of that type disappears. */
  lemma UnknownTypeDropped(t: string, name: string, rest: seq<Member>)
    requires t !in {"string", "integer", "number", "boolean", "array", "object", "null"}
    requires FromProperties(rest).Success?
    ensures FromObject(JObject([Member("type", JString(t))])) == Success(None)
    ensures FromProperties([Member(name, JObject([Member("type", JString(t))]))] + rest) == FromProperties(rest)
  {
    var f := [Member("type", JString(t))];
    GetSingle("type", JString(t), "type");
    GetSingle("type", JString(t), "description");
    var ms := [Member(name, JObject(f))] + rest;
    assert ms[0].value == JObject(f) && ms[1..] == rest;
    assert FromObject(ms[0].value) == Success(None);
    assert FromProperties(ms) == Success([] + FromProperties(rest).value);
    assert [] + FromProperties(rest).value == FromProperties(rest).value;
  }

  /** A "type" or "description" that is present but not a string is a failed cast. */
  lemma NonStringTypeFails(fields: seq<Member>)
    requires Get(fields, "type").Some? && !Get(fields, "type").value.JString?
    ensures FromObject(JObject(fields)) == Failure(CLASS_CAST)
  {
  }

  /** The normal form is a fixpoint, so a second write and read changes nothing. */
  lemma {:induction false} NormalIdempotent(e: Element)
    ensures Normal(Normal(e)) == Normal(e)
    decreases e, 1
  {
    match e
    case ArraySchema(d, items) =>
      if items.Some? {
        NormalIdempotent(items.value);
      }
    case ObjectSchema(d, properties, required, additional, _) =>
      NormalPropertiesIdempotent(properties);
    case AnyOfSchema(d, elements) =>
      if elements != [] {
        NormalListIdempotent(elements);
      }
    case _ =>
  }

  lemma {:induction false} NormalPropertiesIdempotent(properties: seq<Property>)
    ensures NormalProperties(NormalProperties(properties)) == NormalProperties(properties)
    decreases properties, 0
  {
    if properties != [] {
      NormalIdempotent(properties[0].schema);
      NormalPropertiesIdempotent(properties[1..]);
      var n := NormalProperties(properties);
      assert n[1..] == NormalProperties(properties[1..]);
    }
  }

  lemma {:induction false} NormalListIdempotent(elements: seq<Element>)
    ensures NormalList(NormalList(elements)) == NormalList(elements)
    decreases elements, 0
  {
    if elements != [] {
      NormalIdempotent(elements[0]);
      NormalListIdempotent(elements[1..]);
      var n := NormalList(elements);
      assert n[1..] == NormalList(elements[1..]);
    }
  }
}
