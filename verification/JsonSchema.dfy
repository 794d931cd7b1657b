/**
 JSON Schema, Draft 2020-12: the keywords that the advertiser writes. `type`,
 `enum` and `const` are sections 6.1.1 to 6.1.3 of the Validation document and
 `required` is 6.5.3; `properties` and `additionalProperties` are sections
 10.3.2.1 and 10.3.2.3 of the Core document.
 */
module JsonSchema {
  import opened Json

  predicate HasType(name: string, v: Json) {
    match name
    case "null" => v.Null?
    case "boolean" => v.Bool?
    case "number" => v.Number?
    case "integer" => v.Number? && v.number == v.number.Floor as real
    case "string" => v.Str?
    case "array" => v.Array?
    case "object" => v.Object?
    case _ => false
  }

  predicate TypeName(name: string) {
    name in ["null", "boolean", "number", "integer", "string", "array", "object"]
  }

  /** A schema whose keywords have the shapes that the specification demands. */
  predicate Compiles(schema: Json)
    decreases schema
  {
    match schema
    case Bool(_) => true
    case Object(kw) =>
      && ("type" in kw ==> kw["type"].Str? && TypeName(kw["type"].text))
      && ("enum" in kw ==> kw["enum"].Array?)
      && ("required" in kw ==> kw["required"].Array? && forall n :: n in kw["required"].items ==> n.Str?)
      && ("properties" in kw ==>
            kw["properties"].Object? &&
            forall k :: k in kw["properties"].fields ==> Compiles(kw["properties"].fields[k]))
      && ("additionalProperties" in kw ==> Compiles(kw["additionalProperties"]))
    case _ => false
  }

  predicate TypeOk(kw: map<string, Json>, v: Json) {
    "type" in kw ==> kw["type"].Str? && HasType(kw["type"].text, v)
  }

  predicate ConstOk(kw: map<string, Json>, v: Json) {
    "const" in kw ==> v == kw["const"]
  }

  predicate EnumOk(kw: map<string, Json>, v: Json) {
    "enum" in kw ==> kw["enum"].Array? && v in kw["enum"].items
  }

  predicate RequiredOk(kw: map<string, Json>, v: Json) {
    "required" in kw && v.Object? ==>
      kw["required"].Array? && forall n :: n in kw["required"].items ==> n.Str? && n.text in v.fields
  }

  function Properties(kw: map<string, Json>): map<string, Json> {
    if "properties" in kw && kw["properties"].Object? then kw["properties"].fields else map[]
  }

  predicate Valid(schema: Json, v: Json)
    decreases schema
  {
    match schema
    case Bool(b) => b
    case Object(kw) =>
      && TypeOk(kw, v) && ConstOk(kw, v) && EnumOk(kw, v) && RequiredOk(kw, v)
      && (v.Object? && "properties" in kw && kw["properties"].Object? ==>
            forall k :: k in kw["properties"].fields && k in v.fields ==>
              Valid(kw["properties"].fields[k], v.fields[k]))
      && (v.Object? && "additionalProperties" in kw ==>
            forall k :: k in v.fields && k !in Properties(kw) ==>
              Valid(kw["additionalProperties"], v.fields[k]))
    case _ => false
  }

  // ---------------------------------------------------------------------------
  // The shapes of schema that the advertiser builds
  // ---------------------------------------------------------------------------

  function TypeSchema(name: string): Json {
    Object(map["type" := Str(name)])
  }

  function ConstSchema(text: string): Json {
    Object(map["type" := Str("string"), "const" := Str(text)])
  }

  function EnumSchema(texts: seq<Json>): Json {
    Object(map["type" := Str("string"), "enum" := Array(texts)])
  }

  function ObjectSchema(properties: map<string, Json>): Json {
    Object(map["type" := Str("object"), "properties" := Object(properties)])
  }

  function Requiring(schema: Json, names: seq<Json>): Json
    requires schema.Object?
  {
    Object(schema.fields["required" := Array(names)])
  }

  function Closed(schema: Json): Json
    requires schema.Object?
  {
    Object(schema.fields["additionalProperties" := Bool(false)])
  }

  lemma LeafSchemas(name: string, texts: seq<Json>, v: Json)
    ensures Valid(TypeSchema(name), v) <==> HasType(name, v)
    ensures Valid(ConstSchema(name), v) <==> v == Str(name)
    ensures Valid(EnumSchema(texts), v) <==> v.Str? && v in texts
    ensures Valid(Object(map[]), v)
  {
  }

  /** An object schema with its properties, required names, and whether others are allowed. */
  function FullSchema(properties: map<string, Json>, names: seq<Json>, closed: bool): Json {
    var open := Requiring(ObjectSchema(properties), names);
    if closed then Closed(open) else open
  }

  predicate Matches(properties: map<string, Json>, v: Json)
    requires v.Object?
  {
    forall k :: k in properties && k in v.fields ==> Valid(properties[k], v.fields[k])
  }

  lemma ObjectSchemaValid(properties: map<string, Json>, v: Json)
    ensures Valid(ObjectSchema(properties), v) <==> v.Object? && Matches(properties, v)
  {
  }

  lemma FullSchemaValid(properties: map<string, Json>, names: seq<Json>, closed: bool, v: Json)
    requires forall n :: n in names ==> n.Str?
    ensures Valid(FullSchema(properties, names, closed), v) <==>
            && v.Object? && Matches(properties, v)
            && (forall n :: n in names ==> n.text in v.fields)
            && (closed ==> v.fields.Keys <= properties.Keys)
  {
  }

  /** Schemas that do not compile: no object or boolean, an unknown type, or a keyword of the wrong shape, at any depth. */
  lemma BadSchemas(kw: map<string, Json>, text: string)
    ensures !Compiles(Str(text)) && !Compiles(Null)
    ensures "type" in kw && (kw["type"].Str? ==> kw["type"].text == "text") ==> !Compiles(Object(kw))
    ensures "enum" in kw && kw["enum"] == Null ==> !Compiles(Object(kw))
    ensures "required" in kw && kw["required"] == Array([Null]) ==> !Compiles(Object(kw))
    ensures "properties" in kw && kw["properties"] == Object(map[text := Null]) ==> !Compiles(Object(kw))
    ensures "additionalProperties" in kw && kw["additionalProperties"] == Null ==> !Compiles(Object(kw))
  {
    if "properties" in kw && kw["properties"] == Object(map[text := Null]) {
      assert text in kw["properties"].fields && !Compiles(kw["properties"].fields[text]);
    }
    if "required" in kw && kw["required"] == Array([Null]) {
      assert Null in kw["required"].items;
    }
  }


  /** A value has one type, except that whole numbers have two. */
  lemma OneType(v: Json, s: string, t: string)
    ensures HasType(s, v) && HasType(t, v) ==> s == t || (v.Number? && {s, t} == {"number", "integer"})
    ensures exists name :: TypeName(name) && name != "integer" && HasType(name, v)
    ensures HasType("integer", Number(1.0)) && !HasType("integer", Number(0.5))
    ensures HasType(s, v) ==> TypeName(s)
  {
    var name := match v
      case Null => "null"
      case Bool(_) => "boolean"
      case Number(_) => "number"
      case Str(_) => "string"
      case Array(_) => "array"
      case Object(_) => "object";
    assert TypeName(name) && name != "integer" && HasType(name, v);
    assert 1.0 == 1.0.Floor as real && 0.5 != 0.5.Floor as real;
  }
}
