/** The server-side builders of bazaar extensions, and what the facilitator's schema check makes of them. */
module Advertiser {
  import opened Bazaar
  import opened Json
  import opened JsonSchema
  import opened Wrappers

  const DRAFT := "https://json-schema.org/draft/2020-12/schema"

  /** The facilitator's check of an extension: its own schema must compile and accept its info block. */
  predicate SchemaCheck(ext: BazaarExtension) {
    Compiles(ext.schema) && Valid(ext.schema, InfoJson(ext.info))
  }

  // ---------------------------------------------------------------------------
  // The schemas
  // ---------------------------------------------------------------------------

  function OutputSchema(): Json {
    FullSchema(map["type" := TypeSchema("string")], [Str("type")], false)
  }

  function TopProperties(input: Json, hasOutput: bool): map<string, Json> {
    if hasOutput then map["input" := input, "output" := OutputSchema()] else map["input" := input]
  }

  /** The outermost schema: an input, and an output when one is declared. */
  function TopSchema(input: Json, hasOutput: bool): Json {
    Tagged(FullSchema(TopProperties(input, hasOutput), [Str("input")], false))
  }

  function Tagged(schema: Json): Json {
    if schema.Object? then Object(schema.fields["$schema" := Str(DRAFT)]) else schema
  }

  function StringParams(params: map<string, Json>): Json {
    ObjectSchema(map k | k in params :: TypeSchema("string"))
  }

  const QUERY_METHODS: seq<Json> := [Str("GET"), Str("HEAD"), Str("DELETE")]
  const BODY_METHODS: seq<Json> := [Str("POST"), Str("PUT"), Str("PATCH")]
  const BODY_TYPES: seq<Json> := [Str("json"), Str("form-data"), Str("text")]
  const TRANSPORTS: seq<Json> := [Str("streamable-http"), Str("sse")]

  function QueryProperties(params: Option<map<string, Json>>): map<string, Json> {
    var base := map["type" := ConstSchema("http"), "method" := EnumSchema(QUERY_METHODS)];
    if params.Some? then base["queryParams" := StringParams(params.value)] else base
  }

  function QueryInputSchema(params: Option<map<string, Json>>): Json {
    FullSchema(QueryProperties(params), [Str("type"), Str("method")], true)
  }

  function BodyProperties(): map<string, Json> {
    map["type" := ConstSchema("http"), "method" := EnumSchema(BODY_METHODS),
        "bodyType" := EnumSchema(BODY_TYPES), "body" := Object(map[])]
  }

  function BodyInputSchema(): Json {
    FullSchema(BodyProperties(), [Str("type"), Str("method"), Str("bodyType"), Str("body")], false)
  }

  function McpProperties(): map<string, Json> {
    map["type" := ConstSchema("mcp"), "tool" := TypeSchema("string"), "description" := TypeSchema("string"),
        "transport" := EnumSchema(TRANSPORTS),
        "inputSchema" := TypeSchema("object"), "example" := TypeSchema("object")]
  }

  function McpInputSchema(): Json {
    FullSchema(McpProperties(), [Str("type"), Str("tool"), Str("inputSchema")], true)
  }

  // ---------------------------------------------------------------------------
  // The extensions
  // ---------------------------------------------------------------------------

  function HttpQueryExtension(
    m: QueryMethod, params: Option<map<string, Json>>, headers: Option<map<string, string>>,
    output: Option<DiscoveryOutput>): BazaarExtension
  {
    BazaarExtension(DiscoveryInfo(Query(m, params, headers), output), TopSchema(QueryInputSchema(params), output.Some?))
  }

  function HttpBodyExtension(
    m: BodyMethod, t: BodyType, body: Json, params: Option<map<string, Json>>,
    headers: Option<map<string, string>>, output: Option<DiscoveryOutput>): BazaarExtension
  {
    BazaarExtension(DiscoveryInfo(Body(m, t, body, params, headers), output), TopSchema(BodyInputSchema(), output.Some?))
  }

  function McpExtension(
    tool: string, description: Option<string>, inputSchema: Json, transport: Option<McpTransport>,
    example: Option<Json>, output: Option<DiscoveryOutput>): BazaarExtension
  {
    BazaarExtension(DiscoveryInfo(Mcp(tool, description, inputSchema, transport, example), output),
                    TopSchema(McpInputSchema(), output.Some?))
  }

  // The schemas are JSON values that keys are added to in place.

  method BuildQuerySchema(params: Option<map<string, Json>>, output: Option<DiscoveryOutput>) returns (schema: Json)
    ensures schema == TopSchema(QueryInputSchema(params), output.Some?)
  {
    hide FullSchema, StringParams, OutputSchema;
    var properties := map["type" := ConstSchema("http"), "method" := EnumSchema(QUERY_METHODS)];
    if params.Some? {
      properties := properties["queryParams" := StringParams(params.value)];
    }
    var input := FullSchema(properties, [Str("type"), Str("method")], true);
    var top := map["input" := input];
    if output.Some? {
      top := top["output" := OutputSchema()];
    }
    assert top == TopProperties(input, output.Some?);
    schema := Tagged(FullSchema(top, [Str("input")], false));
  }

  method BuildBodySchema(output: Option<DiscoveryOutput>) returns (schema: Json)
    ensures schema == TopSchema(BodyInputSchema(), output.Some?)
  {
    hide FullSchema, BodyInputSchema, OutputSchema;
    var top := map["input" := BodyInputSchema()];
    if output.Some? {
      top := top["output" := OutputSchema()];
    }
    assert top == TopProperties(BodyInputSchema(), output.Some?);
    schema := Tagged(FullSchema(top, [Str("input")], false));
  }

  method BuildMcpSchema(output: Option<DiscoveryOutput>) returns (schema: Json)
    ensures schema == TopSchema(McpInputSchema(), output.Some?)
  {
    hide FullSchema, McpInputSchema, OutputSchema;
    var top := map["input" := McpInputSchema()];
    if output.Some? {
      top := top["output" := OutputSchema()];
    }
    assert top == TopProperties(McpInputSchema(), output.Some?);
    schema := Tagged(FullSchema(top, [Str("input")], false));
  }

  // ---------------------------------------------------------------------------
  // What the check makes of them
  // ---------------------------------------------------------------------------

  lemma TaggedValid(schema: Json, v: Json)
    ensures Valid(Tagged(schema), v) <==> Valid(schema, v)
    ensures Compiles(Tagged(schema)) <==> Compiles(schema)
  {
  }

  lemma OutputAlwaysValid(output: DiscoveryOutput)
    ensures Valid(OutputSchema(), OutputJson(output))
  {
    FullSchemaValid(map["type" := TypeSchema("string")], [Str("type")], false, OutputJson(output));
    LeafSchemas("string", [], Str(output.kind));
    hide Valid, FullSchema, TypeSchema;
  }

  lemma TopSchemaValid(input: Json, info: DiscoveryInfo)
    ensures Valid(TopSchema(input, info.output.Some?), InfoJson(info)) <==> Valid(input, InputJson(info.input))
  {
    hide InputJson, FullSchema, Valid, OutputSchema, OutputJson, Tagged;
    var properties := TopProperties(input, info.output.Some?);
    TaggedValid(FullSchema(properties, [Str("input")], false), InfoJson(info));
    FullSchemaValid(properties, [Str("input")], false, InfoJson(info));
    if info.output.Some? {
      OutputAlwaysValid(info.output.value);
    }
  }

  lemma StringParamsValid(params: map<string, Json>)
    ensures Valid(StringParams(params), Object(params)) <==> forall k :: k in params ==> params[k].Str?
  {
    hide Valid, TypeSchema, ObjectSchema;
    var properties := map k | k in params :: TypeSchema("string");
    ObjectSchemaValid(properties, Object(params));
    forall k | k in params
      ensures Valid(TypeSchema("string"), params[k]) <==> params[k].Str?
    {
      LeafSchemas("string", [], params[k]);
    }
  }

  lemma QueryInputValid(m: QueryMethod, params: Option<map<string, Json>>, headers: Option<map<string, string>>)
    ensures Valid(QueryInputSchema(params), InputJson(Query(m, params, headers))) <==>
            headers.None? && (params.Some? ==> forall k :: k in params.value ==> params.value[k].Str?)
  {
    hide Valid, FullSchema, ConstSchema, EnumSchema, StringParams;
    var v := InputJson(Query(m, params, headers));
    FullSchemaValid(QueryProperties(params), [Str("type"), Str("method")], true, v);
    LeafSchemas("http", [], Str("http"));
    LeafSchemas("", QUERY_METHODS, Str(QueryMethodText(m)));
    if params.Some? {
      StringParamsValid(params.value);
      assert "queryParams" in v.fields && "queryParams" in QueryProperties(params);
    }
    if headers.Some? {
      assert "headers" in v.fields && "headers" !in QueryProperties(params);
    } else {
      assert v.fields.Keys <= QueryProperties(params).Keys;
    }
  }

  lemma BodyFields(
    m: BodyMethod, t: BodyType, body: Json, params: Option<map<string, Json>>, headers: Option<map<string, string>>)
    ensures InputJson(Body(m, t, body, params, headers)).Object?
    ensures
      var f := InputJson(Body(m, t, body, params, headers)).fields;
      && "type" in f && f["type"] == Str("http")
      && "method" in f && f["method"] == Str(BodyMethodText(m))
      && "bodyType" in f && f["bodyType"] == Str(BodyTypeText(t))
      && "body" in f && f["body"] == body
  {
    hide BodyMethodText, BodyTypeText;
  }

  lemma BodyPropertiesAre()
    ensures
      var p := BodyProperties();
      && p.Keys == {"type", "method", "bodyType", "body"}
      && p["type"] == ConstSchema("http") && p["method"] == EnumSchema(BODY_METHODS)
      && p["bodyType"] == EnumSchema(BODY_TYPES) && p["body"] == Object(map[])
  {
    hide ConstSchema, EnumSchema;
  }

  lemma BodyInputValid(
    m: BodyMethod, t: BodyType, body: Json, params: Option<map<string, Json>>, headers: Option<map<string, string>>)
    ensures Valid(BodyInputSchema(), InputJson(Body(m, t, body, params, headers)))
  {
    hide Valid, FullSchema, ConstSchema, EnumSchema, InputJson, BodyProperties;
    var v := InputJson(Body(m, t, body, params, headers));
    FullSchemaValid(BodyProperties(), [Str("type"), Str("method"), Str("bodyType"), Str("body")], false, v);
    BodyFields(m, t, body, params, headers);
    BodyPropertiesAre();
    LeafSchemas("http", [], Str("http"));
    LeafSchemas("", BODY_METHODS, Str(BodyMethodText(m)));
    LeafSchemas("", BODY_TYPES, Str(BodyTypeText(t)));
    LeafSchemas("", [], body);
  }

  lemma McpFields(
    tool: string, description: Option<string>, inputSchema: Json, transport: Option<McpTransport>, example: Option<Json>)
    ensures InputJson(Mcp(tool, description, inputSchema, transport, example)).Object?
    ensures
      var f := InputJson(Mcp(tool, description, inputSchema, transport, example)).fields;
      && "type" in f && f["type"] == Str("mcp") && "tool" in f && f["tool"] == Str(tool)
      && "inputSchema" in f && f["inputSchema"] == inputSchema
      && ("description" in f <==> description.Some?) && (description.Some? ==> f["description"] == Str(description.value))
      && ("transport" in f <==> transport.Some?) && (transport.Some? ==> f["transport"] == Str(TransportText(transport.value)))
      && ("example" in f <==> example.Some?) && (example.Some? ==> f["example"] == example.value)
      && f.Keys <= {"type", "tool", "description", "transport", "inputSchema", "example"}
  {
    hide TransportText;
  }

  lemma McpPropertiesAre()
    ensures
      var p := McpProperties();
      && p.Keys == {"type", "tool", "description", "transport", "inputSchema", "example"}
      && p["type"] == ConstSchema("mcp") && p["tool"] == TypeSchema("string")
      && p["description"] == TypeSchema("string") && p["transport"] == EnumSchema(TRANSPORTS)
      && p["inputSchema"] == TypeSchema("object") && p["example"] == TypeSchema("object")
  {
    hide ConstSchema, EnumSchema, TypeSchema;
  }

  lemma McpInputValid(
    tool: string, description: Option<string>, inputSchema: Json, transport: Option<McpTransport>, example: Option<Json>)
    ensures Valid(McpInputSchema(), InputJson(Mcp(tool, description, inputSchema, transport, example))) <==>
            inputSchema.Object? && (example.Some? ==> example.value.Object?)
  {
    hide Valid, FullSchema, ConstSchema, EnumSchema, TypeSchema, InputJson, McpProperties;
    var v := InputJson(Mcp(tool, description, inputSchema, transport, example));
    FullSchemaValid(McpProperties(), [Str("type"), Str("tool"), Str("inputSchema")], true, v);
    McpFields(tool, description, inputSchema, transport, example);
    McpPropertiesAre();
    McpLeaves(tool, description, inputSchema, transport, example);
  }

  lemma McpLeaves(
    tool: string, description: Option<string>, inputSchema: Json, transport: Option<McpTransport>, example: Option<Json>)
    ensures Valid(ConstSchema("mcp"), Str("mcp")) && Valid(TypeSchema("string"), Str(tool))
    ensures description.Some? ==> Valid(TypeSchema("string"), Str(description.value))
    ensures transport.Some? ==> Valid(EnumSchema(TRANSPORTS), Str(TransportText(transport.value)))
    ensures Valid(TypeSchema("object"), inputSchema) <==> inputSchema.Object?
    ensures example.Some? ==> (Valid(TypeSchema("object"), example.value) <==> example.value.Object?)
  {
    hide Valid, EnumSchema, TypeSchema, ConstSchema;
    LeafSchemas("mcp", [], Str("mcp"));
    LeafSchemas("string", [], Str(tool));
    LeafSchemas("object", [], inputSchema);
    if description.Some? {
      LeafSchemas("string", [], Str(description.value));
    }
    if transport.Some? {
      LeafSchemas("", TRANSPORTS, Str(TransportText(transport.value)));
    }
    if example.Some? {
      LeafSchemas("object", [], example.value);
    }
  }

  // ---------------------------------------------------------------------------
  // Everything that they accept
  // ---------------------------------------------------------------------------

  /** The key is there, with one of these texts. */
  predicate Says(v: Json, key: string, texts: set<string>) {
    v.Object? && key in v.fields && v.fields[key].Str? && v.fields[key].text in texts
  }

  predicate AllStrings(keys: set<string>, v: Json) {
    v.Object? && forall k :: k in keys && k in v.fields ==> v.fields[k].Str?
  }

  predicate QueryShape(params: Option<map<string, Json>>, v: Json) {
    && Says(v, "type", {"http"}) && Says(v, "method", {"GET", "HEAD", "DELETE"})
    && v.fields.Keys <= {"type", "method"} + (if params.Some? then {"queryParams"} else {})
    && (params.Some? && "queryParams" in v.fields ==> AllStrings(params.value.Keys, v.fields["queryParams"]))
  }

  predicate BodyShape(v: Json) {
    && Says(v, "type", {"http"}) && Says(v, "method", {"POST", "PUT", "PATCH"})
    && Says(v, "bodyType", {"json", "form-data", "text"}) && "body" in v.fields
  }

  predicate McpShape(v: Json) {
    && Says(v, "type", {"mcp"})
    && v.fields.Keys <= {"type", "tool", "description", "transport", "inputSchema", "example"}
    && "tool" in v.fields && v.fields["tool"].Str?
    && "inputSchema" in v.fields && v.fields["inputSchema"].Object?
    && ("description" in v.fields ==> v.fields["description"].Str?)
    && ("transport" in v.fields ==> Says(v, "transport", {"streamable-http", "sse"}))
    && ("example" in v.fields ==> v.fields["example"].Object?)
  }

  /** An info block with an input, and an output that names its type when one is declared and given. */
  predicate InfoShape(v: Json, hasOutput: bool) {
    && v.Object? && "input" in v.fields
    && (hasOutput && "output" in v.fields ==> v.fields["output"].Object? && "type" in v.fields["output"].fields
                                              && v.fields["output"].fields["type"].Str?)
  }

  lemma OutputSchemaAccepts(v: Json)
    ensures Valid(OutputSchema(), v) <==> v.Object? && "type" in v.fields && v.fields["type"].Str?
  {
    hide FullSchema, Valid, TypeSchema;
    FullSchemaValid(map["type" := TypeSchema("string")], [Str("type")], false, v);
    if v.Object? && "type" in v.fields {
      LeafSchemas("string", [], v.fields["type"]);
    }
  }

  lemma TopSchemaAccepts(input: Json, hasOutput: bool, v: Json)
    ensures Valid(TopSchema(input, hasOutput), v) <==> InfoShape(v, hasOutput) && Valid(input, v.fields["input"])
  {
    hide FullSchema, Valid, OutputSchema, Tagged;
    var properties := TopProperties(input, hasOutput);
    TaggedValid(FullSchema(properties, [Str("input")], false), v);
    FullSchemaValid(properties, [Str("input")], false, v);
    if hasOutput && v.Object? && "output" in v.fields {
      OutputSchemaAccepts(v.fields["output"]);
    }
  }

  lemma TaggedAs2020(input: Json, hasOutput: bool)
    ensures
      var schema := TopSchema(input, hasOutput);
      && schema.Object? && "$schema" in schema.fields
      && schema.fields["$schema"] == Str("https://json-schema.org/draft/2020-12/schema")
  {
  }

  lemma QuerySchemaAccepts(params: Option<map<string, Json>>, v: Json)
    ensures Valid(QueryInputSchema(params), v) <==> QueryShape(params, v)
  {
    hide Valid, FullSchema, ConstSchema, EnumSchema, StringParams, ObjectSchema;
    FullSchemaValid(QueryProperties(params), [Str("type"), Str("method")], true, v);
    if v.Object? {
      LeafAt(v, "type", "http");
      LeafAt(v, "method", "");
      if params.Some? && "queryParams" in v.fields {
        StringParamsAccept(params.value, v.fields["queryParams"]);
      }
    }
  }

  lemma StringParamsAccept(params: map<string, Json>, v: Json)
    ensures Valid(StringParams(params), v) <==> AllStrings(params.Keys, v)
  {
    hide Valid, TypeSchema, ObjectSchema;
    var properties := map k | k in params :: TypeSchema("string");
    ObjectSchemaValid(properties, v);
    if v.Object? {
      forall k | k in params && k in v.fields
        ensures Valid(TypeSchema("string"), v.fields[k]) <==> v.fields[k].Str?
      {
        LeafSchemas("string", [], v.fields[k]);
      }
    }
  }

  /** What the schemas of single values make of the value under a key. */
  lemma LeafAt(v: Json, key: string, text: string)
    requires v.Object?
    ensures key in v.fields ==>
              && (Valid(ConstSchema(text), v.fields[key]) <==> Says(v, key, {text}))
              && (Valid(TypeSchema("string"), v.fields[key]) <==> v.fields[key].Str?)
              && (Valid(TypeSchema("object"), v.fields[key]) <==> v.fields[key].Object?)
              && (Valid(EnumSchema(QUERY_METHODS), v.fields[key]) <==> Says(v, key, {"GET", "HEAD", "DELETE"}))
              && (Valid(EnumSchema(BODY_METHODS), v.fields[key]) <==> Says(v, key, {"POST", "PUT", "PATCH"}))
              && (Valid(EnumSchema(BODY_TYPES), v.fields[key]) <==> Says(v, key, {"json", "form-data", "text"}))
              && (Valid(EnumSchema(TRANSPORTS), v.fields[key]) <==> Says(v, key, {"streamable-http", "sse"}))
              && Valid(Object(map[]), v.fields[key])
  {
    hide Valid, ConstSchema, TypeSchema, EnumSchema;
    if key in v.fields {
      LeafSchemas(text, [], v.fields[key]);
      LeafSchemas("string", QUERY_METHODS, v.fields[key]);
      LeafSchemas("object", BODY_METHODS, v.fields[key]);
      LeafSchemas("", BODY_TYPES, v.fields[key]);
      LeafSchemas("", TRANSPORTS, v.fields[key]);
    }
  }

  lemma BodySchemaAccepts(v: Json)
    ensures Valid(BodyInputSchema(), v) <==> BodyShape(v)
  {
    hide Valid, FullSchema, ConstSchema, EnumSchema, BodyProperties;
    FullSchemaValid(BodyProperties(), [Str("type"), Str("method"), Str("bodyType"), Str("body")], false, v);
    BodyPropertiesAre();
    if v.Object? {
      LeafAt(v, "type", "http");
      LeafAt(v, "method", "");
      LeafAt(v, "bodyType", "");
      LeafAt(v, "body", "");
    }
  }

  lemma McpSchemaAccepts(v: Json)
    ensures Valid(McpInputSchema(), v) <==> McpShape(v)
  {
    hide Valid, FullSchema, ConstSchema, EnumSchema, TypeSchema, McpProperties;
    FullSchemaValid(McpProperties(), [Str("type"), Str("tool"), Str("inputSchema")], true, v);
    McpPropertiesAre();
    if v.Object? {
      LeafAt(v, "type", "mcp");
      LeafAt(v, "tool", "");
      LeafAt(v, "description", "");
      LeafAt(v, "transport", "");
      LeafAt(v, "inputSchema", "");
      LeafAt(v, "example", "");
    }
  }

  /** Everything that the three published schemas accept, whoever sends it. */
  lemma SchemasAccept(params: Option<map<string, Json>>, hasOutput: bool, v: Json)
    ensures Valid(TopSchema(QueryInputSchema(params), hasOutput), v) <==>
            InfoShape(v, hasOutput) && QueryShape(params, v.fields["input"])
    ensures Valid(TopSchema(BodyInputSchema(), hasOutput), v) <==> InfoShape(v, hasOutput) && BodyShape(v.fields["input"])
    ensures Valid(TopSchema(McpInputSchema(), hasOutput), v) <==> InfoShape(v, hasOutput) && McpShape(v.fields["input"])
  {
    hide Valid, TopSchema, QueryInputSchema, BodyInputSchema, McpInputSchema, QueryShape, BodyShape, McpShape;
    TopSchemaAccepts(QueryInputSchema(params), hasOutput, v);
    TopSchemaAccepts(BodyInputSchema(), hasOutput, v);
    TopSchemaAccepts(McpInputSchema(), hasOutput, v);
    if InfoShape(v, hasOutput) {
      QuerySchemaAccepts(params, v.fields["input"]);
      BodySchemaAccepts(v.fields["input"]);
      McpSchemaAccepts(v.fields["input"]);
    }
  }

  // ---------------------------------------------------------------------------
  // Every built schema compiles
  // ---------------------------------------------------------------------------

  lemma FullSchemaCompiles(properties: map<string, Json>, names: seq<Json>, closed: bool)
    requires forall n :: n in names ==> n.Str?
    requires forall k :: k in properties ==> Compiles(properties[k])
    ensures Compiles(FullSchema(properties, names, closed)) && Compiles(ObjectSchema(properties))
  {
  }

  lemma LeavesCompile(text: string, texts: seq<Json>)
    ensures Compiles(TypeSchema("string")) && Compiles(TypeSchema("object")) && Compiles(Object(map[]))
    ensures Compiles(ConstSchema(text)) && Compiles(EnumSchema(texts))
  {
  }

  lemma TopSchemaCompiles(input: Json, hasOutput: bool)
    requires Compiles(input)
    ensures Compiles(TopSchema(input, hasOutput))
  {
    hide Compiles, FullSchema, Tagged;
    LeavesCompile("", []);
    FullSchemaCompiles(map["type" := TypeSchema("string")], [Str("type")], false);
    FullSchemaCompiles(TopProperties(input, hasOutput), [Str("input")], false);
    TaggedValid(FullSchema(TopProperties(input, hasOutput), [Str("input")], false), Null);
  }

  lemma InputSchemasCompile(params: Option<map<string, Json>>)
    ensures Compiles(QueryInputSchema(params)) && Compiles(BodyInputSchema()) && Compiles(McpInputSchema())
  {
    hide Compiles, FullSchema, ObjectSchema, TypeSchema, ConstSchema, EnumSchema, QueryProperties, BodyProperties, McpProperties;
    QueryPropertiesCompile(params);
    FullSchemaCompiles(QueryProperties(params), [Str("type"), Str("method")], true);
    BodyPropertiesAre();
    LeavesCompile("http", BODY_METHODS);
    LeavesCompile("http", BODY_TYPES);
    FullSchemaCompiles(BodyProperties(), [Str("type"), Str("method"), Str("bodyType"), Str("body")], false);
    McpPropertiesAre();
    LeavesCompile("mcp", TRANSPORTS);
    FullSchemaCompiles(McpProperties(), [Str("type"), Str("tool"), Str("inputSchema")], true);
  }

  lemma QueryPropertiesCompile(params: Option<map<string, Json>>)
    ensures forall k :: k in QueryProperties(params) ==> Compiles(QueryProperties(params)[k])
  {
    hide Compiles, ObjectSchema, TypeSchema, ConstSchema, EnumSchema, FullSchema;
    LeavesCompile("http", QUERY_METHODS);
    if params.Some? {
      FullSchemaCompiles(map k | k in params.value :: TypeSchema("string"), [], false);
    }
  }

  // ---------------------------------------------------------------------------
  // The three declarations
  // ---------------------------------------------------------------------------

  /** A query declaration passes if and only if no headers are given and every parameter is a string. */
  lemma HttpQueryPassesIff(
    m: QueryMethod, params: Option<map<string, Json>>, headers: Option<map<string, string>>, output: Option<DiscoveryOutput>)
    ensures SchemaCheck(HttpQueryExtension(m, params, headers, output)) <==>
            headers.None? && (params.Some? ==> forall k :: k in params.value ==> params.value[k].Str?)
  {
    hide Compiles, Valid, QueryInputSchema, InputJson, TopSchema, InfoJson;
    InputSchemasCompile(params);
    TopSchemaCompiles(QueryInputSchema(params), output.Some?);
    TopSchemaValid(QueryInputSchema(params), HttpQueryExtension(m, params, headers, output).info);
    QueryInputValid(m, params, headers);
  }

  /** A body declaration always passes. */
  lemma HttpBodyPasses(
    m: BodyMethod, t: BodyType, body: Json, params: Option<map<string, Json>>,
    headers: Option<map<string, string>>, output: Option<DiscoveryOutput>)
    ensures SchemaCheck(HttpBodyExtension(m, t, body, params, headers, output))
  {
    hide Compiles, Valid, BodyInputSchema, InputJson, TopSchema, InfoJson;
    InputSchemasCompile(None);
    TopSchemaCompiles(BodyInputSchema(), output.Some?);
    TopSchemaValid(BodyInputSchema(), HttpBodyExtension(m, t, body, params, headers, output).info);
    BodyInputValid(m, t, body, params, headers);
  }

  /** A tool declaration passes if and only if its input schema and any example are objects. */
  lemma McpPassesIff(
    tool: string, description: Option<string>, inputSchema: Json, transport: Option<McpTransport>,
    example: Option<Json>, output: Option<DiscoveryOutput>)
    ensures SchemaCheck(McpExtension(tool, description, inputSchema, transport, example, output)) <==>
            inputSchema.Object? && (example.Some? ==> example.value.Object?)
  {
    hide Compiles, Valid, McpInputSchema, InputJson, TopSchema, InfoJson;
    InputSchemasCompile(None);
    TopSchemaCompiles(McpInputSchema(), output.Some?);
    TopSchemaValid(McpInputSchema(), McpExtension(tool, description, inputSchema, transport, example, output).info);
    McpInputValid(tool, description, inputSchema, transport, example);
  }

  /** What the facilitator receives of a declaration, after the block has been written to JSON and read back. */
  function Received(ext: BazaarExtension): BazaarExtension {
    BazaarExtension(OverWire(ext.info), ext.schema)
  }

  /** A schema that accepts the block but does not compile is turned down all the same. */
  lemma UncompiledFails(info: DiscoveryInfo, text: string)
    requires text != "input" && text != "output"
    ensures
      var schema := Object(map["properties" := Object(map[text := Null])]);
      Valid(schema, InfoJson(info)) && !SchemaCheck(BazaarExtension(info, schema))
  {
    hide InputJson, OutputJson;
    BadSchemas(map["properties" := Object(map[text := Null])], text);
  }

  /** Over the wire a null example disappears, so it passes there although it fails before. */
  lemma McpPassesOverWireIff(
    tool: string, description: Option<string>, inputSchema: Json, transport: Option<McpTransport>,
    example: Option<Json>, output: Option<DiscoveryOutput>)
    ensures SchemaCheck(Received(McpExtension(tool, description, inputSchema, transport, example, output))) <==>
            inputSchema.Object? && (example.Some? ==> example.value.Object? || example.value.Null?)
  {
    hide SchemaCheck, McpInputSchema, InputJson, TopSchema, InfoJson;
    var received := OverWire(McpExtension(tool, description, inputSchema, transport, example, output).info);
    McpPassesIff(tool, description, inputSchema, transport, DropNull(example), received.output);
  }

  /** The extension that declares this input. */
  function Declared(input: DiscoveryInput, output: Option<DiscoveryOutput>): BazaarExtension {
    match input
    case Query(m, params, headers) => HttpQueryExtension(m, params, headers, output)
    case Body(m, t, body, params, headers) => HttpBodyExtension(m, t, body, params, headers, output)
    case Mcp(tool, description, inputSchema, transport, example) =>
      McpExtension(tool, description, inputSchema, transport, example, output)
  }

  /** What a declaration needs to pass: no headers and only string parameters, or only objects; a body needs nothing. */
  predicate Passable(input: DiscoveryInput) {
    match input
    case Query(_, params, headers) =>
      headers.None? && (params.Some? ==> forall k :: k in params.value ==> params.value[k].Str?)
    case Body(_, _, _, _, _) => true
    case Mcp(_, _, inputSchema, _, example) =>
      inputSchema.Object? && (example.Some? ==> example.value.Object? || example.value.Null?)
  }

  /** What the facilitator receives passes exactly when the declared input can. */
  lemma ReceivedPassesIff(input: DiscoveryInput, output: Option<DiscoveryOutput>)
    ensures SchemaCheck(Received(Declared(input, output))) <==> Passable(input)
    ensures Received(Declared(input, output)).info.input.Mcp? <==> input.Mcp?
  {
    hide SchemaCheck, QueryInputSchema, BodyInputSchema, McpInputSchema, InputJson, TopSchema, InfoJson;
    var sent := Received(Declared(input, output)).info.output;
    match input
    case Query(m, params, headers) => HttpQueryPassesIff(m, params, headers, sent);
    case Body(m, t, body, params, headers) => HttpBodyPasses(m, t, body, params, headers, sent);
    case Mcp(tool, description, inputSchema, transport, example) =>
      McpPassesOverWireIff(tool, description, inputSchema, transport, example, output);
  }

  // ---------------------------------------------------------------------------
  // The builders
  // ---------------------------------------------------------------------------

  method DeclareHttpQuery(
    m: QueryMethod, params: Option<map<string, Json>>, headers: Option<map<string, string>>,
    output: Option<DiscoveryOutput>)
    returns (ext: BazaarExtension)
    ensures ext == HttpQueryExtension(m, params, headers, output)
    ensures ext.info == DiscoveryInfo(Query(m, params, headers), output)
    ensures SchemaCheck(ext) <==> headers.None? && (params.Some? ==> forall k :: k in params.value ==> params.value[k].Str?)
  {
    hide SchemaCheck, TopSchema, QueryInputSchema;
    HttpQueryPassesIff(m, params, headers, output);
    var schema := BuildQuerySchema(params, output);
    ext := BazaarExtension(DiscoveryInfo(Query(m, params, headers), output), schema);
  }

  method DeclareHttpBody(
    m: BodyMethod, t: BodyType, body: Json, params: Option<map<string, Json>>,
    headers: Option<map<string, string>>, output: Option<DiscoveryOutput>)
    returns (ext: BazaarExtension)
    ensures ext == HttpBodyExtension(m, t, body, params, headers, output)
    ensures ext.info == DiscoveryInfo(Body(m, t, body, params, headers), output)
    ensures SchemaCheck(ext)
  {
    hide SchemaCheck, TopSchema, BodyInputSchema;
    HttpBodyPasses(m, t, body, params, headers, output);
    var schema := BuildBodySchema(output);
    ext := BazaarExtension(DiscoveryInfo(Body(m, t, body, params, headers), output), schema);
  }

  method DeclareMcp(
    tool: string, description: Option<string>, inputSchema: Json, transport: Option<McpTransport>,
    example: Option<Json>, output: Option<DiscoveryOutput>)
    returns (ext: BazaarExtension)
    ensures ext == McpExtension(tool, description, inputSchema, transport, example, output)
    ensures ext.info == DiscoveryInfo(Mcp(tool, description, inputSchema, transport, example), output)
    ensures SchemaCheck(ext) <==> inputSchema.Object? && (example.Some? ==> example.value.Object?)
    ensures SchemaCheck(Received(ext)) <==>
            inputSchema.Object? && (example.Some? ==> example.value.Object? || example.value.Null?)
  {
    hide SchemaCheck, TopSchema, McpInputSchema;
    McpPassesIff(tool, description, inputSchema, transport, example, output);
    McpPassesOverWireIff(tool, description, inputSchema, transport, example, output);
    var schema := BuildMcpSchema(output);
    ext := BazaarExtension(DiscoveryInfo(Mcp(tool, description, inputSchema, transport, example), output), schema);
  }
}
