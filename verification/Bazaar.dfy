/** The bazaar discovery extension and the JSON form of its `info` block. */
module Bazaar {
  import opened Json
  import opened Wrappers

  datatype QueryMethod = Get | Head | Delete
  datatype BodyMethod = Post | Put | Patch
  datatype BodyType = JsonBody | FormData | Text
  datatype McpTransport = StreamableHttp | Sse

  datatype DiscoveryInput =
    | Query(queryMethod: QueryMethod, queryParams: Option<map<string, Json>>, headers: Option<map<string, string>>)
    | Body(bodyMethod: BodyMethod, bodyType: BodyType, body: Json,
           queryParams: Option<map<string, Json>>, headers: Option<map<string, string>>)
    | Mcp(tool: string, description: Option<string>, inputSchema: Json,
          transport: Option<McpTransport>, example: Option<Json>)

  datatype DiscoveryOutput = DiscoveryOutput(kind: string, format: Option<string>, sample: Option<Json>)

  datatype DiscoveryInfo = DiscoveryInfo(input: DiscoveryInput, output: Option<DiscoveryOutput>)

  datatype BazaarExtension = BazaarExtension(info: DiscoveryInfo, schema: Json)

  function QueryMethodText(m: QueryMethod): string {
    match m
    case Get => "GET"
    case Head => "HEAD"
    case Delete => "DELETE"
  }

  function BodyMethodText(m: BodyMethod): string {
    match m
    case Post => "POST"
    case Put => "PUT"
    case Patch => "PATCH"
  }

  function BodyTypeText(t: BodyType): string {
    match t
    case JsonBody => "json"
    case FormData => "form-data"
    case Text => "text"
  }

  function TransportText(t: McpTransport): string {
    match t
    case StreamableHttp => "streamable-http"
    case Sse => "sse"
  }

  // ---------------------------------------------------------------------------
  // JSON form: absent options are left out
  // ---------------------------------------------------------------------------

  function Field(key: string, value: Option<Json>): map<string, Json> {
    if value.Some? then map[key := value.value] else map[]
  }

  function ParamsJson(params: Option<map<string, Json>>): Option<Json> {
    if params.Some? then Some(Object(params.value)) else None
  }

  function HeadersJson(headers: Option<map<string, string>>): Option<Json> {
    if headers.Some? then Some(Object(map k | k in headers.value :: Str(headers.value[k]))) else None
  }

  function TextJson(text: Option<string>): Option<Json> {
    if text.Some? then Some(Str(text.value)) else None
  }

  function TransportJson(t: Option<McpTransport>): Option<Json> {
    if t.Some? then Some(Str(TransportText(t.value))) else None
  }

  function InputJson(input: DiscoveryInput): Json {
    match input
    case Query(m, params, headers) =>
      Object(map["type" := Str("http"), "method" := Str(QueryMethodText(m))]
             + Field("queryParams", ParamsJson(params)) + Field("headers", HeadersJson(headers)))
    case Body(m, t, body, params, headers) =>
      Object(map["type" := Str("http"), "method" := Str(BodyMethodText(m)),
                 "bodyType" := Str(BodyTypeText(t)), "body" := body]
             + Field("queryParams", ParamsJson(params)) + Field("headers", HeadersJson(headers)))
    case Mcp(tool, description, inputSchema, transport, example) =>
      Object(map["type" := Str("mcp"), "tool" := Str(tool), "inputSchema" := inputSchema]
             + Field("description", TextJson(description)) + Field("transport", TransportJson(transport))
             + Field("example", example))
  }

  function OutputJson(output: DiscoveryOutput): Json {
    Object(map["type" := Str(output.kind)] + Field("format", TextJson(output.format)) + Field("example", output.sample))
  }

  function InfoJson(info: DiscoveryInfo): Json {
    Object(map["input" := InputJson(info.input)]
           + Field("output", if info.output.Some? then Some(OutputJson(info.output.value)) else None))
  }

  function DropNull(value: Option<Json>): Option<Json> {
    if value == Some(Null) then None else value
  }

  /** The block after a trip over the wire: an optional value that is null comes back as absent. */
  function OverWire(info: DiscoveryInfo): DiscoveryInfo {
    DiscoveryInfo(
      if info.input.Mcp? then info.input.(example := DropNull(info.input.example)) else info.input,
      if info.output.Some? then Some(info.output.value.(sample := DropNull(info.output.value.sample))) else None)
  }

  /** The names on the wire. */
  lemma WireNames()
    ensures QueryMethodText(Get) == "GET" && QueryMethodText(Head) == "HEAD" && QueryMethodText(Delete) == "DELETE"
    ensures BodyMethodText(Post) == "POST" && BodyMethodText(Put) == "PUT" && BodyMethodText(Patch) == "PATCH"
    ensures BodyTypeText(JsonBody) == "json" && BodyTypeText(FormData) == "form-data" && BodyTypeText(Text) == "text"
    ensures TransportText(StreamableHttp) == "streamable-http" && TransportText(Sse) == "sse"
  {
  }

  /** Nothing of a block is lost in its JSON form. */
  lemma InfoJsonInjective(a: DiscoveryInfo, b: DiscoveryInfo)
    ensures InfoJson(a) == InfoJson(b) <==> a == b
  {
    if InfoJson(a) == InfoJson(b) {
      InfoParts(a);
      InfoParts(b);
      hide InputJson, OutputJson, InfoJson;
      InputJsonInjective(a.input, b.input);
      if a.output.Some? && b.output.Some? {
        OutputJsonInjective(a.output.value, b.output.value);
      }
    }
  }

  lemma InfoParts(info: DiscoveryInfo)
    ensures InfoJson(info).Object? && "input" in InfoJson(info).fields && InfoJson(info).fields["input"] == InputJson(info.input)
    ensures "output" in InfoJson(info).fields <==> info.output.Some?
    ensures info.output.Some? ==> InfoJson(info).fields["output"] == OutputJson(info.output.value)
  {
    hide InputJson, OutputJson;
  }

  lemma OutputJsonInjective(a: DiscoveryOutput, b: DiscoveryOutput)
    requires OutputJson(a) == OutputJson(b)
    ensures a == b
  {
    OutputParts(a);
    OutputParts(b);
    hide OutputJson;
  }

  lemma OutputParts(output: DiscoveryOutput)
    ensures OutputJson(output).Object?
    ensures
      var f := OutputJson(output).fields;
      && "type" in f && f["type"] == Str(output.kind)
      && ("format" in f <==> output.format.Some?) && (output.format.Some? ==> f["format"] == Str(output.format.value))
      && ("example" in f <==> output.sample.Some?) && (output.sample.Some? ==> f["example"] == output.sample.value)
  {
  }

  lemma HeadersInjective(a: map<string, string>, b: map<string, string>)
    requires HeadersJson(Some(a)) == HeadersJson(Some(b))
    ensures a == b
  {
    var f, g := HeadersJson(Some(a)).value.fields, HeadersJson(Some(b)).value.fields;
    forall k | k in a
      ensures k in b && a[k] == b[k]
    {
      assert k in f && f[k] == Str(a[k]) && k in g;
    }
    forall k | k in b
      ensures k in a
    {
      assert k in g && k in f;
    }
  }

  /** The fields of an input block that is asked for over HTTP. */
  predicate HttpParts(f: map<string, Json>, m: string, params: Option<map<string, Json>>, headers: Option<map<string, string>>) {
    && "type" in f && f["type"] == Str("http") && "method" in f && f["method"] == Str(m)
    && ("queryParams" in f <==> params.Some?) && (params.Some? ==> f["queryParams"] == Object(params.value))
    && ("headers" in f <==> headers.Some?) && (headers.Some? ==> Some(f["headers"]) == HeadersJson(headers))
  }

  lemma QueryParts(m: QueryMethod, params: Option<map<string, Json>>, headers: Option<map<string, string>>)
    ensures
      var json := InputJson(Query(m, params, headers));
      json.Object? && HttpParts(json.fields, QueryMethodText(m), params, headers) && "body" !in json.fields
  {
    hide QueryMethodText;
  }

  lemma BodyParts(
    m: BodyMethod, t: BodyType, body: Json, params: Option<map<string, Json>>, headers: Option<map<string, string>>)
    ensures
      var json := InputJson(Body(m, t, body, params, headers));
      && json.Object? && HttpParts(json.fields, BodyMethodText(m), params, headers)
      && "bodyType" in json.fields && json.fields["bodyType"] == Str(BodyTypeText(t))
      && "body" in json.fields && json.fields["body"] == body
  {
    hide BodyMethodText, BodyTypeText;
  }

  lemma McpParts(
    tool: string, description: Option<string>, inputSchema: Json, transport: Option<McpTransport>, example: Option<Json>)
    ensures
      var json := InputJson(Mcp(tool, description, inputSchema, transport, example));
      && json.Object?
      && var f := json.fields;
      && "type" in f && f["type"] == Str("mcp") && "tool" in f && f["tool"] == Str(tool)
      && "inputSchema" in f && f["inputSchema"] == inputSchema
      && ("description" in f <==> description.Some?) && (description.Some? ==> f["description"] == Str(description.value))
      && ("transport" in f <==> transport.Some?) && (transport.Some? ==> f["transport"] == Str(TransportText(transport.value)))
      && ("example" in f <==> example.Some?) && (example.Some? ==> f["example"] == example.value)
  {
    hide TransportText;
  }

  lemma InputJsonInjective(a: DiscoveryInput, b: DiscoveryInput)
    requires InputJson(a) == InputJson(b)
    ensures a == b
  {
    InputPartsOf(a);
    InputPartsOf(b);
    hide InputJson, HeadersJson;
    if !a.Mcp? && !b.Mcp? && a.headers.Some? && b.headers.Some? {
      HeadersInjective(a.headers.value, b.headers.value);
    }
  }

  lemma InputPartsOf(input: DiscoveryInput)
    ensures
      var json := InputJson(input);
      && json.Object?
      && match input
         case Query(m, params, headers) => HttpParts(json.fields, QueryMethodText(m), params, headers) && "body" !in json.fields
         case Body(m, t, body, params, headers) =>
           && HttpParts(json.fields, BodyMethodText(m), params, headers)
           && "bodyType" in json.fields && json.fields["bodyType"] == Str(BodyTypeText(t))
           && "body" in json.fields && json.fields["body"] == body
         case Mcp(tool, description, inputSchema, transport, example) =>
           var f := json.fields;
           && "type" in f && f["type"] == Str("mcp") && "tool" in f && f["tool"] == Str(tool)
           && "inputSchema" in f && f["inputSchema"] == inputSchema
           && ("description" in f <==> description.Some?) && (description.Some? ==> f["description"] == Str(description.value))
           && ("transport" in f <==> transport.Some?) && (transport.Some? ==> f["transport"] == Str(TransportText(transport.value)))
           && ("example" in f <==> example.Some?) && (example.Some? ==> f["example"] == example.value)
  {
    match input
    case Query(m, params, headers) => QueryParts(m, params, headers);
    case Body(m, t, body, params, headers) => BodyParts(m, t, body, params, headers);
    case Mcp(tool, description, inputSchema, transport, example) => McpParts(tool, description, inputSchema, transport, example);
  }

  /** A trip over the wire loses null options, and nothing else. */
  lemma OverWireIff(info: DiscoveryInfo)
    ensures OverWire(info) == info <==>
            && !(info.input.Mcp? && info.input.example == Some(Null))
            && !(info.output.Some? && info.output.value.sample == Some(Null))
    ensures OverWire(OverWire(info)) == OverWire(info)
  {
  }
}
