/** llm_module/tool_call_schema.py: a case schema becomes the schema of a required
    `value` argument of a tool, and loses its `default` keywords on the way. */
module SchemaWrapping {
  import opened JsonValues
  import opened SchemaSemantics

  // ----- The code -----------------------------------------------------------------

  /** Every value that stands under a `$ref` key, anywhere in the document. */
  function CollectRefs(j: Json): set<Json> {
    match j
    case Obj(m) =>
      (if "$ref" in m then {m["$ref"]} else {}) + set k, r | k in m && r in CollectRefs(m[k]) :: r
    case Arr(items) => set i, r | 0 <= i < |items| && r in CollectRefs(items[i]) :: r
    case _ => {}
  }

  function RewriteRootRefs(j: Json, target: string): Json {
    match j
    case Obj(m) =>
      Obj(map k | k in m :: if k == "$ref" && m[k] == Str("#") then Str(target) else RewriteRootRefs(m[k], target))
    case Arr(items) => Arr(seq(|items|, i requires 0 <= i < |items| => RewriteRootRefs(items[i], target)))
    case _ => j
  }

  function StripKeyword(j: Json, keyword: string): Json {
    match j
    case Obj(m) => Obj(map k | k in m && k != keyword :: StripKeyword(m[k], keyword))
    case Arr(items) => Arr(seq(|items|, i requires 0 <= i < |items| => StripKeyword(items[i], keyword)))
    case _ => j
  }

  const CASE_DEF := "__case_schema"

  function NamesAtLeast(defs: map<string, Json>, length: nat): set<string> {
    set k | k in defs && |k| >= length
  }

  lemma DropUnderscore(longer: string, name: string)
    requires |name| < |longer| && longer[|longer| - |name| - 1..] == "_" + name
    ensures longer[|longer| - |name|..] == name && longer[|longer| - |name| - 1] == '_'
  {
    assert longer[|longer| - |name| - 1..][1..] == name;
  }

  /** `name` behind as many underscores as it takes to miss every key of `defs`. */
  function FreshDefName(defs: map<string, Json>, name: string): (free: string)
    ensures free !in defs
    ensures |name| <= |free| && free[|free| - |name|..] == name
    ensures forall i :: 0 <= i < |free| - |name| ==> free[i] == '_'
    ensures forall i :: 0 < i <= |free| - |name| ==> free[i..] in defs
    decreases NamesAtLeast(defs, |name|)
  {
    if name in defs then
      assert name in NamesAtLeast(defs, |name|);
      var longer := FreshDefName(defs, "_" + name);
      DropUnderscore(longer, name);
      longer
    else
      name
  }

  function Without(m: map<string, Json>): map<string, Json> {
    m - {"$defs", "$id"}
  }

  /** The tool parameter schema built from `schema`; only objects are wrapped. */
  function Wrapped(schema: Json): Json {
    if !schema.Obj? then schema else
    var m := schema.fields;
    var outer := map["type" := Str("object"), "required" := Arr([Str("value")]), "additionalProperties" := Bool(false)];
    var body :=
      if Str("#") in CollectRefs(schema) then
        var name := FreshDefName(Defs(schema), CASE_DEF);
        var rewritten := RewriteRootRefs(schema, DEFS_PREFIX + name);
        var defs := Defs(schema) + Defs(rewritten) + map[name := Obj(Without(rewritten.fields))];
        outer["properties" := Obj(map["value" := Obj(map["$ref" := Str(DEFS_PREFIX + name)])])]["$defs" := Obj(defs)]
      else
        var inner := outer["properties" := Obj(map["value" := Obj(Without(m))])];
        if "$defs" in m then inner["$defs" := m["$defs"]] else inner;
    Obj(if "$id" in m then body["$id" := m["$id"]] else body)
  }

  /** The step-by-step construction computes `Wrapped`; its search for a name ends. */
  method WrapSchemaAsParameterProperty(schema: Json) returns (wrapped: Json)
    ensures wrapped == Wrapped(schema)
  {
    if !schema.Obj? {
      return schema;
    }
    var w := map["type" := Str("object"), "required" := Arr([Str("value")]), "additionalProperties" := Bool(false)];
    if Str("#") in CollectRefs(schema) {
      var defs := Defs(schema);
      var name := CASE_DEF;
      while name in defs
        invariant FreshDefName(defs, name) == FreshDefName(defs, CASE_DEF)
        decreases NamesAtLeast(defs, |name|)
      {
        assert name in NamesAtLeast(defs, |name|);
        name := "_" + name;
      }
      var target := DEFS_PREFIX + name;
      var rewritten := RewriteRootRefs(schema, target);
      defs := defs + Defs(rewritten);
      defs := defs + map[name := Obj(Without(rewritten.fields))];
      w := w["properties" := Obj(map["value" := Obj(map["$ref" := Str(target)])])];
      w := w["$defs" := Obj(defs)];
    } else {
      w := w["properties" := Obj(map["value" := Obj(Without(schema.fields))])];
      if "$defs" in schema.fields {
        w := w["$defs" := schema.fields["$defs"]];
      }
    }
    if "$id" in schema.fields {
      w := w["$id" := schema.fields["$id"]];
    }
    wrapped := Obj(w);
  }

  /** What `classify_case` sends for a case it does not skip. */
  function CompiledCase(schema: Json): Json {
    StripKeyword(Wrapped(schema), "default")
  }
}
