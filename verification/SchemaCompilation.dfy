/** Main results about llm_module/tool_call_schema.py: the tool parameter schema compiled
    from a case accepts exactly the argument objects whose `value` the case accepts. */
module SchemaCompilation {
  import opened Wrappers
  import opened JsonValues
  import opened SchemaSemantics
  import opened SchemaWrapping
  import opened SchemaFragment
  import opened SchemaMeaning

  ghost predicate Rooted(schema: Json) {
    Str("#") in CollectRefs(schema)
  }

  ghost function CaseDef(schema: Json): string {
    FreshDefName(Defs(schema), CASE_DEF)
  }

  /** Where root references of a rooted case point after wrapping. */
  ghost function CaseRef(schema: Json): string {
    DEFS_PREFIX + CaseDef(schema)
  }

  /** The schema of the `value` argument. */
  ghost function ValueSchema(schema: Json): Json
    requires schema.Obj?
  {
    if Rooted(schema) then Obj(map["$ref" := Str(CaseRef(schema))]) else Obj(Without(schema.fields))
  }

  ghost function WrappingOf(schema: Json): Recasting {
    Recasting(schema, Wrapped(schema), CaseRef(schema), {}, Rooted(schema))
  }

  ghost function StrippingOf(schema: Json): Recasting {
    Recasting(schema, StripKeyword(schema, "default"), "#", {"default"}, true)
  }

  // ----- The invented definition name ---------------------------------------------------

  lemma PaddedPlain(name: string, suffix: string)
    requires |suffix| <= |name| && name[|name| - |suffix|..] == suffix && PlainToken(suffix)
    requires forall i :: 0 <= i < |name| - |suffix| ==> name[i] == '_'
    ensures PlainToken(name)
  {
    var n := |name| - |suffix|;
    assert name == name[..n] + suffix;
    assert forall c :: c in name[..n] ==> c == '_';
  }

  /** The invented name is unused and can be referenced without escaping. */
  lemma FreshNameReferable(defs: map<string, Json>)
    ensures var name := FreshDefName(defs, CASE_DEF);
            PlainToken(name) && name !in defs && |name| >= |CASE_DEF|
  {
    hide FreshDefName;
    PaddedPlain(FreshDefName(defs, CASE_DEF), CASE_DEF);
  }

  lemma PrefixSplits(prefix: string, rest: string)
    ensures |prefix + rest| == |prefix| + |rest|
    ensures (prefix + rest)[..|prefix|] == prefix && (prefix + rest)[|prefix|..] == rest
  {
  }

  lemma CaseRefInFragment(schema: Json, names: set<string>)
    requires schema.Obj? && Rooted(schema) && CaseDef(schema) in names
    ensures RefInFragment(CaseRef(schema), names) && InFragment(ValueSchema(schema), names, false)
    ensures CaseDef(schema) != "default"
  {
    hide FreshDefName, CollectRefs, KeywordInFragment, RefInFragment;
    FreshNameReferable(Defs(schema));
    CaseRefSplits(schema, names);
    assert forall k :: k in ValueSchema(schema).fields <==> k == "$ref";
    Spellings("$ref");
    RefKeywordInFragment(CaseRef(schema), names);
  }

  lemma CaseRefSplits(schema: Json, names: set<string>)
    requires CaseDef(schema) in names
    ensures RefInFragment(CaseRef(schema), names)
  {
    hide FreshDefName;
    FreshNameReferable(Defs(schema));
    PrefixSplits(DEFS_PREFIX, CaseDef(schema));
  }

  lemma RefKeywordInFragment(ref: string, names: set<string>)
    requires RefInFragment(ref, names)
    ensures KeywordInFragment(Ref, Str(ref), names, false)
  {
    hide RefInFragment;
  }

  // ----- What the wrapper is made of ----------------------------------------------------

  lemma WrappedMembers(schema: Json)
    requires Closed(schema)
    ensures Wrapped(schema).Obj?
    ensures var m := Wrapped(schema).fields;
            && m.Keys - ANNOTATIONS == {"type", "required", "additionalProperties", "properties"}
            && m["type"] == Str("object") && m["required"] == Arr([Str("value")])
            && m["additionalProperties"] == Bool(false)
            && m["properties"] == Obj(map["value" := ValueSchema(schema)])
            && ("$defs" in m ==> m["$defs"].Obj?)
  {
    hide InFragment, CollectRefs, FreshDefName, RewriteRootRefs;
  }

  lemma WrappedDefs(schema: Json)
    requires Closed(schema)
    ensures Defs(Wrapped(schema)) == if !Rooted(schema) then Defs(schema) else
              var rewritten := RewriteRootRefs(schema, CaseRef(schema));
              Defs(schema) + Defs(rewritten) + map[CaseDef(schema) := Obj(Without(rewritten.fields))]
  {
    hide InFragment, CollectRefs, FreshDefName;
  }

  lemma RecastDefs(schema: Json, target: string, dropped: set<string>)
    requires Closed(schema) && dropped <= {"default"}
    ensures Recast(schema, target, dropped).Obj?
    ensures Defs(Recast(schema, target, dropped)).Keys == Defs(schema).Keys
    ensures forall x :: x in Defs(schema) ==>
      Defs(Recast(schema, target, dropped))[x] == Recast(Defs(schema)[x], target, dropped)
  {
    if "$defs" in schema.fields {
      var defs := schema.fields["$defs"];
      var r := Recast(schema, target, dropped);
      assert "$defs" in r.fields && r.fields["$defs"] == Recast(defs, target, dropped);
      forall x | x in Defs(schema) ensures x != "$ref" || defs.fields[x] != Str("#") {
        SchemasAreNotStrings(Defs(schema)[x], Defs(schema).Keys);
      }
    }
  }

  lemma WithoutAnnotations(m: map<string, Json>)
    ensures SameAssertions(Obj(Without(m)), Obj(m))
  {
    assert Without(m) - ANNOTATIONS == m - ANNOTATIONS;
  }

  lemma WithoutInFragment(m: map<string, Json>, names: set<string>)
    requires InFragment(Obj(m), names, true)
    ensures InFragment(Obj(Without(m)), names, false)
  {
    forall k | k in Without(m) ensures KeywordInFragment(KeywordOf(k), m[k], names, false) {
      Spellings(k);
      hide KeywordOf;
      assert KeywordInFragment(KeywordOf(k), m[k], names, true);
    }
  }

  // ----- Wrapping is a valid recasting --------------------------------------------------

  lemma WrappingIsValid(schema: Json)
    requires Closed(schema)
    ensures WrappingOf(schema).Valid()
  {
    hide InFragment, CollectRefs, FreshDefName, Recast, RewriteRootRefs, Wrapped, Resolve;
    if Rooted(schema) {
      CaseRefResolves(schema);
      WrappedDefsRecast(schema);
    } else {
      UnrootedDefsKept(schema);
    }
  }

  lemma UnrootedDefsKept(schema: Json)
    requires Closed(schema) && !Rooted(schema)
    ensures Defs(Wrapped(schema)) == Defs(schema)
    ensures forall x :: x in Defs(schema) ==> Str("#") !in CollectRefs(Defs(schema)[x])
                                              && Defs(schema)[x] == Recast(Defs(schema)[x], CaseRef(schema), {})
  {
    hide InFragment, FreshDefName, Recast, Wrapped;
    WrappedDefs(schema);
    if "$defs" in schema.fields {
      forall x | x in Defs(schema)
        ensures Str("#") !in CollectRefs(Defs(schema)[x])
        ensures Defs(schema)[x] == Recast(Defs(schema)[x], CaseRef(schema), {})
      {
        assert CollectRefs(schema.fields["$defs"]) <= CollectRefs(schema);
        assert CollectRefs(Defs(schema)[x]) <= CollectRefs(schema.fields["$defs"]);
        RecastWithoutRootRefs(Defs(schema)[x], CaseRef(schema));
      }
    }
  }

  lemma WrappedDefsRecast(schema: Json)
    requires Closed(schema) && Rooted(schema)
    ensures Recast(schema, CaseRef(schema), {}).Obj?
    ensures Defs(Wrapped(schema)).Keys == Defs(schema).Keys + {CaseDef(schema)}
    ensures forall x :: x in Defs(schema) ==> Defs(Wrapped(schema))[x] == Recast(Defs(schema)[x], CaseRef(schema), {})
    ensures Defs(Wrapped(schema))[CaseDef(schema)] == Obj(Without(Recast(schema, CaseRef(schema), {}).fields))
  {
    hide InFragment, CollectRefs, FreshDefName, Recast, RewriteRootRefs, Wrapped, Defs, Closed, Without, CaseRef;
    WrappedDefs(schema);
    FreshNameReferable(Defs(schema));
    RewriteIsRecast(schema, CaseRef(schema));
    RecastDefs(schema, CaseRef(schema), {});
    MergedDefs(Defs(schema), Defs(Recast(schema, CaseRef(schema), {})), CaseDef(schema),
               Obj(Without(Recast(schema, CaseRef(schema), {}).fields)));
  }

  /** Definitions overwritten one for one, and one more under an unused name. */
  lemma MergedDefs(defs: map<string, Json>, rewritten: map<string, Json>, name: string, hoisted: Json)
    requires defs.Keys == rewritten.Keys && name !in defs
    ensures var merged := defs + rewritten + map[name := hoisted];
            && merged.Keys == defs.Keys + {name} && merged[name] == hoisted
            && forall x :: x in defs ==> merged[x] == rewritten[x]
  {
  }

  /** The new reference finds the hoisted case, which no older definition shadows. */
  lemma CaseRefResolves(schema: Json)
    requires Closed(schema) && Rooted(schema)
    ensures Resolve(Wrapped(schema), CaseRef(schema)).Some?
    ensures SameAssertions(Resolve(Wrapped(schema), CaseRef(schema)).value, Recast(schema, CaseRef(schema), {}))
  {
    hide InFragment, CollectRefs, FreshDefName, Recast, Wrapped;
    WrappedDefsRecast(schema);
    FreshNameReferable(Defs(schema));
    PrefixSplits(DEFS_PREFIX, CaseDef(schema));
    WithoutAnnotations(Recast(schema, CaseRef(schema), {}).fields);
  }

  // ----- The wrapper is again a closed schema of the fragment ---------------------------

  /** The document's identifier becomes the wrapper's. */
  ghost predicate SameIdentifier(wrapped: Json, schema: Json) {
    && wrapped.Obj? && schema.Obj? && ("$id" in wrapped.fields <==> "$id" in schema.fields)
    && ("$id" in schema.fields ==> wrapped.fields["$id"] == schema.fields["$id"])
  }

  lemma IdentifierMoves(schema: Json)
    requires schema.Obj?
    ensures SameIdentifier(Wrapped(schema), schema)
  {
    hide CollectRefs, FreshDefName;
  }

  /** No reference dangles in a wrapper, which is identified as the document was. */
  lemma WrappedIsClosed(schema: Json)
    requires Closed(schema)
    ensures Closed(Wrapped(schema)) && SameIdentifier(Wrapped(schema), schema)
  {
    var names := Defs(Wrapped(schema)).Keys;
    hide InFragment, CollectRefs, FreshDefName, Wrapped, ValueSchema, SameIdentifier;
    IdentifierMoves(schema);
    WrappedMembers(schema);
    if Rooted(schema) {
      RootedDefsInFragment(schema);
    } else {
      UnrootedDefsInFragment(schema);
    }
    WrapperInFragment(Wrapped(schema), ValueSchema(schema), names);
  }

  lemma UnrootedDefsInFragment(schema: Json)
    requires Closed(schema) && !Rooted(schema)
    ensures Defs(Wrapped(schema)) == Defs(schema)
    ensures InFragment(ValueSchema(schema), Defs(schema).Keys, false)
  {
    hide InFragment, CollectRefs, Wrapped;
    WrappedDefs(schema);
    WithoutInFragment(schema.fields, Defs(schema).Keys);
  }

  lemma RootedDefsInFragment(schema: Json)
    requires Closed(schema) && Rooted(schema)
    ensures var w, names := Wrapped(schema), Defs(Wrapped(schema)).Keys;
            && "default" !in names && InFragment(ValueSchema(schema), names, false)
            && forall x :: x in names ==> InFragment(Defs(w)[x], names, false)
  {
    var before, target := Defs(schema).Keys, CaseRef(schema);
    var w, names := Wrapped(schema), Defs(Wrapped(schema)).Keys;
    hide InFragment, CollectRefs, FreshDefName, RewriteRootRefs, Wrapped, Recast, RefInFragment, ValueSchema;
    WrappedDefsRecast(schema);
    CaseRefInFragment(schema, names);
    RecastInFragment(schema, before, target, names, true);
    WithoutInFragment(Recast(schema, target, {}).fields, names);
    forall x | x in names ensures InFragment(Defs(w)[x], names, false) {
      if x in before {
        RecastInFragment(Defs(schema)[x], before, target, names, false);
      }
    }
  }

  lemma WrapperInFragment(wrapper: Json, inner: Json, names: set<string>)
    requires wrapper.Obj? && InFragment(inner, names, false)
    requires wrapper.fields.Keys - ANNOTATIONS == {"type", "required", "additionalProperties", "properties"}
    requires wrapper.fields["type"] == Str("object") && wrapper.fields["required"] == Arr([Str("value")])
    requires wrapper.fields["additionalProperties"] == Bool(false)
    requires wrapper.fields["properties"] == Obj(map["value" := inner])
    ensures InFragment(wrapper, names, true)
  {
    var m := wrapper.fields;
    WrapperKeywordsInFragment(inner, names);
    hide KeywordInFragment, KeywordOf;
    forall k | k in m ensures KeywordInFragment(KeywordOf(k), m[k], names, true) {
      if k in ANNOTATIONS {
        AnnotationInFragment(k, m[k], names);
      } else {
        assert k in m.Keys - ANNOTATIONS;
      }
    }
  }

  lemma AnnotationInFragment(k: string, w: Json, names: set<string>)
    requires k in ANNOTATIONS
    ensures KeywordInFragment(KeywordOf(k), w, names, true)
  {
    Spellings(k);
    hide KeywordOf;
  }

  lemma WrapperKeywordsInFragment(inner: Json, names: set<string>)
    requires InFragment(inner, names, false)
    ensures KeywordInFragment(KeywordOf("type"), Str("object"), names, true)
    ensures KeywordInFragment(KeywordOf("required"), Arr([Str("value")]), names, true)
    ensures KeywordInFragment(KeywordOf("additionalProperties"), Bool(false), names, true)
    ensures KeywordInFragment(KeywordOf("properties"), Obj(map["value" := inner]), names, true)
  {
    WrapperSpellings();
    hide KeywordOf;
    assert forall p :: p in map["value" := inner] <==> p == "value";
  }

  lemma WrapperSpellings()
    ensures KeywordOf("type") == Type && KeywordOf("required") == Required
    ensures KeywordOf("additionalProperties") == AdditionalProperties && KeywordOf("properties") == Properties
    ensures KeywordOf("$ref") == Ref
  {
  }

  // ----- What the wrapper accepts -------------------------------------------------------

  /** The wrapper without its annotations. */
  function BareWrapper(inner: Json): Json {
    Obj(map["type" := Str("object"), "required" := Arr([Str("value")]), "additionalProperties" := Bool(false),
            "properties" := Obj(map["value" := inner])])
  }

  lemma WrappedIsBare(schema: Json)
    requires Closed(schema)
    ensures SameAssertions(Wrapped(schema), BareWrapper(ValueSchema(schema)))
  {
    hide Wrapped, InFragment, ValueSchema;
    WrappedMembers(schema);
    var a, b := Wrapped(schema).fields - ANNOTATIONS, BareWrapper(ValueSchema(schema)).fields - ANNOTATIONS;
    assert a.Keys == Wrapped(schema).fields.Keys - ANNOTATIONS;
    assert a.Keys == b.Keys;
  }

  lemma BareWrapperMembers(inner: Json)
    ensures ListedProperties(BareWrapper(inner)) == {"value"}
    ensures var m := BareWrapper(inner).fields;
            && (forall k ::
                  k in m <==> k == "type" || k == "required" || k == "additionalProperties" || k == "properties")
            && m["type"] == Str("object") && m["required"] == Arr([Str("value")])
            && m["additionalProperties"] == Bool(false) && m["properties"] == Obj(map["value" := inner])
  {
    assert BareWrapper(inner).fields["properties"].fields.Keys == {"value"};
  }

  lemma BareWrapperAccepts(sem: Assertions, root: Json, inner: Json, instance: Json, fuel: nat, d: bool)
    ensures Accepts(sem, root, BareWrapper(inner), instance, fuel, d)
       <==> instance.Obj? && instance.fields.Keys == {"value"}
            && Accepts(sem, root, inner, instance.fields["value"], fuel, d)
  {
    BareWrapperMembers(inner);
    hide Accepts, KeywordAccepts, KeywordOf, ListedProperties;
    FourKeywordsAccept(sem, root, BareWrapper(inner), instance, fuel, d);
    WrapperKeywords(sem, root, inner, instance, fuel, d);
  }

  lemma FourKeywordsAccept(sem: Assertions, root: Json, s: Json, v: Json, fuel: nat, d: bool)
    requires s.Obj?
    requires forall k :: k in s.fields
              <==> k == "type" || k == "required" || k == "additionalProperties" || k == "properties"
    ensures Accepts(sem, root, s, v, fuel, d)
       <==> && MemberAccepts(sem, root, s, "type", v, fuel, d)
            && MemberAccepts(sem, root, s, "required", v, fuel, d)
            && MemberAccepts(sem, root, s, "additionalProperties", v, fuel, d)
            && MemberAccepts(sem, root, s, "properties", v, fuel, d)
  {
    hide KeywordAccepts, KeywordOf, ListedProperties;
  }

  lemma WrapperKeywords(sem: Assertions, root: Json, inner: Json, instance: Json, fuel: nat, d: bool)
    ensures KeywordAccepts(sem, root, KeywordOf("type"), Str("object"), {"value"}, instance, fuel, d) <==> instance.Obj?
    ensures KeywordAccepts(sem, root, KeywordOf("required"), Arr([Str("value")]), {"value"}, instance, fuel, d)
       <==> (instance.Obj? ==> "value" in instance.fields)
    ensures KeywordAccepts(sem, root, KeywordOf("additionalProperties"), Bool(false), {"value"}, instance, fuel, d)
       <==> (instance.Obj? ==> instance.fields.Keys <= {"value"})
    ensures KeywordAccepts(sem, root, KeywordOf("properties"), Obj(map["value" := inner]), {"value"}, instance, fuel, d)
       <==> (instance.Obj? && "value" in instance.fields ==>
           Accepts(sem, root, inner, instance.fields["value"], fuel, d))
  {
    WrapperSpellings();
    ShapeKeywords(sem, root, instance, fuel, d);
    ClosedToOthers(sem, root, instance, fuel, d);
    ValueProperty(sem, root, inner, instance, fuel, d);
    hide KeywordAccepts, KeywordOf, Accepts;
  }

  lemma ShapeKeywords(sem: Assertions, root: Json, instance: Json, fuel: nat, d: bool)
    ensures KeywordAccepts(sem, root, Type, Str("object"), {"value"}, instance, fuel, d) <==> instance.Obj?
    ensures KeywordAccepts(sem, root, Required, Arr([Str("value")]), {"value"}, instance, fuel, d)
       <==> (instance.Obj? ==> "value" in instance.fields)
  {
    assert Arr([Str("value")]).items[0] == Str("value");
  }

  lemma ClosedToOthers(sem: Assertions, root: Json, instance: Json, fuel: nat, d: bool)
    ensures KeywordAccepts(sem, root, AdditionalProperties, Bool(false), {"value"}, instance, fuel, d)
       <==> (instance.Obj? ==> instance.fields.Keys <= {"value"})
  {
    if instance.Obj? {
      forall v ensures !Accepts(sem, root, Bool(false), v, fuel, d) {}
      hide Accepts;
    }
  }

  lemma ValueProperty(sem: Assertions, root: Json, inner: Json, instance: Json, fuel: nat, d: bool)
    ensures KeywordAccepts(sem, root, Properties, Obj(map["value" := inner]), {"value"}, instance, fuel, d)
       <==> (instance.Obj? && "value" in instance.fields ==>
           Accepts(sem, root, inner, instance.fields["value"], fuel, d))
  {
    hide Accepts;
    assert Obj(map["value" := inner]).fields["value"] == inner;
  }

  /** The wrapper accepts objects whose only member is an acceptable `value`. */
  lemma WrapperAccepts(sem: Assertions, schema: Json, instance: Json, fuel: nat, d: bool)
    requires Closed(schema)
    ensures Accepts(sem, Wrapped(schema), Wrapped(schema), instance, fuel, d)
         <==> instance.Obj? && instance.fields.Keys == {"value"}
              && Accepts(sem, Wrapped(schema), ValueSchema(schema), instance.fields["value"], fuel, d)
  {
    hide Accepts, InFragment, Wrapped, SameAssertions, BareWrapper, ValueSchema;
    WrappedIsBare(schema);
    BareWrapperAccepts(sem, Wrapped(schema), ValueSchema(schema), instance, fuel, d);
    AnnotationsAssertNothing(
      sem, Wrapped(schema), Wrapped(schema), BareWrapper(ValueSchema(schema)), instance, fuel, d);
  }

  lemma OnlyRefAccepts(sem: Assertions, root: Json, ref: string, v: Json, fuel: nat, d: bool)
    requires fuel > 0 && Resolve(root, ref).Some?
    ensures Accepts(sem, root, Obj(map["$ref" := Str(ref)]), v, fuel, d)
         == Accepts(sem, root, Resolve(root, ref).value, v, fuel - 1, d)
  {
    var s := Obj(map["$ref" := Str(ref)]);
    WrapperSpellings();
    RefAccepts(sem, root, ref, ListedProperties(s), v, fuel, d);
    hide KeywordAccepts, KeywordOf, Resolve, ListedProperties;
    assert forall k :: k in s.fields <==> k == "$ref";
  }

  lemma RefAccepts(sem: Assertions, root: Json, ref: string, listed: set<string>, v: Json, fuel: nat, d: bool)
    requires fuel > 0 && Resolve(root, ref).Some?
    ensures KeywordAccepts(sem, root, Ref, Str(ref), listed, v, fuel, d)
         == Accepts(sem, root, Resolve(root, ref).value, v, fuel - 1, d)
  {
    hide Accepts, Resolve;
  }

  // ----- Main results -------------------------------------------------------------------

  /** Fuel the wrapper needs beyond the case schema: the one reference to the hoisted case. */
  ghost function WrappingCost(schema: Json): nat {
    if Rooted(schema) then 1 else 0
  }

  lemma ValuePreserved(sem: Assertions, schema: Json, v: Json, fuel: nat, d: bool)
    requires Closed(schema)
    ensures Accepts(sem, Wrapped(schema), ValueSchema(schema), v, fuel + WrappingCost(schema), d)
       <==> Accepts(sem, schema, schema, v, fuel, d)
  {
    hide Accepts, InFragment, Wrapped, RewriteRootRefs, FreshDefName, CollectRefs, Recast, Resolve;
    var w, c := Wrapped(schema), WrappingOf(schema);
    WrappingIsValid(schema);
    RecastPreserves(sem, c, schema, v, fuel, d);
    if Rooted(schema) {
      CaseRefResolves(schema);
      OnlyRefAccepts(sem, w, CaseRef(schema), v, fuel + 1, d);
      AnnotationsAssertNothing(sem, w, Resolve(w, CaseRef(schema)).value, c.Of(schema), v, fuel, d);
    } else {
      RecastWithoutRootRefs(schema, CaseRef(schema));
      WithoutAnnotations(schema.fields);
      AnnotationsAssertNothing(sem, w, Obj(Without(schema.fields)), schema, v, fuel, d);
    }
  }

  /** Wrapping: the wrapper accepts exactly the objects `{"value": v}` whose `v` the case accepts,
      through root references and definitions, at every depth of reference chasing. */
  lemma WrappingPreservesMeaning(sem: Assertions, schema: Json, instance: Json, fuel: nat, d: bool)
    requires Closed(schema)
    ensures Accepts(sem, Wrapped(schema), Wrapped(schema), instance, fuel + WrappingCost(schema), d)
       <==> instance.Obj? && instance.fields.Keys == {"value"}
            && Accepts(sem, schema, schema, instance.fields["value"], fuel, d)
  {
    hide Accepts, Closed, Wrapped, WrappingCost;
    WrapperAccepts(sem, schema, instance, fuel + WrappingCost(schema), d);
    if instance.Obj? && instance.fields.Keys == {"value"} {
      ValuePreserved(sem, schema, instance.fields["value"], fuel, d);
    }
  }

  /** Stripping `default` keywords changes no verdict. */
  lemma StrippingPreservesMeaning(sem: Assertions, schema: Json, v: Json, fuel: nat, d: bool)
    requires Closed(schema)
    ensures var stripped := StripKeyword(schema, "default");
            Accepts(sem, stripped, stripped, v, fuel, d) == Accepts(sem, schema, schema, v, fuel, d)
  {
    hide Accepts, InFragment, Recast, StripKeyword;
    StripIsRecast(schema);
    RecastDefs(schema, "#", {"default"});
    RecastPreserves(sem, StrippingOf(schema), schema, v, fuel, d);
  }

  /** The schema that is sent accepts exactly the objects `{"value": v}` whose `v` the case accepts. */
  lemma CompiledCaseAcceptsExactly(sem: Assertions, schema: Json, instance: Json, fuel: nat, d: bool)
    requires Closed(schema)
    ensures Accepts(sem, CompiledCase(schema), CompiledCase(schema), instance, fuel + WrappingCost(schema), d)
       <==> instance.Obj? && instance.fields.Keys == {"value"}
            && Accepts(sem, schema, schema, instance.fields["value"], fuel, d)
  {
    hide Accepts, Closed, Wrapped, StripKeyword, WrappingCost;
    WrappedIsClosed(schema);
    StrippingPreservesMeaning(sem, Wrapped(schema), instance, fuel + WrappingCost(schema), d);
    WrappingPreservesMeaning(sem, schema, instance, fuel, d);
  }

  /** So the verdict on an argument object is the case's own verdict on its `value`: certainly
      valid, certainly invalid, or undecided because the references loop for ever. */
  lemma CompiledCaseVerdict(sem: Assertions, schema: Json, v: Json)
    requires Closed(schema)
    ensures Valid(sem, CompiledCase(schema), Obj(map["value" := v])) <==> Valid(sem, schema, v)
    ensures Invalid(sem, CompiledCase(schema), Obj(map["value" := v])) <==> Invalid(sem, schema, v)
  {
    hide Accepts, Closed, CompiledCase, WrappingCost;
    var c, cost, instance := CompiledCase(schema), WrappingCost(schema), Obj(map["value" := v]);
    assert instance.fields.Keys == {"value"} && instance.fields["value"] == v;
    if Valid(sem, c, instance) {
      var n: nat :| Accepts(sem, c, c, instance, n, false);
      FuelMonotone(sem, c, c, instance, n, false, n + cost, false);
      CompiledCaseAcceptsExactly(sem, schema, instance, n, false);
    }
    if Invalid(sem, c, instance) {
      var n: nat :| !Accepts(sem, c, c, instance, n, true);
      FuelMonotone(sem, c, c, instance, n + cost, true, n, true);
      CompiledCaseAcceptsExactly(sem, schema, instance, n, true);
    }
    if Valid(sem, schema, v) {
      var n: nat :| Accepts(sem, schema, schema, v, n, false);
      CompiledCaseAcceptsExactly(sem, schema, instance, n, false);
    }
    if Invalid(sem, schema, v) {
      var n: nat :| !Accepts(sem, schema, schema, v, n, true);
      CompiledCaseAcceptsExactly(sem, schema, instance, n, true);
    }
  }
}
