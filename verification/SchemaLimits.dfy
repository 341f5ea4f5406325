/** Where the schema rewriting of llm_module/tool_call_schema.py does change a meaning. */
module SchemaLimits {
  import opened Wrappers
  import opened JsonValues
  import opened SchemaSemantics
  import opened SchemaWrapping
  import opened SchemaFragment
  import opened SchemaCompilation

  predicate Lacks(j: Json, key: string) {
    match j
    case Obj(m) => key !in m && forall k | k in m :: Lacks(m[k], key)
    case Arr(items) => forall i | 0 <= i < |items| :: Lacks(items[i], key)
    case _ => true
  }

  lemma {:induction false} StripLeavesNone(j: Json, key: string)
    ensures Lacks(StripKeyword(j, key), key)
    ensures Lacks(j, key) ==> StripKeyword(j, key) == j
  {
    match j
    case Obj(m) => forall k | k in m { StripLeavesNone(m[k], key); }
    case Arr(items) => forall i | 0 <= i < |items| { StripLeavesNone(items[i], key); }
    case _ =>
  }

  lemma {:induction false} RewriteLeavesNone(j: Json, target: string)
    requires target != "#"
    ensures Str("#") !in CollectRefs(RewriteRootRefs(j, target))
  {
    match j
    case Obj(m) => forall k | k in m { RewriteLeavesNone(m[k], target); }
    case Arr(items) => forall i | 0 <= i < |items| { RewriteLeavesNone(items[i], target); }
    case _ =>
  }

  /** An `enum` admits the same instances after stripping iff none of its literals holds a
      member named `default`. */
  lemma EnumSurvivesStrippingIff(literals: seq<Json>)
    ensures (forall v :: v in literals <==> v in StripKeyword(Arr(literals), "default").items)
       <==> forall i :: 0 <= i < |literals| ==> Lacks(literals[i], "default")
  {
    var stripped := StripKeyword(Arr(literals), "default").items;
    if forall v :: v in literals <==> v in stripped {
      forall i | 0 <= i < |literals| ensures Lacks(literals[i], "default") {
        assert literals[i] in stripped;
        var j :| 0 <= j < |stripped| && stripped[j] == literals[i];
        StripLeavesNone(literals[j], "default");
      }
    }
    if forall i :: 0 <= i < |literals| ==> Lacks(literals[i], "default") {
      forall i | 0 <= i < |literals| ensures stripped[i] == literals[i] {
        StripLeavesNone(literals[i], "default");
      }
      assert stripped == literals;
    }
  }

  /** An `enum` admits the same instances after the root references are redirected iff none of
      its literals contains `"$ref": "#"`. */
  lemma EnumSurvivesRewritingIff(literals: seq<Json>, target: string)
    requires target != "#"
    ensures (forall v :: v in literals <==> v in RewriteRootRefs(Arr(literals), target).items)
       <==> forall i :: 0 <= i < |literals| ==> Str("#") !in CollectRefs(literals[i])
  {
    var rewritten := RewriteRootRefs(Arr(literals), target).items;
    if forall v :: v in literals <==> v in rewritten {
      forall i | 0 <= i < |literals| ensures Str("#") !in CollectRefs(literals[i]) {
        assert literals[i] in rewritten;
        var j :| 0 <= j < |rewritten| && rewritten[j] == literals[i];
        RewriteLeavesNone(literals[j], target);
      }
    }
    if forall i :: 0 <= i < |literals| ==> Str("#") !in CollectRefs(literals[i]) {
      forall i | 0 <= i < |literals| ensures rewritten[i] == literals[i] {
        RewriteIsRecast(literals[i], target);
        RecastWithoutRootRefs(literals[i], target);
      }
      assert rewritten == literals;
    }
  }

  /** A forbidden property stays forbidden in the schema that is sent iff it is not named `default`. */
  lemma ForbiddenPropertySurvivesIff(sem: Assertions, p: string, v: Json, fuel: nat)
    ensures var case_ := Obj(map["properties" := Obj(map[p := Bool(false)])]);
            && !Accepts(sem, case_, case_, Obj(map[p := v]), fuel, false)
            && !Accepts(sem, case_, case_, Obj(map[p := v]), fuel, true)
            && (Accepts(sem, StripKeyword(case_, "default"), StripKeyword(case_, "default"),
                        Obj(map[p := v]), fuel, false)
                <==> p == "default")
  {
    var props := Obj(map[p := Bool(false)]);
    var case_ := Obj(map["properties" := props]);
    var instance := Obj(map[p := v]);
    var stripped := StripKeyword(case_, "default");
    assert props.fields[p] == Bool(false) && p in instance.fields;
    assert case_.fields["properties"] == props;
    assert StripKeyword(Bool(false), "default") == Bool(false);
    assert stripped.fields.Keys == {"properties"};
    assert stripped.fields["properties"] == StripKeyword(props, "default");
    if p != "default" {
      assert p in stripped.fields["properties"].fields && stripped.fields["properties"].fields[p] == Bool(false);
    } else {
      assert stripped.fields["properties"].fields == map[];
    }
    OnlyProperties(sem, case_, case_, instance, fuel, false);
    OnlyProperties(sem, case_, case_, instance, fuel, true);
    OnlyProperties(sem, stripped, stripped, instance, fuel, false);
  }

  lemma OnlyProperties(sem: Assertions, root: Json, s: Json, v: Json, fuel: nat, d: bool)
    requires s.Obj? && s.fields.Keys == {"properties"} && s.fields["properties"].Obj? && v.Obj?
    ensures Accepts(sem, root, s, v, fuel, d)
       <==> forall p :: p in s.fields["properties"].fields && p in v.fields
              ==> Accepts(sem, root, s.fields["properties"].fields[p], v.fields[p], fuel, d)
  {
    assert KeywordOf("properties") == Properties;
    hide KeywordOf, ListedProperties;
    PropertiesAccept(sem, root, s.fields["properties"], ListedProperties(s), v, fuel, d);
    hide KeywordAccepts;
    assert forall k :: k in s.fields <==> k == "properties";
  }

  lemma PropertiesAccept(sem: Assertions, root: Json, w: Json, listed: set<string>, v: Json, fuel: nat, d: bool)
    requires w.Obj? && v.Obj?
    ensures KeywordAccepts(sem, root, Properties, w, listed, v, fuel, d)
       <==> forall p :: p in w.fields && p in v.fields ==> Accepts(sem, root, w.fields[p], v.fields[p], fuel, d)
  {
    hide Accepts;
  }

  /** An object schema that says no more than which properties it lists and whether it is closed. */
  function PropertySchema(w: map<string, Json>, additional: Option<bool>): Json {
    Obj(map["properties" := Obj(w)]
        + if additional.Some? then map["additionalProperties" := Bool(additional.value)] else map[])
  }

  /** Unlisted properties are admitted. */
  predicate Open(additional: Option<bool>) {
    additional != Some(false)
  }

  lemma PropertySchemaMembers(w: map<string, Json>, additional: Option<bool>)
    ensures var s := PropertySchema(w, additional);
            && s.Obj?
            && (forall k :: k in s.fields <==> k == "properties" || (additional.Some? && k == "additionalProperties"))
            && s.fields["properties"] == Obj(w) && ListedProperties(s) == w.Keys
            && (additional.Some? ==> s.fields["additionalProperties"] == Bool(additional.value))
  {
  }

  lemma PropertyKeywords(sem: Assertions, root: Json, s: Json, closing: bool, v: Json, fuel: nat, d: bool)
    requires s.Obj?
    requires forall k :: k in s.fields <==> k == "properties" || (closing && k == "additionalProperties")
    ensures Accepts(sem, root, s, v, fuel, d)
       <==> && MemberAccepts(sem, root, s, "properties", v, fuel, d)
            && (closing ==> MemberAccepts(sem, root, s, "additionalProperties", v, fuel, d))
  {
    hide KeywordAccepts, KeywordOf, ListedProperties;
  }

  lemma PropertySchemaAccepts(
      sem: Assertions, root: Json, w: map<string, Json>, additional: Option<bool>, v: Json, fuel: nat, d: bool)
    requires v.Obj?
    ensures Accepts(sem, root, PropertySchema(w, additional), v, fuel, d)
       <==> forall p :: p in v.fields ==>
              if p in w then Accepts(sem, root, w[p], v.fields[p], fuel, d) else Open(additional)
  {
    PropertySpellings();
    hide ListedProperties, KeywordAccepts, KeywordOf, Accepts;
    var s := PropertySchema(w, additional);
    PropertySchemaMembers(w, additional);
    PropertyKeywords(sem, root, s, additional.Some?, v, fuel, d);
    PropertiesAccept(sem, root, Obj(w), w.Keys, v, fuel, d);
    BooleanAdditional(sem, root, w.Keys, additional, v, fuel, d);
    hide PropertySchema;
  }

  lemma PropertySpellings()
    ensures KeywordOf("properties") == Properties && KeywordOf("additionalProperties") == AdditionalProperties
  {
  }

  lemma BooleanAdditional(
      sem: Assertions, root: Json, listed: set<string>, additional: Option<bool>, v: Json, fuel: nat, d: bool)
    requires v.Obj?
    ensures additional.Some? ==>
              (KeywordAccepts(sem, root, AdditionalProperties, Bool(additional.value), listed, v, fuel, d)
               <==> forall p :: p in v.fields && p !in listed ==> Open(additional))
  {
  }

  function StripAll(w: map<string, Json>): map<string, Json> {
    map p | p in w && p != "default" :: StripKeyword(w[p], "default")
  }

  lemma StripMember(m: map<string, Json>, k: string)
    ensures StripKeyword(Obj(m), "default").Obj?
    ensures k in StripKeyword(Obj(m), "default").fields <==> k in m && k != "default"
    ensures k in m && k != "default" ==> StripKeyword(Obj(m), "default").fields[k] == StripKeyword(m[k], "default")
  {
  }

  lemma StripProperties(w: map<string, Json>)
    ensures StripKeyword(Obj(w), "default") == Obj(StripAll(w))
  {
  }

  lemma PropertySchemaStripped(w: map<string, Json>, additional: Option<bool>)
    ensures StripKeyword(PropertySchema(w, additional), "default") == PropertySchema(StripAll(w), additional)
  {
    var s := PropertySchema(w, additional);
    StripProperties(w);
    assert forall b :: StripKeyword(Bool(b), "default") == Bool(b);
    PropertySchemaMembers(w, additional);
    PropertySchemaMembers(StripAll(w), additional);
    hide StripKeyword, StripAll, PropertySchema, ListedProperties;
    StripMember(s.fields, "properties");
    StripMember(s.fields, "additionalProperties");
    forall k ensures k in StripKeyword(s, "default").fields <==> k in s.fields {
      StripMember(s.fields, k);
    }
    assert StripKeyword(s, "default").fields == PropertySchema(StripAll(w), additional).fields;
  }

  /** `a`, read in the document `root`, accepts what `b` accepts, read in `sent`. */
  ghost predicate SameMeaning(sem: Assertions, root: Json, a: Json, sent: Json, b: Json, fuel: nat, d: bool) {
    forall v :: Accepts(sem, root, a, v, fuel, d) == Accepts(sem, sent, b, v, fuel, d)
  }

  /** What stripping asks of the property `default`: nothing if it is not listed, and otherwise a
      schema that says of every value what an unlisted property is told. */
  ghost predicate DefaultDispensable(
      sem: Assertions, root: Json, w: map<string, Json>, additional: Option<bool>, fuel: nat, d: bool)
  {
    "default" in w ==> forall v :: Accepts(sem, root, w["default"], v, fuel, d) == Open(additional)
  }

  /** Every other listed property keeps its meaning. */
  ghost predicate OthersSurvive(sem: Assertions, root: Json, sent: Json, w: map<string, Json>, fuel: nat, d: bool) {
    forall p :: p in w && p != "default" ==>
      SameMeaning(sem, root, w[p], sent, StripKeyword(w[p], "default"), fuel, d)
  }

  /** Listed properties keep their meaning under stripping iff each of them does and `default` is not
      listed, or is listed with a schema that accepts everything where the object is open and nothing
      where it is closed. They are read in the document `root` before and in `sent` after, whatever
      stripping made of the one in the other. */
  lemma PropertiesSurviveStrippingIff(
      sem: Assertions, root: Json, sent: Json, w: map<string, Json>, additional: Option<bool>, fuel: nat, d: bool)
    ensures SameMeaning(
              sem, root, PropertySchema(w, additional), sent, StripKeyword(PropertySchema(w, additional), "default"),
              fuel, d)
       <==> OthersSurvive(sem, root, sent, w, fuel, d) && DefaultDispensable(sem, root, w, additional, fuel, d)
  {
    PropertySchemaStripped(w, additional);
    hide PropertySchema, StripKeyword, StripAll, SameMeaning, OthersSurvive, DefaultDispensable;
    if SameMeaning(sem, root, PropertySchema(w, additional), sent, PropertySchema(StripAll(w), additional), fuel, d) {
      EachPropertySurvives(sem, root, sent, w, additional, fuel, d);
    }
    if OthersSurvive(sem, root, sent, w, fuel, d) && DefaultDispensable(sem, root, w, additional, fuel, d) {
      AllPropertiesSurvive(sem, root, sent, w, additional, fuel, d);
    }
  }

  lemma EachPropertySurvives(
      sem: Assertions, root: Json, sent: Json, w: map<string, Json>, additional: Option<bool>, fuel: nat, d: bool)
    requires SameMeaning(
               sem, root, PropertySchema(w, additional), sent, PropertySchema(StripAll(w), additional), fuel, d)
    ensures OthersSurvive(sem, root, sent, w, fuel, d) && DefaultDispensable(sem, root, w, additional, fuel, d)
  {
    hide Accepts, StripKeyword, PropertySchema;
    forall p, v | p in w
      ensures Accepts(sem, root, w[p], v, fuel, d)
           == if p == "default" then Open(additional) else Accepts(sem, sent, StripKeyword(w[p], "default"), v, fuel, d)
    {
      SinglePropertyAccepts(sem, root, w, additional, p, v, fuel, d);
      SinglePropertyAccepts(sem, sent, StripAll(w), additional, p, v, fuel, d);
    }
  }

  lemma AllPropertiesSurvive(
      sem: Assertions, root: Json, sent: Json, w: map<string, Json>, additional: Option<bool>, fuel: nat, d: bool)
    requires OthersSurvive(sem, root, sent, w, fuel, d) && DefaultDispensable(sem, root, w, additional, fuel, d)
    ensures SameMeaning(
              sem, root, PropertySchema(w, additional), sent, PropertySchema(StripAll(w), additional), fuel, d)
  {
    hide Accepts, PropertySchema, StripAll, OthersSurvive, DefaultDispensable;
    forall v {
      StrippedPropertiesAgree(sem, root, sent, w, additional, v, fuel, d);
    }
  }

  lemma SinglePropertyAccepts(
      sem: Assertions, root: Json, w: map<string, Json>, additional: Option<bool>, p: string, v: Json, fuel: nat,
      d: bool)
    ensures Accepts(sem, root, PropertySchema(w, additional), Obj(map[p := v]), fuel, d)
       <==> if p in w then Accepts(sem, root, w[p], v, fuel, d) else Open(additional)
  {
    PropertySchemaAccepts(sem, root, w, additional, Obj(map[p := v]), fuel, d);
    hide PropertySchema, Accepts;
    assert p in Obj(map[p := v]).fields && Obj(map[p := v]).fields[p] == v;
  }

  lemma StrippedPropertyAgrees(
      sem: Assertions, root: Json, sent: Json, w: map<string, Json>, additional: Option<bool>, p: string, u: Json,
      fuel: nat, d: bool)
    requires OthersSurvive(sem, root, sent, w, fuel, d)
    requires DefaultDispensable(sem, root, w, additional, fuel, d)
    ensures (if p in w then Accepts(sem, root, w[p], u, fuel, d) else Open(additional))
         == (if p in StripAll(w) then Accepts(sem, sent, StripAll(w)[p], u, fuel, d) else Open(additional))
  {
    hide Accepts, StripKeyword;
  }

  lemma StrippedPropertiesAgree(
      sem: Assertions, root: Json, sent: Json, w: map<string, Json>, additional: Option<bool>, v: Json, fuel: nat,
      d: bool)
    requires OthersSurvive(sem, root, sent, w, fuel, d)
    requires DefaultDispensable(sem, root, w, additional, fuel, d)
    ensures Accepts(sem, root, PropertySchema(w, additional), v, fuel, d)
         == Accepts(sem, sent, PropertySchema(StripAll(w), additional), v, fuel, d)
  {
    hide PropertySchema, Accepts, StripKeyword, Open, OthersSurvive, DefaultDispensable, StripAll;
    if v.Obj? {
      PropertySchemaAccepts(sem, root, w, additional, v, fuel, d);
      PropertySchemaAccepts(sem, sent, StripAll(w), additional, v, fuel, d);
      forall p | p in v.fields
        ensures (if p in w then Accepts(sem, root, w[p], v.fields[p], fuel, d) else Open(additional))
             == (if p in StripAll(w) then Accepts(sem, sent, StripAll(w)[p], v.fields[p], fuel, d)
                 else Open(additional))
      {
        StrippedPropertyAgrees(sem, root, sent, w, additional, p, v.fields[p], fuel, d);
      }
    } else {
      NonObjectsPass(sem, root, w, additional, v, fuel, d);
      NonObjectsPass(sem, sent, StripAll(w), additional, v, fuel, d);
    }
  }

  lemma NonObjectsPass(
      sem: Assertions, root: Json, w: map<string, Json>, additional: Option<bool>, v: Json, fuel: nat, d: bool)
    requires !v.Obj?
    ensures Accepts(sem, root, PropertySchema(w, additional), v, fuel, d)
  {
    PropertySpellings();
    PropertySchemaMembers(w, additional);
    hide PropertySchema, KeywordOf, ListedProperties;
    PropertyKeywords(sem, root, PropertySchema(w, additional), additional.Some?, v, fuel, d);
  }

  // ----- One schema read in two documents ---------------------------------------------------------

  /** Two documents accept alike. */
  ghost predicate SameDocument(sem: Assertions, a: Json, b: Json, fuel: nat, d: bool) {
    forall v :: Accepts(sem, a, a, v, fuel, d) == Accepts(sem, b, b, v, fuel, d)
  }

  /** A reference finds something in both documents, that accepts alike while fuel lasts, or in neither. */
  ghost predicate SameReferent(sem: Assertions, a: Json, b: Json, ref: string, fuel: nat) {
    && Resolve(a, ref).Some? == Resolve(b, ref).Some?
    && (Resolve(a, ref).Some? ==> forall f: nat, d :: f < fuel ==>
          SameMeaning(sem, a, Resolve(a, ref).value, b, Resolve(b, ref).value, f, d))
  }

  ghost predicate SameReferents(sem: Assertions, a: Json, b: Json, fuel: nat) {
    forall ref :: SameReferent(sem, a, b, ref, fuel)
  }

  /** What a schema means in a document depends only on what its references find there. */
  lemma {:induction false} ReadAlike(sem: Assertions, a: Json, b: Json, s: Json, v: Json, fuel: nat, d: bool)
    requires SameReferents(sem, a, b, fuel)
    ensures Accepts(sem, a, s, v, fuel, d) == Accepts(sem, b, s, v, fuel, d)
    decreases s, 0
  {
    hide KeywordAccepts, KeywordOf, ListedProperties, SameReferents;
    if s.Obj? {
      forall k | k in s.fields
        ensures KeywordAccepts(sem, a, KeywordOf(k), s.fields[k], ListedProperties(s), v, fuel, d)
             == KeywordAccepts(sem, b, KeywordOf(k), s.fields[k], ListedProperties(s), v, fuel, d)
      {
        KeywordReadAlike(sem, a, b, KeywordOf(k), s.fields[k], ListedProperties(s), v, fuel, d);
      }
    }
  }

  lemma {:induction false} KeywordReadAlike(
      sem: Assertions, a: Json, b: Json, k: Keyword, w: Json, listed: set<string>, v: Json, fuel: nat, d: bool)
    requires SameReferents(sem, a, b, fuel)
    ensures KeywordAccepts(sem, a, k, w, listed, v, fuel, d) == KeywordAccepts(sem, b, k, w, listed, v, fuel, d)
    decreases w, 2
  {
    hide KeywordAccepts, SameReferents;
    match k
    case Ref => ReferenceReadAlike(sem, a, b, w, listed, v, fuel, d);
    case Not => NotReadAlike(sem, a, b, w, listed, v, fuel, d);
    case Properties => PropertiesReadAlike(sem, a, b, w, listed, v, fuel, d);
    case AdditionalProperties => OthersReadAlike(sem, a, b, w, listed, v, fuel, d);
    case Items => ItemsReadAlike(sem, a, b, w, listed, v, fuel, d);
    case AnyOf | AllOf | OneOf => ListReadAlike(sem, a, b, k, w, listed, v, fuel, d);
    case _ => AssertsIgnoreFuel(sem, a, b, k, w, listed, v, fuel, d, fuel, d);
  }

  lemma {:induction false} NotReadAlike(
      sem: Assertions, a: Json, b: Json, w: Json, listed: set<string>, v: Json, fuel: nat, d: bool)
    requires SameReferents(sem, a, b, fuel)
    ensures KeywordAccepts(sem, a, Not, w, listed, v, fuel, d) == KeywordAccepts(sem, b, Not, w, listed, v, fuel, d)
    decreases w, 1
  {
    hide Accepts, SameReferents;
    ReadAlike(sem, a, b, w, v, fuel, !d);
  }

  lemma {:induction false} PropertiesReadAlike(
      sem: Assertions, a: Json, b: Json, w: Json, listed: set<string>, v: Json, fuel: nat, d: bool)
    requires SameReferents(sem, a, b, fuel)
    ensures KeywordAccepts(sem, a, Properties, w, listed, v, fuel, d)
         == KeywordAccepts(sem, b, Properties, w, listed, v, fuel, d)
    decreases w, 1
  {
    hide Accepts, SameReferents;
    if v.Obj? && w.Obj? {
      forall p | p in w.fields && p in v.fields { ReadAlike(sem, a, b, w.fields[p], v.fields[p], fuel, d); }
    }
  }

  lemma {:induction false} OthersReadAlike(
      sem: Assertions, a: Json, b: Json, w: Json, listed: set<string>, v: Json, fuel: nat, d: bool)
    requires SameReferents(sem, a, b, fuel)
    ensures KeywordAccepts(sem, a, AdditionalProperties, w, listed, v, fuel, d)
         == KeywordAccepts(sem, b, AdditionalProperties, w, listed, v, fuel, d)
    decreases w, 1
  {
    hide Accepts, SameReferents;
    if v.Obj? {
      forall p | p in v.fields { ReadAlike(sem, a, b, w, v.fields[p], fuel, d); }
    }
  }

  lemma {:induction false} ItemsReadAlike(
      sem: Assertions, a: Json, b: Json, w: Json, listed: set<string>, v: Json, fuel: nat, d: bool)
    requires SameReferents(sem, a, b, fuel)
    ensures KeywordAccepts(sem, a, Items, w, listed, v, fuel, d) == KeywordAccepts(sem, b, Items, w, listed, v, fuel, d)
    decreases w, 1
  {
    hide Accepts, SameReferents;
    if v.Arr? {
      forall i | 0 <= i < |v.items| { ReadAlike(sem, a, b, w, v.items[i], fuel, d); }
    }
  }

  lemma {:induction false} ListReadAlike(
      sem: Assertions, a: Json, b: Json, k: Keyword, w: Json, listed: set<string>, v: Json, fuel: nat, d: bool)
    requires SameReferents(sem, a, b, fuel) && (k.AnyOf? || k.AllOf? || k.OneOf?)
    ensures KeywordAccepts(sem, a, k, w, listed, v, fuel, d) == KeywordAccepts(sem, b, k, w, listed, v, fuel, d)
    decreases w, 1
  {
    hide Accepts, SameReferents;
    if w.Arr? {
      forall i, e | 0 <= i < |w.items|
        ensures Accepts(sem, a, w.items[i], v, fuel, e) == Accepts(sem, b, w.items[i], v, fuel, e)
      {
        ReadAlike(sem, a, b, w.items[i], v, fuel, e);
      }
    }
  }

  lemma ReferenceReadAlike(
      sem: Assertions, a: Json, b: Json, w: Json, listed: set<string>, v: Json, fuel: nat, d: bool)
    requires SameReferents(sem, a, b, fuel)
    ensures KeywordAccepts(sem, a, Ref, w, listed, v, fuel, d) == KeywordAccepts(sem, b, Ref, w, listed, v, fuel, d)
  {
    hide Accepts, Resolve, KeywordAccepts, SameReferents;
    ReferenceMeaning(sem, a, w, listed, v, fuel, d);
    ReferenceMeaning(sem, b, w, listed, v, fuel, d);
    if w.Str? {
      ReferentReadAlike(sem, a, b, w.s, v, fuel, d);
    }
  }

  lemma ReferenceMeaning(sem: Assertions, root: Json, w: Json, listed: set<string>, v: Json, fuel: nat, d: bool)
    ensures KeywordAccepts(sem, root, Ref, w, listed, v, fuel, d)
       <==> && w.Str? && Resolve(root, w.s).Some?
            && if fuel == 0 then d else Accepts(sem, root, Resolve(root, w.s).value, v, fuel - 1, d)
  {
    hide Accepts, Resolve;
  }

  lemma ReferentReadAlike(sem: Assertions, a: Json, b: Json, ref: string, v: Json, fuel: nat, d: bool)
    requires SameReferents(sem, a, b, fuel)
    ensures Resolve(a, ref).Some? == Resolve(b, ref).Some?
    ensures Resolve(a, ref).Some? && fuel > 0 ==>
              Accepts(sem, a, Resolve(a, ref).value, v, fuel - 1, d)
              == Accepts(sem, b, Resolve(b, ref).value, v, fuel - 1, d)
  {
    hide Accepts, Resolve;
    assert SameReferent(sem, a, b, ref, fuel);
    hide SameReferents;
    if fuel > 0 && Resolve(a, ref).Some? {
      assert SameMeaning(sem, a, Resolve(a, ref).value, b, Resolve(b, ref).value, fuel - 1, d);
    }
  }

  /** Without definitions only the root is referred to. */
  lemma RootsAreReferents(sem: Assertions, a: Json, b: Json, fuel: nat)
    requires Defs(a) == map[] && Defs(b) == map[]
    requires forall f: nat, d :: f < fuel ==> SameDocument(sem, a, b, f, d)
    ensures SameReferents(sem, a, b, fuel)
  {
    hide Accepts;
    forall ref ensures SameReferent(sem, a, b, ref, fuel) {
      if ref == "#" {
        forall f: nat, d | f < fuel ensures SameMeaning(sem, a, a, b, b, f, d) {
          assert SameDocument(sem, a, b, f, d);
        }
      }
    }
  }

  lemma PropertySchemaDefinesNothing(w: map<string, Json>, additional: Option<bool>)
    ensures Defs(PropertySchema(w, additional)) == map[]
    ensures Defs(StripKeyword(PropertySchema(w, additional), "default")) == map[]
  {
    PropertySchemaStripped(w, additional);
    PropertySchemaMembers(w, additional);
    PropertySchemaMembers(StripAll(w), additional);
    hide PropertySchema, StripAll, StripKeyword;
  }

  /** Up to `fuel` references deep the document keeps its meaning under stripping. */
  ghost predicate SurvivesUpTo(sem: Assertions, s: Json, fuel: nat) {
    forall f: nat, d :: f <= fuel ==> SameDocument(sem, s, StripKeyword(s, "default"), f, d)
  }

  ghost predicate DispensableUpTo(
      sem: Assertions, root: Json, w: map<string, Json>, additional: Option<bool>, fuel: nat)
  {
    forall f: nat, d :: f <= fuel ==> DefaultDispensable(sem, root, w, additional, f, d)
  }

  lemma ListedDefaultStep(sem: Assertions, w: map<string, Json>, additional: Option<bool>, fuel: nat, d: bool)
    requires forall p :: p in w && p != "default" ==> Lacks(w[p], "default")
    requires fuel > 0 ==> SurvivesUpTo(sem, PropertySchema(w, additional), fuel - 1)
    ensures SameDocument(
              sem, PropertySchema(w, additional), StripKeyword(PropertySchema(w, additional), "default"), fuel, d)
       <==> DefaultDispensable(sem, PropertySchema(w, additional), w, additional, fuel, d)
  {
    var s := PropertySchema(w, additional);
    var sent := StripKeyword(s, "default");
    PropertySchemaDefinesNothing(w, additional);
    PropertiesSurviveStrippingIff(sem, s, sent, w, additional, fuel, d);
    hide PropertySchema, Accepts, StripKeyword, DefaultDispensable, Lacks, SameReferents;
    RootsAreReferents(sem, s, sent, fuel);
    forall p | p in w && p != "default"
      ensures SameMeaning(sem, s, w[p], sent, StripKeyword(w[p], "default"), fuel, d)
    {
      StripLeavesNone(w[p], "default");
      forall v { ReadAlike(sem, s, sent, w[p], v, fuel, d); }
    }
  }

  /** So a document that lists properties, with no `default` below the others, keeps its meaning,
      however deep its references are followed, iff `default` may be dispensed with as deep. */
  lemma {:induction false} ListedDefaultSurvivesIff(
      sem: Assertions, w: map<string, Json>, additional: Option<bool>, fuel: nat)
    requires forall p :: p in w && p != "default" ==> Lacks(w[p], "default")
    ensures SurvivesUpTo(sem, PropertySchema(w, additional), fuel)
       <==> DispensableUpTo(sem, PropertySchema(w, additional), w, additional, fuel)
  {
    hide PropertySchema, StripKeyword, SameDocument, DefaultDispensable, Lacks;
    var s := PropertySchema(w, additional);
    if fuel > 0 {
      ListedDefaultSurvivesIff(sem, w, additional, fuel - 1);
    }
    if fuel > 0 ==> SurvivesUpTo(sem, s, fuel - 1) {
      ListedDefaultStep(sem, w, additional, fuel, false);
      ListedDefaultStep(sem, w, additional, fuel, true);
    }
  }

  // ----- Definitions ------------------------------------------------------------------------------

  /** A document that is one reference to its one definition. */
  function ReferenceTo(x: string, definition: Json): Json {
    Obj(map["$ref" := Str(DEFS_PREFIX + x), "$defs" := Obj(map[x := definition])])
  }

  lemma StrippedReference(x: string, definition: Json)
    ensures StripKeyword(ReferenceTo(x, definition), "default").Obj?
    ensures var m := StripKeyword(ReferenceTo(x, definition), "default").fields;
            && (forall k :: k in m <==> k == "$ref" || k == "$defs")
            && m["$ref"] == Str(DEFS_PREFIX + x) && m["$defs"].Obj?
            && (forall k :: k in m["$defs"].fields <==> k == x && x != "default")
            && (x != "default" ==> m["$defs"].fields[x] == StripKeyword(definition, "default"))
  {
    var s := ReferenceTo(x, definition);
    assert StripKeyword(Str(DEFS_PREFIX + x), "default") == Str(DEFS_PREFIX + x);
    hide StripKeyword;
    forall k ensures k in StripKeyword(s, "default").fields <==> k == "$ref" || k == "$defs" {
      StripMember(s.fields, k);
    }
    StripMember(s.fields, "$ref");
    StripMember(s.fields, "$defs");
    forall k ensures k in StripKeyword(s, "default").fields["$defs"].fields <==> k == x && x != "default" {
      StripMember(map[x := definition], k);
    }
    StripMember(map[x := definition], x);
  }

  /** A definition is found after stripping iff it is not named `default`. */
  lemma DefinitionSurvivesIff(x: string, definition: Json)
    requires PlainToken(x)
    ensures Resolve(ReferenceTo(x, definition), DEFS_PREFIX + x) == Some(definition)
    ensures Resolve(StripKeyword(ReferenceTo(x, definition), "default"), DEFS_PREFIX + x)
         == if x == "default" then None else Some(StripKeyword(definition, "default"))
  {
    StrippedReference(x, definition);
    PrefixSplits(DEFS_PREFIX, x);
    hide StripKeyword;
    assert |DEFS_PREFIX| > 1;
  }

  lemma TwoMembersAccept(sem: Assertions, root: Json, s: Json, v: Json, fuel: nat, d: bool)
    requires s.Obj? && forall k :: k in s.fields <==> k == "$ref" || k == "$defs"
    ensures Accepts(sem, root, s, v, fuel, d)
       <==> MemberAccepts(sem, root, s, "$ref", v, fuel, d) && MemberAccepts(sem, root, s, "$defs", v, fuel, d)
  {
    hide KeywordAccepts, KeywordOf, ListedProperties;
  }

  lemma ReferenceAccepts(sem: Assertions, root: Json, s: Json, v: Json, fuel: nat, d: bool)
    requires s.Obj? && forall k :: k in s.fields <==> k == "$ref" || k == "$defs"
    ensures Accepts(sem, root, s, v, fuel, d)
       <==> KeywordAccepts(sem, root, Ref, s.fields["$ref"], ListedProperties(s), v, fuel, d)
  {
    TwoMembersAccept(sem, root, s, v, fuel, d);
    assert KeywordOf("$ref") == Ref && KeywordOf("$defs") == Definitions;
    hide Accepts, KeywordOf, ListedProperties;
  }

  lemma ReferenceMembers(x: string, definition: Json)
    ensures var s := ReferenceTo(x, definition);
            && s.Obj? && (forall k :: k in s.fields <==> k == "$ref" || k == "$defs")
            && s.fields["$ref"] == Str(DEFS_PREFIX + x)
  {
  }

  lemma ReferenceMeans(sem: Assertions, x: string, definition: Json, v: Json, n: nat, fuel: nat, d: bool)
    requires PlainToken(x) && n == fuel + 1
    ensures var s := ReferenceTo(x, definition);
            Accepts(sem, s, s, v, n, d) == Accepts(sem, s, definition, v, fuel, d)
  {
    var s := ReferenceTo(x, definition);
    ReferenceMembers(x, definition);
    DefinitionSurvivesIff(x, definition);
    ResolvedReference(sem, s, s, DEFS_PREFIX + x, definition, v, n, fuel, d);
    hide Accepts, Resolve, StripKeyword, PlainToken;
  }

  lemma ResolvedReference(
      sem: Assertions, root: Json, s: Json, ref: string, target: Json, v: Json, n: nat, fuel: nat, d: bool)
    requires s.Obj? && (forall k :: k in s.fields <==> k == "$ref" || k == "$defs")
    requires s.fields["$ref"] == Str(ref) && Resolve(root, ref) == Some(target) && n == fuel + 1
    ensures Accepts(sem, root, s, v, n, d) == Accepts(sem, root, target, v, fuel, d)
  {
    hide Resolve, KeywordOf, ListedProperties, Accepts, KeywordAccepts;
    ReferenceAccepts(sem, root, s, v, n, d);
    RefAccepts(sem, root, ref, ListedProperties(s), v, n, d);
  }

  lemma DanglingMeans(sem: Assertions, definition: Json, v: Json, fuel: nat, d: bool)
    ensures var s := StripKeyword(ReferenceTo("default", definition), "default");
            !Accepts(sem, s, s, v, fuel, d)
  {
    var s := StripKeyword(ReferenceTo("default", definition), "default");
    StrippedReference("default", definition);
    DefinitionSurvivesIff("default", definition);
    UnresolvedReference(sem, s, s, DEFS_PREFIX + "default", v, fuel, d);
    hide Accepts, Resolve, StripKeyword;
  }

  lemma UnresolvedReference(sem: Assertions, root: Json, s: Json, ref: string, v: Json, fuel: nat, d: bool)
    requires s.Obj? && (forall k :: k in s.fields <==> k == "$ref" || k == "$defs")
    requires s.fields["$ref"] == Str(ref) && Resolve(root, ref).None?
    ensures !Accepts(sem, root, s, v, fuel, d)
  {
    hide Resolve, KeywordOf, ListedProperties, Accepts;
    ReferenceAccepts(sem, root, s, v, fuel, d);
  }

  ghost predicate AdmitsNothing(sem: Assertions, root: Json, s: Json, fuel: nat, d: bool) {
    forall v :: !Accepts(sem, root, s, v, fuel, d)
  }

  lemma DanglingIff(sem: Assertions, definition: Json, n: nat, fuel: nat, d: bool)
    requires n == fuel + 1
    ensures var s := ReferenceTo("default", definition);
            SameDocument(sem, s, StripKeyword(s, "default"), n, d) <==> AdmitsNothing(sem, s, definition, fuel, d)
  {
    var s := ReferenceTo("default", definition);
    var stripped := StripKeyword(s, "default");
    forall v
      ensures Accepts(sem, s, s, v, n, d) == Accepts(sem, s, definition, v, fuel, d)
      ensures !Accepts(sem, stripped, stripped, v, n, d)
    {
      ReferenceMeans(sem, "default", definition, v, n, fuel, d);
      DanglingMeans(sem, definition, v, n, d);
    }
    DanglingByValue(sem, s, stripped, definition, n, fuel, d);
  }

  lemma DanglingByValue(sem: Assertions, s: Json, stripped: Json, definition: Json, n: nat, fuel: nat, d: bool)
    requires forall v :: Accepts(sem, s, s, v, n, d) == Accepts(sem, s, definition, v, fuel, d)
    requires forall v :: !Accepts(sem, stripped, stripped, v, n, d)
    ensures SameDocument(sem, s, stripped, n, d) <==> AdmitsNothing(sem, s, definition, fuel, d)
  {
    if SameDocument(sem, s, stripped, n, d) {
      forall v ensures !Accepts(sem, s, definition, v, fuel, d) {
        assert Accepts(sem, s, s, v, n, d) == Accepts(sem, stripped, stripped, v, n, d);
      }
    }
  }

  /** A reference keeps its meaning under stripping iff its definition is not named `default`, or
      admits nothing; with nothing else stripped. */
  lemma ReferenceSurvivesIff(sem: Assertions, x: string, definition: Json, fuel: nat, d: bool)
    requires PlainToken(x) && (x != "default" ==> Lacks(definition, "default"))
    ensures SameDocument(sem, ReferenceTo(x, definition), StripKeyword(ReferenceTo(x, definition), "default"),
              fuel + 1, d)
       <==> x != "default" || AdmitsNothing(sem, ReferenceTo(x, definition), definition, fuel, d)
  {
    if x != "default" {
      var s := ReferenceTo(x, definition);
      assert Lacks(Obj(map[x := definition]), "default") && Lacks(s, "default");
      StripLeavesNone(s, "default");
    } else {
      DanglingIff(sem, definition, fuel + 1, fuel, d);
    }
  }

  /** Boolean schemas are sent unwrapped: `false` still admits nothing, while `true` admits
      argument objects with no `value`. */
  lemma BooleanCaseMeetsContractIff(sem: Assertions, b: bool, fuel: nat, d: bool)
    ensures (forall instance: Json ::
               Accepts(sem, CompiledCase(Bool(b)), CompiledCase(Bool(b)), instance, fuel, d)
               <==> instance.Obj? && instance.fields.Keys == {"value"}
                    && Accepts(sem, Bool(b), Bool(b), instance.fields["value"], fuel, d))
       <==> !b
  {
    if b {
      assert Accepts(sem, CompiledCase(Bool(b)), CompiledCase(Bool(b)), Null, fuel, d);
    }
  }
}
