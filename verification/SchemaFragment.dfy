/** The schemas the claims about llm_module/tool_call_schema.py cover, and one account,
    `Recast`, of both of its rewritings. */
module SchemaFragment {
  import opened JsonValues
  import opened SchemaSemantics
  import opened SchemaWrapping

  /** A literal both rewritings leave alone. */
  predicate Inert(w: Json) {
    match w
    case Obj(m) => "default" !in m && ("$ref" in m ==> m["$ref"] != Str("#")) && forall k | k in m :: Inert(m[k])
    case Arr(items) => forall i | 0 <= i < |items| :: Inert(items[i])
    case _ => true
  }

  /** Keywords whose meaning reaches beyond their own value; not part of the fragment. */
  const OUTSIDE := {
    "$anchor", "$dynamicRef", "$dynamicAnchor", "patternProperties", "prefixItems", "contains", "propertyNames",
    "if", "then", "else", "dependentSchemas", "unevaluatedProperties", "unevaluatedItems"
  }

  predicate RefInFragment(ref: string, names: set<string>) {
    || ref == "#"
    || (|ref| >= |DEFS_PREFIX| && ref[..|DEFS_PREFIX|] == DEFS_PREFIX
        && PlainToken(ref[|DEFS_PREFIX|..]) && ref[|DEFS_PREFIX|..] in names)
  }

  /** `s` is a schema of the fragment whose references resolve in a document that defines
      `names`; only the document itself (`top`) may carry an `$id`. */
  predicate InFragment(s: Json, names: set<string>, top: bool)
    decreases s, 0
  {
    match s
    case Bool(_) => true
    case Obj(m) => forall k | k in m :: KeywordInFragment(KeywordOf(k), m[k], names, top)
    case _ => false
  }

  predicate KeywordInFragment(k: Keyword, w: Json, names: set<string>, top: bool)
    decreases w, 1
  {
    match k
    case Default | Definitions => true
    case Identifier => top
    case Ref => w.Str? && RefInFragment(w.s, names)
    case Properties =>
      w.Obj? && "default" !in w.fields && forall p | p in w.fields :: InFragment(w.fields[p], names, false)
    case AdditionalProperties | Items | Not => InFragment(w, names, false)
    case AnyOf | AllOf | OneOf => w.Arr? && forall i | 0 <= i < |w.items| :: InFragment(w.items[i], names, false)
    case Assertion(name) => name !in OUTSIDE && Inert(w)
    case Type | Enum | Required => Inert(w)
  }

  /** A schema document of the fragment all of whose references resolve. */
  predicate Closed(schema: Json) {
    && schema.Obj?
    && InFragment(schema, Defs(schema).Keys, true)
    && ("$defs" in schema.fields ==> schema.fields["$defs"].Obj?)
    && "default" !in Defs(schema)
    && forall x | x in Defs(schema) :: InFragment(Defs(schema)[x], Defs(schema).Keys, false)
  }

  lemma NestedInFragment(s: Json, names: set<string>)
    requires InFragment(s, names, false)
    ensures InFragment(s, names, true)
  {
    if s.Obj? {
      forall k | k in s.fields ensures KeywordInFragment(KeywordOf(k), s.fields[k], names, true) {
        hide KeywordOf;
        assert KeywordInFragment(KeywordOf(k), s.fields[k], names, false);
      }
    }
  }

  lemma SchemasAreNotStrings(s: Json, names: set<string>)
    requires InFragment(s, names, false)
    ensures !s.Str?
  {
  }

  /** The spellings that matter to the rewritings. */
  lemma Spellings(k: string)
    ensures KeywordOf(k).Ref? <==> k == "$ref"
    ensures KeywordOf(k).Default? <==> k == "default"
    ensures KeywordOf(k).Identifier? <==> k == "$id"
    ensures KeywordOf(k).Definitions? <==> k == "$defs"
  {
  }

  /** Redirects root references to `target` and removes the members named in `dropped`. */
  function Recast(j: Json, target: string, dropped: set<string>): Json {
    match j
    case Obj(m) =>
      Obj(map k | k in m && k !in dropped ::
        if k == "$ref" && m[k] == Str("#") then Str(target) else Recast(m[k], target, dropped))
    case Arr(items) => Arr(seq(|items|, i requires 0 <= i < |items| => Recast(items[i], target, dropped)))
    case _ => j
  }

  lemma {:induction false} RewriteIsRecast(j: Json, target: string)
    ensures RewriteRootRefs(j, target) == Recast(j, target, {})
  {
    match j
    case Obj(m) => forall k | k in m { RewriteIsRecast(m[k], target); }
    case Arr(items) => forall i | 0 <= i < |items| { RewriteIsRecast(items[i], target); }
    case _ =>
  }

  lemma {:induction false} StripIsRecast(j: Json)
    ensures StripKeyword(j, "default") == Recast(j, "#", {"default"})
  {
    match j
    case Obj(m) => forall k | k in m { StripIsRecast(m[k]); }
    case Arr(items) => forall i | 0 <= i < |items| { StripIsRecast(items[i]); }
    case _ =>
  }

  lemma {:induction false} RecastWithoutRootRefs(j: Json, target: string)
    requires Str("#") !in CollectRefs(j)
    ensures Recast(j, target, {}) == j
  {
    match j
    case Obj(m) =>
      forall k | k in m ensures Recast(m[k], target, {}) == m[k] {
        assert CollectRefs(m[k]) <= CollectRefs(j);
        RecastWithoutRootRefs(m[k], target);
      }
    case Arr(items) =>
      forall i | 0 <= i < |items| ensures Recast(items[i], target, {}) == items[i] {
        assert CollectRefs(items[i]) <= CollectRefs(j);
        RecastWithoutRootRefs(items[i], target);
      }
    case _ =>
  }

  lemma {:induction false} RecastInert(w: Json, target: string, dropped: set<string>)
    requires Inert(w) && dropped <= {"default"}
    ensures Recast(w, target, dropped) == w
  {
    match w
    case Obj(m) => forall k | k in m { RecastInert(m[k], target, dropped); }
    case Arr(items) => forall i | 0 <= i < |items| { RecastInert(items[i], target, dropped); }
    case _ =>
  }

  // ----- Recasting stays inside the fragment -------------------------------------------

  lemma {:induction false} RecastInFragment(s: Json, names: set<string>, target: string, names': set<string>, top: bool)
    requires InFragment(s, names, top) && names <= names' && RefInFragment(target, names')
    ensures InFragment(Recast(s, target, {}), names', top)
    decreases s, 0
  {
    hide KeywordInFragment, KeywordOf, RefInFragment;
    if s.Obj? {
      var r := Recast(s, target, {});
      forall k | k in s.fields ensures KeywordInFragment(KeywordOf(k), r.fields[k], names', top) {
        Spellings(k);
        RecastWordInFragment(KeywordOf(k), s.fields[k], names, target, names', top);
      }
    }
  }

  /** The recast of what stands under keyword `k`. */
  function RecastWord(k: Keyword, w: Json, target: string, dropped: set<string>): Json {
    if k.Ref? && w == Str("#") then Str(target) else Recast(w, target, dropped)
  }

  lemma {:induction false} RecastWordInFragment(k: Keyword, w: Json, names: set<string>, target: string,
                                                names': set<string>, top: bool)
    requires KeywordInFragment(k, w, names, top) && names <= names' && RefInFragment(target, names')
    ensures KeywordInFragment(k, RecastWord(k, w, target, {}), names', top)
    decreases w, 1
  {
    hide InFragment;
    match k
    case Properties =>
      forall p | p in w.fields ensures InFragment(Recast(w, target, {}).fields[p], names', false) {
        SchemasAreNotStrings(w.fields[p], names);
        RecastInFragment(w.fields[p], names, target, names', false);
      }
    case AdditionalProperties | Items | Not => RecastInFragment(w, names, target, names', false);
    case AnyOf | AllOf | OneOf =>
      forall i | 0 <= i < |w.items| { RecastInFragment(w.items[i], names, target, names', false); }
    case Type | Enum | Required | Assertion(_) => RecastInert(w, target, {});
    case Default | Definitions | Identifier | Ref =>
  }
}
