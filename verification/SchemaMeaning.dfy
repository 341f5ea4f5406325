/** Neither rewriting of llm_module/tool_call_schema.py changes which instances are valid. */
module SchemaMeaning {
  import opened Wrappers
  import opened JsonValues
  import opened SchemaSemantics
  import opened SchemaWrapping
  import opened SchemaFragment

  // ----- Recasting changes no verdict -------------------------------------------------

  const ANNOTATIONS := {"default", "$defs", "$id"}

  ghost predicate SameAssertions(a: Json, b: Json) {
    a.Obj? && b.Obj? && a.fields - ANNOTATIONS == b.fields - ANNOTATIONS
  }

  lemma SameAssertionsSameListed(a: Json, b: Json)
    requires SameAssertions(a, b)
    ensures ListedProperties(a) == ListedProperties(b)
  {
    assert "properties" in a.fields <==> "properties" in a.fields - ANNOTATIONS;
    assert "properties" in b.fields <==> "properties" in b.fields - ANNOTATIONS;
  }

  /** Validation section 9.2: annotations assert nothing. */
  lemma AnnotationsAssertNothing(sem: Assertions, root: Json, a: Json, b: Json, v: Json, fuel: nat, d: bool)
    requires SameAssertions(a, b)
    ensures Accepts(sem, root, a, v, fuel, d) == Accepts(sem, root, b, v, fuel, d)
  {
    hide Accepts;
    AnnotationsAdded(sem, root, a, b, v, fuel, d);
    AnnotationsAdded(sem, root, b, a, v, fuel, d);
  }

  lemma AnnotationsAdded(sem: Assertions, root: Json, a: Json, b: Json, v: Json, fuel: nat, d: bool)
    requires SameAssertions(a, b)
    ensures Accepts(sem, root, a, v, fuel, d) ==> Accepts(sem, root, b, v, fuel, d)
  {
    hide KeywordAccepts, KeywordOf, ListedProperties;
    if Accepts(sem, root, a, v, fuel, d) {
      SameAssertionsSameListed(a, b);
      forall k | k in b.fields
        ensures KeywordAccepts(sem, root, KeywordOf(k), b.fields[k], ListedProperties(b), v, fuel, d)
      {
        if k in ANNOTATIONS {
          AnnotationAccepts(sem, root, k, b.fields[k], ListedProperties(b), v, fuel, d);
        } else {
          assert k in b.fields - ANNOTATIONS;
          assert k in a.fields - ANNOTATIONS;
        }
      }
    }
  }

  lemma AnnotationAccepts(sem: Assertions, root: Json, k: string, w: Json, listed: set<string>, v: Json, fuel: nat,
      d: bool)
    requires k in ANNOTATIONS
    ensures KeywordAccepts(sem, root, KeywordOf(k), w, listed, v, fuel, d)
  {
    Spellings(k);
    hide KeywordOf;
  }

  /** Document `from` recast into document `to`; `rooted` says whether root references may occur. */
  datatype Recasting = Recasting(from: Json, to: Json, target: string, dropped: set<string>, rooted: bool) {

    function Of(j: Json): Json {
      Recast(j, target, dropped)
    }

    function Word(k: Keyword, w: Json): Json {
      RecastWord(k, w, target, dropped)
    }

    function Names(): set<string> {
      Defs(from).Keys
    }

    /** `to` holds every definition of `from` recast and, if `rooted`, something under `target`
        that asserts what the recast document `from` asserts. */
    ghost predicate Carried() {
      && (forall x :: x in Defs(from) ==> x in Defs(to) && Defs(to)[x] == Of(Defs(from)[x]))
      && (if rooted then
            Resolve(to, target).Some? && SameAssertions(Resolve(to, target).value, Of(from))
          else
            forall x :: x in Defs(from) ==> Str("#") !in CollectRefs(Defs(from)[x]))
    }

    ghost predicate Valid() {
      Closed(from) && dropped <= {"default"} && Carried()
    }

    /** `w` may occur in `from`. */
    ghost predicate Covers(w: Json) {
      rooted || Str("#") !in CollectRefs(w)
    }
  }

  lemma {:induction false} RecastPreserves(sem: Assertions, c: Recasting, s: Json, v: Json, fuel: nat, d: bool)
    requires c.Valid() && c.Covers(s) && InFragment(s, c.Names(), true)
    ensures Accepts(sem, c.to, c.Of(s), v, fuel, d) == Accepts(sem, c.from, s, v, fuel, d)
    decreases fuel, s, 0
  {
    hide KeywordAccepts, KeywordInFragment, KeywordOf, ListedProperties, CollectRefs, c.Valid;
    if s.Obj? {
      var r, listed := c.Of(s), ListedProperties(s);
      RecastKeepsListed(c, s);
      forall k | k in s.fields && k !in c.dropped
        ensures k in r.fields
        ensures KeywordAccepts(sem, c.to, KeywordOf(k), r.fields[k], listed, v, fuel, d)
             == KeywordAccepts(sem, c.from, KeywordOf(k), s.fields[k], listed, v, fuel, d)
      {
        CoversMember(c, s, k);
        Spellings(k);
        RecastPreservesWord(sem, c, KeywordOf(k), s.fields[k], listed, v, fuel, d);
      }
      forall k | k in s.fields && k in c.dropped
        ensures KeywordAccepts(sem, c.from, KeywordOf(k), s.fields[k], listed, v, fuel, d)
      {
        DroppedIsAnnotation(c, k);
        AnnotationAccepts(sem, c.from, k, s.fields[k], listed, v, fuel, d);
      }
    }
  }

  lemma DroppedIsAnnotation(c: Recasting, k: string)
    requires c.Valid() && k in c.dropped
    ensures k in ANNOTATIONS
  {
  }

  lemma CoversMember(c: Recasting, s: Json, k: string)
    requires s.Obj? && k in s.fields && c.Covers(s)
    ensures c.Covers(s.fields[k])
    ensures c.rooted || k != "$ref" || s.fields[k] != Str("#")
  {
    assert CollectRefs(s.fields[k]) <= CollectRefs(s);
  }

  lemma RecastKeepsListed(c: Recasting, s: Json)
    requires c.Valid() && s.Obj? && InFragment(s, c.Names(), true)
    ensures ListedProperties(c.Of(s)) == ListedProperties(s)
  {
    assert c.dropped <= {"default"};
    if "properties" in s.fields {
      assert KeywordOf("properties") == Properties;
      assert KeywordInFragment(KeywordOf("properties"), s.fields["properties"], c.Names(), true);
      var w := s.fields["properties"];
      assert w.Obj? && "default" !in w.fields;
      hide InFragment, KeywordInFragment, KeywordOf, c.Valid;
      RecastKeepsKeys(c, w);
      assert c.Of(s).fields["properties"] == c.Of(w);
    } else {
      hide InFragment, c.Valid;
    }
  }

  lemma RecastKeepsKeys(c: Recasting, w: Json)
    requires c.dropped <= {"default"} && w.Obj? && "default" !in w.fields
    ensures c.Of(w).Obj? && c.Of(w).fields.Keys == w.fields.Keys
  {
  }

  lemma {:induction false} RecastPreservesWord(sem: Assertions, c: Recasting, k: Keyword, w: Json, listed: set<string>,
                                               v: Json, fuel: nat, d: bool)
    requires c.Valid() && c.Covers(w) && KeywordInFragment(k, w, c.Names(), true)
    requires c.rooted || !k.Ref? || w != Str("#")
    ensures KeywordAccepts(sem, c.to, k, c.Word(k, w), listed, v, fuel, d)
         == KeywordAccepts(sem, c.from, k, w, listed, v, fuel, d)
    decreases fuel, w, 2
  {
    hide KeywordAccepts, KeywordInFragment, CollectRefs, c.Valid;
    match k
    case Ref => RecastPreservesRef(sem, c, w, listed, v, fuel, d);
    case Properties => RecastPreservesProperties(sem, c, w, listed, v, fuel, d);
    case AdditionalProperties => RecastPreservesOthers(sem, c, w, listed, v, fuel, d);
    case Items => RecastPreservesItems(sem, c, w, listed, v, fuel, d);
    case Not => RecastPreservesNot(sem, c, w, listed, v, fuel, d);
    case AnyOf | AllOf | OneOf => RecastPreservesList(sem, c, k, w, listed, v, fuel, d);
    case Default | Definitions | Identifier | Type | Enum | Required | Assertion(_) =>
      RecastPreservesLiteral(sem, c, k, w, listed, v, fuel, d);
  }

  lemma RecastPreservesLiteral(sem: Assertions, c: Recasting, k: Keyword, w: Json, listed: set<string>,
                               v: Json, fuel: nat, d: bool)
    requires c.Valid() && KeywordInFragment(k, w, c.Names(), true) && !Applies(k)
    ensures KeywordAccepts(sem, c.to, k, c.Word(k, w), listed, v, fuel, d)
         == KeywordAccepts(sem, c.from, k, w, listed, v, fuel, d)
  {
    hide CollectRefs, InFragment;
    if k.Type? || k.Enum? || k.Required? || k.Assertion? {
      RecastInert(w, c.target, c.dropped);
      hide KeywordAccepts;
      AssertsIgnoreFuel(sem, c.to, c.from, k, w, listed, v, fuel, d, fuel, d);
    }
  }

  lemma {:induction false} RecastPreservesRef(sem: Assertions, c: Recasting, w: Json, listed: set<string>,
                                              v: Json, fuel: nat, d: bool)
    requires c.Valid() && KeywordInFragment(Ref, w, c.Names(), true)
    requires c.rooted || w != Str("#")
    ensures KeywordAccepts(sem, c.to, Ref, c.Word(Ref, w), listed, v, fuel, d)
         == KeywordAccepts(sem, c.from, Ref, w, listed, v, fuel, d)
    decreases fuel, w, 1
  {
    hide Accepts, Resolve, CollectRefs, InFragment, c.Valid;
    ResolveRecast(c, w.s);
    if fuel > 0 {
      RecastPreservesReferent(sem, c, Resolve(c.from, w.s).value,
                              Resolve(c.to, if w.s == "#" then c.target else w.s).value,
                              v, fuel, d);
    }
  }

  lemma {:induction false} RecastPreservesReferent(sem: Assertions, c: Recasting, s: Json, r: Json, v: Json,
      fuel: nat, d: bool)
    requires fuel > 0 && c.Valid() && c.Covers(s) && InFragment(s, c.Names(), true)
    requires r == c.Of(s) || SameAssertions(r, c.Of(s))
    ensures Accepts(sem, c.to, r, v, fuel - 1, d) == Accepts(sem, c.from, s, v, fuel - 1, d)
    decreases fuel - 1, s, 1
  {
    hide Accepts, CollectRefs, InFragment, c.Valid, c.Of;
    RecastPreserves(sem, c, s, v, fuel - 1, d);
    if r != c.Of(s) {
      AnnotationsAssertNothing(sem, c.to, r, c.Of(s), v, fuel - 1, d);
    }
  }

  /** A reference and its recast find corresponding schemas. */
  lemma ResolveRecast(c: Recasting, ref: string)
    requires c.Valid() && RefInFragment(ref, c.Names()) && (c.rooted || ref != "#")
    ensures var ref' := if ref == "#" then c.target else ref;
            && Resolve(c.from, ref).Some? && Resolve(c.to, ref').Some?
            && c.Covers(Resolve(c.from, ref).value)
            && InFragment(Resolve(c.from, ref).value, c.Names(), true)
            && (Resolve(c.to, ref').value == c.Of(Resolve(c.from, ref).value)
                || SameAssertions(Resolve(c.to, ref').value, c.Of(Resolve(c.from, ref).value)))
  {
    hide CollectRefs, InFragment;
    if ref != "#" {
      NestedInFragment(Defs(c.from)[ref[|DEFS_PREFIX|..]], c.Names());
    }
  }

  lemma {:induction false} RecastPreservesProperties(sem: Assertions, c: Recasting, w: Json, listed: set<string>,
                                                     v: Json, fuel: nat, d: bool)
    requires c.Valid() && c.Covers(w) && KeywordInFragment(Properties, w, c.Names(), true)
    ensures KeywordAccepts(sem, c.to, Properties, c.Word(Properties, w), listed, v, fuel, d)
         == KeywordAccepts(sem, c.from, Properties, w, listed, v, fuel, d)
    decreases fuel, w, 1
  {
    hide Accepts, CollectRefs, InFragment, Closed, Resolve;
    var r := c.Of(w);
    assert r.fields.Keys == w.fields.Keys;
    if v.Obj? {
      forall p | p in w.fields && p in v.fields
        ensures Accepts(sem, c.to, r.fields[p], v.fields[p], fuel, d)
             == Accepts(sem, c.from, w.fields[p], v.fields[p], fuel, d)
      {
        SchemasAreNotStrings(w.fields[p], c.Names());
        NestedInFragment(w.fields[p], c.Names());
        CoversMember(c, w, p);
        RecastPreserves(sem, c, w.fields[p], v.fields[p], fuel, d);
      }
    }
  }

  lemma {:induction false} RecastPreservesOthers(sem: Assertions, c: Recasting, w: Json, listed: set<string>,
                                                 v: Json, fuel: nat, d: bool)
    requires c.Valid() && c.Covers(w) && KeywordInFragment(AdditionalProperties, w, c.Names(), true)
    ensures KeywordAccepts(sem, c.to, AdditionalProperties, c.Word(AdditionalProperties, w), listed, v, fuel, d)
         == KeywordAccepts(sem, c.from, AdditionalProperties, w, listed, v, fuel, d)
    decreases fuel, w, 1
  {
    hide Accepts, CollectRefs, InFragment, c.Valid;
    NestedInFragment(w, c.Names());
    if v.Obj? {
      forall p | p in v.fields { RecastPreserves(sem, c, w, v.fields[p], fuel, d); }
    }
  }

  lemma {:induction false} RecastPreservesItems(sem: Assertions, c: Recasting, w: Json, listed: set<string>,
                                                v: Json, fuel: nat, d: bool)
    requires c.Valid() && c.Covers(w) && KeywordInFragment(Items, w, c.Names(), true)
    ensures KeywordAccepts(sem, c.to, Items, c.Word(Items, w), listed, v, fuel, d)
         == KeywordAccepts(sem, c.from, Items, w, listed, v, fuel, d)
    decreases fuel, w, 1
  {
    hide Accepts, CollectRefs, InFragment, c.Valid;
    NestedInFragment(w, c.Names());
    if v.Arr? {
      forall i | 0 <= i < |v.items| { RecastPreserves(sem, c, w, v.items[i], fuel, d); }
    }
  }

  lemma {:induction false} RecastPreservesNot(sem: Assertions, c: Recasting, w: Json, listed: set<string>,
                                              v: Json, fuel: nat, d: bool)
    requires c.Valid() && c.Covers(w) && KeywordInFragment(Not, w, c.Names(), true)
    ensures KeywordAccepts(sem, c.to, Not, c.Word(Not, w), listed, v, fuel, d)
         == KeywordAccepts(sem, c.from, Not, w, listed, v, fuel, d)
    decreases fuel, w, 1
  {
    hide Accepts, CollectRefs, InFragment, c.Valid;
    NestedInFragment(w, c.Names());
    RecastPreserves(sem, c, w, v, fuel, !d);
  }

  lemma {:induction false} RecastPreservesList(sem: Assertions, c: Recasting, k: Keyword, w: Json, listed: set<string>,
                                               v: Json, fuel: nat, d: bool)
    requires k.AnyOf? || k.AllOf? || k.OneOf?
    requires c.Valid() && c.Covers(w) && KeywordInFragment(k, w, c.Names(), true)
    ensures KeywordAccepts(sem, c.to, k, c.Word(k, w), listed, v, fuel, d)
         == KeywordAccepts(sem, c.from, k, w, listed, v, fuel, d)
    decreases fuel, w, 1
  {
    hide Accepts, InFragment, c.Valid;
    var r := c.Of(w);
    forall i, e | 0 <= i < |w.items|
      ensures Accepts(sem, c.to, r.items[i], v, fuel, e) == Accepts(sem, c.from, w.items[i], v, fuel, e)
    {
      NestedInFragment(w.items[i], c.Names());
      assert CollectRefs(w.items[i]) <= CollectRefs(w);
      RecastPreserves(sem, c, w.items[i], v, fuel, e);
    }
  }
}
