/** What a JSON Schema (Draft 2020-12) accepts, for the keywords below.

    References may loop, so acceptance is indexed by `fuel`, which is spent only by
    following a `$ref`, and by `d`, the answer given when the fuel is used up. With
    `d == false` acceptance is an under-approximation and with `d == true` an
    over-approximation; `not` and `oneOf` swap the two. `sem` is an arbitrary
    interpretation of every assertion keyword that has no case of its own here
    (`minLength`, `pattern`, `maximum`, ...). */
module SchemaSemantics {
  import opened Wrappers
  import opened JsonValues

  type Assertions = (string, Json, Json) -> bool

  const DEFS_PREFIX := "#/$defs/"

  /** The members of a schema's root-level `$defs`. */
  function Defs(root: Json): map<string, Json> {
    if root.Obj? && "$defs" in root.fields && root.fields["$defs"].Obj? then root.fields["$defs"].fields
    else map[]
  }

  /** A JSON pointer token that needs no unescaping. */
  predicate PlainToken(token: string) {
    '/' !in token && '~' !in token && '%' !in token
  }

  /** Core section 8.2.3.1: `#` is the document root, `#/$defs/x` a root definition. */
  function Resolve(root: Json, ref: string): Option<Json> {
    if ref == "#" then
      Some(root)
    else if |ref| >= |DEFS_PREFIX| && ref[..|DEFS_PREFIX|] == DEFS_PREFIX
            && PlainToken(ref[|DEFS_PREFIX|..]) && ref[|DEFS_PREFIX|..] in Defs(root) then
      Some(Defs(root)[ref[|DEFS_PREFIX|..]])
    else
      None
  }

  predicate HasType(name: string, v: Json) {
    match v
    case Null => name == "null"
    case Bool(_) => name == "boolean"
    case Num(r) => name == "number" || (name == "integer" && r == r.Floor as real)
    case Str(_) => name == "string"
    case Arr(_) => name == "array"
    case Obj(_) => name == "object"
  }

  predicate TypeMatches(w: Json, v: Json) {
    match w
    case Str(name) => HasType(name, v)
    case Arr(names) => exists i :: 0 <= i < |names| && names[i].Str? && HasType(names[i].s, v)
    case _ => false
  }

  predicate RequiredPresent(w: Json, v: Json) {
    v.Obj? && w.Arr? ==> forall i :: 0 <= i < |w.items| && w.items[i].Str? ==> w.items[i].s in v.fields
  }

  /** Property names listed next to an `additionalProperties` keyword. */
  function ListedProperties(schema: Json): set<string> {
    if schema.Obj? && "properties" in schema.fields && schema.fields["properties"].Obj?
    then schema.fields["properties"].fields.Keys
    else {}
  }

  /** The keywords with a case of their own; every other keyword is an assertion. */
  datatype Keyword =
    | Default | Definitions | Identifier
    | Ref | Type | Enum | Required | Properties | AdditionalProperties | Items
    | AnyOf | AllOf | OneOf | Not
    | Assertion(name: string)

  function KeywordOf(k: string): Keyword {
    if k == "default" then Default
    else if k == "$defs" then Definitions
    else if k == "$id" then Identifier
    else if k == "$ref" then Ref
    else if k == "type" then Type
    else if k == "enum" then Enum
    else if k == "required" then Required
    else if k == "properties" then Properties
    else if k == "additionalProperties" then AdditionalProperties
    else if k == "items" then Items
    else if k == "anyOf" then AnyOf
    else if k == "allOf" then AllOf
    else if k == "oneOf" then OneOf
    else if k == "not" then Not
    else Assertion(k)
  }

  ghost predicate Accepts(sem: Assertions, root: Json, schema: Json, v: Json, fuel: nat, d: bool)
    decreases fuel, schema, 0
  {
    match schema
    case Bool(b) => b
    case Obj(m) => forall k :: k in m ==>
        KeywordAccepts(sem, root, KeywordOf(k), m[k], ListedProperties(schema), v, fuel, d)
    case _ => false
  }

  /** What keyword `k` with value `w` says of `v`; `listed` are the properties named beside it. */
  ghost predicate KeywordAccepts(sem: Assertions, root: Json, k: Keyword, w: Json, listed: set<string>,
                                 v: Json, fuel: nat, d: bool)
    decreases fuel, w, 1
  {
    match k
    case Ref =>
      w.Str? && Resolve(root, w.s).Some? &&
      if fuel == 0 then d else Accepts(sem, root, Resolve(root, w.s).value, v, fuel - 1, d)
    case Properties =>
      v.Obj? && w.Obj? ==>
        forall p :: p in w.fields && p in v.fields ==> Accepts(sem, root, w.fields[p], v.fields[p], fuel, d)
    case AdditionalProperties =>
      v.Obj? ==> forall p :: p in v.fields && p !in listed ==> Accepts(sem, root, w, v.fields[p], fuel, d)
    case Items => v.Arr? ==> forall i :: 0 <= i < |v.items| ==> Accepts(sem, root, w, v.items[i], fuel, d)
    case AnyOf => w.Arr? && exists i :: 0 <= i < |w.items| && Accepts(sem, root, w.items[i], v, fuel, d)
    case AllOf => w.Arr? && forall i :: 0 <= i < |w.items| ==> Accepts(sem, root, w.items[i], v, fuel, d)
    case OneOf =>
      w.Arr? && exists i :: 0 <= i < |w.items| && Accepts(sem, root, w.items[i], v, fuel, d)
                            && forall j :: 0 <= j < |w.items| && j != i ==> !Accepts(sem, root, w.items[j], v, fuel, !d)
    case Not => !Accepts(sem, root, w, v, fuel, !d)
    case _ => Asserts(sem, k, w, v)
  }

  /** What the member `k` of an object schema says of `v`. */
  ghost predicate MemberAccepts(sem: Assertions, root: Json, s: Json, k: string, v: Json, fuel: nat, d: bool)
    requires s.Obj? && k in s.fields
  {
    KeywordAccepts(sem, root, KeywordOf(k), s.fields[k], ListedProperties(s), v, fuel, d)
  }

  /** The keywords that apply subschemas. */
  predicate Applies(k: Keyword) {
    k in {Ref, Properties, AdditionalProperties, Items, AnyOf, AllOf, OneOf, Not}
  }

  /** The keywords without subschemas. Annotations assert nothing (Validation section 9). */
  ghost predicate Asserts(sem: Assertions, k: Keyword, w: Json, v: Json) {
    match k
    case Type => TypeMatches(w, v)
    case Enum => w.Arr? && v in w.items
    case Required => RequiredPresent(w, v)
    case Assertion(name) => sem(name, w, v)
    case _ => true
  }

  /** `v` is certainly valid / certainly invalid against the document `root`. An instance
      on which the references loop for ever is neither. */
  ghost predicate Valid(sem: Assertions, root: Json, v: Json) {
    exists n: nat :: Accepts(sem, root, root, v, n, false)
  }

  ghost predicate Invalid(sem: Assertions, root: Json, v: Json) {
    exists n: nat :: !Accepts(sem, root, root, v, n, true)
  }

  /** (n, d) is the more cautious of two readings: what it accepts, (m, e) accepts. */
  ghost predicate MoreCautious(n: nat, d: bool, m: nat, e: bool) {
    (!d && e) || (!d && !e && n <= m) || (d && e && m <= n)
  }

  /** More fuel turns neither a certain yes nor a certain no around, and the two exclude each other. */
  lemma {:induction false} FuelMonotone(sem: Assertions, root: Json, s: Json, v: Json, n: nat, d: bool, m: nat, e: bool)
    requires MoreCautious(n, d, m, e)
    ensures Accepts(sem, root, s, v, n, d) ==> Accepts(sem, root, s, v, m, e)
    decreases n + m, s, 0
  {
    hide KeywordAccepts, KeywordOf, ListedProperties;
    if s.Obj? && Accepts(sem, root, s, v, n, d) {
      forall k | k in s.fields
        ensures KeywordAccepts(sem, root, KeywordOf(k), s.fields[k], ListedProperties(s), v, m, e)
      {
        KeywordFuelMonotone(sem, root, KeywordOf(k), s.fields[k], ListedProperties(s), v, n, d, m, e);
      }
    }
  }

  lemma {:induction false} KeywordFuelMonotone(sem: Assertions, root: Json, k: Keyword, w: Json, listed: set<string>,
      v: Json, n: nat, d: bool, m: nat, e: bool)
    requires MoreCautious(n, d, m, e) && KeywordAccepts(sem, root, k, w, listed, v, n, d)
    ensures KeywordAccepts(sem, root, k, w, listed, v, m, e)
    decreases n + m, w, 2
  {
    hide KeywordAccepts, MoreCautious;
    match k
    case Ref => RefFuelMonotone(sem, root, w, listed, v, n, d, m, e);
    case Not => NotFuelMonotone(sem, root, w, listed, v, n, d, m, e);
    case Properties => PropertiesFuelMonotone(sem, root, w, listed, v, n, d, m, e);
    case AdditionalProperties => OthersFuelMonotone(sem, root, w, listed, v, n, d, m, e);
    case Items => ItemsFuelMonotone(sem, root, w, listed, v, n, d, m, e);
    case AnyOf => SomeFuelMonotone(sem, root, w, listed, v, n, d, m, e);
    case AllOf => AllFuelMonotone(sem, root, w, listed, v, n, d, m, e);
    case OneOf => OneFuelMonotone(sem, root, w, listed, v, n, d, m, e);
    case _ => AssertsIgnoreFuel(sem, root, root, k, w, listed, v, n, d, m, e);
  }

  /** Keywords without subschemas look neither at the document nor at the fuel. */
  lemma AssertsIgnoreFuel(sem: Assertions, root: Json, root': Json, k: Keyword, w: Json, listed: set<string>, v: Json,
                          n: nat, d: bool, m: nat, e: bool)
    requires !Applies(k)
    ensures KeywordAccepts(sem, root, k, w, listed, v, n, d) == KeywordAccepts(sem, root', k, w, listed, v, m, e)
  {
    hide Asserts;
  }

  lemma {:induction false} RefFuelMonotone(sem: Assertions, root: Json, w: Json, listed: set<string>, v: Json,
                                               n: nat, d: bool, m: nat, e: bool)
    requires MoreCautious(n, d, m, e) && KeywordAccepts(sem, root, Ref, w, listed, v, n, d)
    ensures KeywordAccepts(sem, root, Ref, w, listed, v, m, e)
    decreases n + m, w, 1
  {
    hide Accepts, Resolve;
    if n > 0 && m > 0 {
      FuelMonotone(sem, root, Resolve(root, w.s).value, v, n - 1, d, m - 1, e);
    }
  }

  lemma {:induction false} NotFuelMonotone(sem: Assertions, root: Json, w: Json, listed: set<string>, v: Json,
                                               n: nat, d: bool, m: nat, e: bool)
    requires MoreCautious(n, d, m, e) && KeywordAccepts(sem, root, Not, w, listed, v, n, d)
    ensures KeywordAccepts(sem, root, Not, w, listed, v, m, e)
    decreases n + m, w, 1
  {
    hide Accepts;
    FuelMonotone(sem, root, w, v, m, !e, n, !d);
  }

  lemma {:induction false} PropertiesFuelMonotone(sem: Assertions, root: Json, w: Json, listed: set<string>, v: Json,
                                               n: nat, d: bool, m: nat, e: bool)
    requires MoreCautious(n, d, m, e) && KeywordAccepts(sem, root, Properties, w, listed, v, n, d)
    ensures KeywordAccepts(sem, root, Properties, w, listed, v, m, e)
    decreases n + m, w, 1
  {
    hide Accepts;
    if v.Obj? && w.Obj? {
      forall p | p in w.fields && p in v.fields { FuelMonotone(sem, root, w.fields[p], v.fields[p], n, d, m, e); }
    }
  }

  lemma {:induction false} OthersFuelMonotone(sem: Assertions, root: Json, w: Json, listed: set<string>, v: Json,
                                               n: nat, d: bool, m: nat, e: bool)
    requires MoreCautious(n, d, m, e) && KeywordAccepts(sem, root, AdditionalProperties, w, listed, v, n, d)
    ensures KeywordAccepts(sem, root, AdditionalProperties, w, listed, v, m, e)
    decreases n + m, w, 1
  {
    hide Accepts;
    if v.Obj? {
      forall p | p in v.fields { FuelMonotone(sem, root, w, v.fields[p], n, d, m, e); }
    }
  }

  lemma {:induction false} ItemsFuelMonotone(sem: Assertions, root: Json, w: Json, listed: set<string>, v: Json,
                                               n: nat, d: bool, m: nat, e: bool)
    requires MoreCautious(n, d, m, e) && KeywordAccepts(sem, root, Items, w, listed, v, n, d)
    ensures KeywordAccepts(sem, root, Items, w, listed, v, m, e)
    decreases n + m, w, 1
  {
    hide Accepts;
    if v.Arr? {
      forall i | 0 <= i < |v.items| { FuelMonotone(sem, root, w, v.items[i], n, d, m, e); }
    }
  }

  lemma {:induction false} SomeFuelMonotone(sem: Assertions, root: Json, w: Json, listed: set<string>, v: Json,
                                               n: nat, d: bool, m: nat, e: bool)
    requires MoreCautious(n, d, m, e) && KeywordAccepts(sem, root, AnyOf, w, listed, v, n, d)
    ensures KeywordAccepts(sem, root, AnyOf, w, listed, v, m, e)
    decreases n + m, w, 1
  {
    hide Accepts;
    forall i | 0 <= i < |w.items| { FuelMonotone(sem, root, w.items[i], v, n, d, m, e); }
  }

  lemma {:induction false} AllFuelMonotone(sem: Assertions, root: Json, w: Json, listed: set<string>, v: Json,
                                               n: nat, d: bool, m: nat, e: bool)
    requires MoreCautious(n, d, m, e) && KeywordAccepts(sem, root, AllOf, w, listed, v, n, d)
    ensures KeywordAccepts(sem, root, AllOf, w, listed, v, m, e)
    decreases n + m, w, 1
  {
    hide Accepts;
    forall i | 0 <= i < |w.items| { FuelMonotone(sem, root, w.items[i], v, n, d, m, e); }
  }

  lemma {:induction false} OneFuelMonotone(sem: Assertions, root: Json, w: Json, listed: set<string>, v: Json,
                                               n: nat, d: bool, m: nat, e: bool)
    requires MoreCautious(n, d, m, e) && KeywordAccepts(sem, root, OneOf, w, listed, v, n, d)
    ensures KeywordAccepts(sem, root, OneOf, w, listed, v, m, e)
    decreases n + m, w, 1
  {
    hide Accepts;
    forall i | 0 <= i < |w.items|
      ensures Accepts(sem, root, w.items[i], v, n, d) ==> Accepts(sem, root, w.items[i], v, m, e)
      ensures Accepts(sem, root, w.items[i], v, m, !e) ==> Accepts(sem, root, w.items[i], v, n, !d)
    {
      FuelMonotone(sem, root, w.items[i], v, n, d, m, e);
      FuelMonotone(sem, root, w.items[i], v, m, !e, n, !d);
    }
  }

  /** No instance is both certainly valid and certainly invalid. */
  lemma VerdictsExclusive(sem: Assertions, root: Json, v: Json)
    ensures !(Valid(sem, root, v) && Invalid(sem, root, v))
  {
    hide Accepts;
    if Valid(sem, root, v) && Invalid(sem, root, v) {
      var n: nat :| Accepts(sem, root, root, v, n, false);
      var m: nat :| !Accepts(sem, root, root, v, m, true);
      FuelMonotone(sem, root, root, v, n, false, m, true);
    }
  }
}
