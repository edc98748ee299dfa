/**
 A meaning for JSON Schema, and what each pass over one node does to it.

 `Valid` covers the assertions `type`, `enum` and `const` (JSON Schema
 Validation 2020-12, sections 6.1.1 to 6.1.3) and the applicators `anyOf`,
 `oneOf`, `items`, `properties` and `additionalProperties` (JSON Schema Core
 2020-12, sections 10.2.1.2, 10.2.1.3, 10.3.1.2, 10.3.2.1 and 10.3.2.3). Every
 other keyword, `$ref` among them, means whatever the interpretation `m` says of
 its value and the instance.
 */
module SchemaMeaning {
  import opened Common
  import opened Json
  import opened SchemaNormalizer

  /** The meaning of the remaining keywords: keyword, value, instance. */
  type Interpretation = (string, Value, Value) -> bool

  // ---- Assertions -----------------------------------------------------------

  /** Equality of JSON values: numbers are compared as numbers. */
  predicate SameValue(a: Value, b: Value) {
    match (a, b)
    case (Null, Null) => true
    case (Bool(p), Bool(q)) => p == q
    case (Num(p), Num(q)) => NumericValue(p) == NumericValue(q)
    case (String(p), String(q)) => p == q
    case (Array(p), Array(q)) => |p| == |q| && forall i | 0 <= i < |p| :: SameValue(p[i], q[i])
    case (Object(p), Object(q)) => p.Keys == q.Keys && forall k | k in p :: SameValue(p[k], q[k])
    case _ => false
  }

  predicate HasType(name: string, x: Value) {
    || (name == "null" && x.Null?)
    || (name == "boolean" && x.Bool?)
    || (name == "object" && x.Object?)
    || (name == "array" && x.Array?)
    || (name == "string" && x.String?)
    || (name == "number" && x.Num?)
    || (name == "integer" && x.Num? && NumericValue(x.n).Floor as real == NumericValue(x.n))
  }

  predicate NamesType(t: Value, x: Value) {
    t.String? && HasType(t.s, x)
  }

  predicate TypeHolds(v: Value, x: Value) {
    match v
    case Array(types) => exists i | 0 <= i < |types| :: NamesType(types[i], x)
    case _ => NamesType(v, x)
  }

  predicate Enumerates(a: seq<Value>, x: Value) {
    exists v | v in a :: SameValue(v, x)
  }

  // ---- Subschemas -----------------------------------------------------------

  predicate IsSchema(v: Value) {
    v.Object? || v.Bool?
  }

  /** The keyword hands parts of the instance to subschemas. */
  predicate Applies(k: string, v: Value) {
    || (k == "items" && IsSchema(v))
    || (k == "properties" && v.Object?)
    || (k == "additionalProperties" && IsSchema(v))
  }

  /** An element, a member that `properties` names, or one that it does not. */
  datatype Turn = Item(i: nat) | Member(p: string) | Rest(p: string)

  function Keyword(t: Turn): string {
    match t
    case Item(_) => "items"
    case Member(_) => "properties"
    case Rest(_) => "additionalProperties"
  }

  /** The names that `properties` lists. */
  function Named(f: Fields): set<string> {
    if "properties" in f && f["properties"].Object? then f["properties"].fields.Keys else {}
  }

  /** The schema has a subschema for this. */
  predicate Has(f: Fields, t: Turn) {
    && Keyword(t) in f && Applies(Keyword(t), f[Keyword(t)])
    && (t.Member? ==> t.p in f["properties"].fields)
  }

  /** The instance has such a part. */
  predicate Meets(f: Fields, t: Turn, x: Value) {
    match t
    case Item(i) => x.Array? && i < |x.elems|
    case Member(p) => x.Object? && p in x.fields
    case Rest(p) => x.Object? && p in x.fields && p !in Named(f)
  }

  predicate Takes(f: Fields, t: Turn, x: Value) {
    Has(f, t) && Meets(f, t, x)
  }

  function Sub(f: Fields, t: Turn): (s: Value)
    requires Has(f, t)
    ensures (Object(f) decreases to s)
  {
    if t.Member? then f["properties"].fields[t.p] else f[Keyword(t)]
  }

  function Part(x: Value, t: Turn): Value {
    match t
    case Item(i) => if x.Array? && i < |x.elems| then x.elems[i] else Null
    case Member(p) => if x.Object? && p in x.fields then x.fields[p] else Null
    case Rest(p) => if x.Object? && p in x.fields then x.fields[p] else Null
  }

  // ---- Meaning --------------------------------------------------------------

  ghost predicate Valid(m: Interpretation, schema: Value, x: Value)
    decreases schema, 1
  {
    match schema
    case Bool(b) => b
    case Object(f) => forall k | k in f :: KeyHolds(m, f, k, x)
    case _ => true
  }

  /** What a keyword demands next to its siblings. */
  ghost predicate KeyHolds(m: Interpretation, f: Fields, k: string, x: Value)
    requires k in f
    decreases Object(f), 0
  {
    if Applies(k, f[k]) then forall t | Takes(f, t, x) && Keyword(t) == k :: Valid(m, Sub(f, t), Part(x, t))
    else Holds(m, k, f[k], x)
  }

  ghost predicate Holds(m: Interpretation, k: string, v: Value, x: Value)
    decreases v, 1
  {
    if k == "type" then TypeHolds(v, x)
    else if k == "enum" && v.Array? then Enumerates(v.elems, x)
    else if k == "const" then SameValue(v, x)
    else if k == "anyOf" && v.Array? then Matching(m, v.elems, x) >= 1
    else if k == "oneOf" && v.Array? then Matching(m, v.elems, x) == 1
    else m(k, v, x)
  }

  /** How many of the alternatives accept the instance. */
  ghost function Matching(m: Interpretation, a: seq<Value>, x: Value): nat
    decreases a, 0
  {
    if a == [] then 0
    else Matching(m, a[..|a|-1], x) + if Valid(m, a[|a|-1], x) then 1 else 0
  }

  /** The keyword does not demand the same in `g` as in `f`: what it says or what it reads next to it is another. */
  predicate Changed(f: Fields, g: Fields, k: string) {
    k in f && (k !in g || f[k] != g[k] || (k == "additionalProperties" && Named(f) != Named(g)))
  }

  lemma SameReading(m: Interpretation, f: Fields, g: Fields, k: string, x: Value)
    requires k in f && !Changed(f, g, k)
    ensures KeyHolds(m, f, k, x) <==> KeyHolds(m, g, k, x)
  {
    forall t | Keyword(t) == k
      ensures Takes(f, t, x) <==> Takes(g, t, x)
      ensures Takes(f, t, x) ==> Sub(f, t) == Sub(g, t)
    {
    }
  }

  // ---- Null schemas -----------------------------------------------------------

  lemma NullSchemaRejects(m: Interpretation, s: Value, x: Value)
    requires IsNullSchema(s) && x != Null
    ensures !Valid(m, s, x)
  {
    if "type" in s.fields && s.fields["type"] == String("null") {
      assert !KeyHolds(m, s.fields, "type", x);
    } else if "const" in s.fields && s.fields["const"] == Null {
      assert !KeyHolds(m, s.fields, "const", x);
    } else {
      assert !KeyHolds(m, s.fields, "enum", x);
    }
  }

  /** `{"type": "null"}`, `{"const": null}` and `{"enum": [null]}`. */
  predicate IsNullForm(s: Value) {
    || s == Object(map["type" := String("null")])
    || s == Object(map["const" := Null])
    || s == Object(map["enum" := Array([Null])])
  }

  lemma OnlyMember(f: Fields, key: string)
    requires |f| == 1 && key in f
    ensures f == map[key := f[key]]
  {
    var rest := f.Keys - {key};
    assert |rest| == 0;
    assert forall k | k in f :: k == key || k in rest;
  }

  /** These three and no others count as null schemas. */
  lemma NullSchemaForms(s: Value)
    ensures IsNullSchema(s) <==> IsNullForm(s)
  {
    if IsNullSchema(s) {
      var key := if "type" in s.fields then "type" else if "const" in s.fields then "const" else "enum";
      OnlyMember(s.fields, key);
    }
  }

  /** A schema of one keyword: a type's name, a constant, or an enumeration of one value. */
  predicate IsSingle(s: Value) {
    && s.Object? && |s.fields| == 1
    && (|| ("type" in s.fields && s.fields["type"].String?)
        || "const" in s.fields
        || ("enum" in s.fields && s.fields["enum"].Array? && |s.fields["enum"].elems| == 1))
  }

  lemma OnlyKeyword(m: Interpretation, f: Fields, key: string, x: Value)
    requires |f| == 1 && key in f
    ensures Valid(m, Object(f), x) <==> KeyHolds(m, f, key, x)
  {
    OnlyMember(f, key);
  }

  lemma SingleRejects(m: Interpretation, s: Value)
    requires IsSingle(s) && !IsNullForm(s)
    ensures !Valid(m, s, Null)
  {
    var f := s.fields;
    if "type" in f {
      OnlyMember(f, "type");
      OnlyKeyword(m, f, "type", Null);
    } else if "const" in f {
      OnlyMember(f, "const");
      OnlyKeyword(m, f, "const", Null);
    } else {
      OnlyMember(f, "enum");
      OnlyKeyword(m, f, "enum", Null);
      assert f["enum"].elems == [f["enum"].elems[0]];
    }
  }

  lemma NullSchemaAccepts(m: Interpretation, s: Value)
    requires IsNullForm(s)
    ensures Valid(m, s, Null)
  {
    var f := s.fields;
    if "type" in f {
      OnlyKeyword(m, f, "type", Null);
    } else if "const" in f {
      OnlyKeyword(m, f, "const", Null);
    } else {
      OnlyKeyword(m, f, "enum", Null);
      assert Null in f["enum"].elems;
    }
  }

  /** Of such schemas exactly those that accept null and nothing else are null schemas. */
  lemma NullSchemaIff(m: Interpretation, s: Value)
    requires IsSingle(s)
    ensures IsNullSchema(s) <==> forall x :: Valid(m, s, x) <==> x == Null
  {
    NullSchemaForms(s);
    if IsNullSchema(s) {
      NullSchemaAccepts(m, s);
      forall x | x != Null ensures !Valid(m, s, x) { NullSchemaRejects(m, s, x); }
    } else {
      SingleRejects(m, s);
    }
  }

  lemma {:induction false} DropConcat(a: seq<Value>, b: seq<Value>)
    ensures DropNullSchemas(a + b) == DropNullSchemas(a) + DropNullSchemas(b)
  {
    if b == [] {
      assert a + b == a;
    } else {
      assert (a + b)[..|a + b|-1] == a + b[..|b|-1];
      DropConcat(a, b[..|b|-1]);
    }
  }

  /** An alternative of one of the three forms goes, any other stays; the order stays as well. */
  lemma AlternativesLeft(a: seq<Value>, s: Value, b: seq<Value>)
    ensures DropNullSchemas(a + [s] + b) ==
      DropNullSchemas(a) + (if IsNullForm(s) then [] else [s]) + DropNullSchemas(b)
    ensures DropNullSchemas([]) == []
  {
    DropConcat(a + [s], b);
    DropConcat(a, [s]);
    NullSchemaForms(s);
    assert [s][..0] == [];
  }

  lemma MatchingAppend(m: Interpretation, a: seq<Value>, s: Value, x: Value)
    ensures Matching(m, a + [s], x) == Matching(m, a, x) + if Valid(m, s, x) then 1 else 0
  {
    assert (a + [s])[..|a|] == a;
  }

  lemma DropAppend(a: seq<Value>, s: Value)
    ensures DropNullSchemas(a + [s]) == DropNullSchemas(a) + if IsNullSchema(s) then [] else [s]
  {
    assert (a + [s])[..|a|] == a;
  }

  /** Dropping null alternatives does not change the number that match. */
  lemma {:induction false} MatchingIgnoresNullSchemas(m: Interpretation, a: seq<Value>, x: Value)
    requires x != Null
    ensures Matching(m, DropNullSchemas(a), x) == Matching(m, a, x)
  {
    if a == [] {
      assert DropNullSchemas(a) == a;
    } else {
      var front, last := a[..|a|-1], a[|a|-1];
      assert a == front + [last];
      MatchingIgnoresNullSchemas(m, front, x);
      MatchingAppend(m, front, last, x);
      DropAppend(front, last);
      if IsNullSchema(last) {
        NullSchemaRejects(m, last, x);
        assert DropNullSchemas(a) == DropNullSchemas(front);
      } else {
        MatchingAppend(m, DropNullSchemas(front), last, x);
      }
    }
  }

  // ---- One keyword at a time ----------------------------------------------------

  /** The schemas differ at most in one keyword that no sibling reads. */
  predicate SameBut(f: Fields, g: Fields, key: string) {
    && key != "properties" && key != "additionalProperties" && key != "items"
    && f.Keys - {key} == g.Keys - {key}
    && forall k | k in f && k in g && k != key :: f[k] == g[k]
  }

  ghost predicate OthersHold(m: Interpretation, f: Fields, key: string, x: Value) {
    forall k | k in f && k != key :: KeyHolds(m, f, k, x)
  }

  lemma SameEntry(f: Fields, g: Fields, key: string, k: string)
    requires SameBut(f, g, key) && k != key
    ensures (k in f <==> k in g) && (k in f ==> f[k] == g[k])
  {
    assert k in f.Keys - {key} <==> k in f;
    assert k in g.Keys - {key} <==> k in g;
  }

  lemma SameOthers(m: Interpretation, f: Fields, g: Fields, key: string, x: Value)
    requires SameBut(f, g, key)
    ensures OthersHold(m, f, key, x) ==> OthersHold(m, g, key, x)
  {
    SameEntry(f, g, key, "properties");
    if OthersHold(m, f, key, x) {
      forall k | k in g && k != key ensures KeyHolds(m, g, k, x) {
        SameEntry(f, g, key, k);
        SameReading(m, f, g, k, x);
      }
    }
  }

  lemma ValidByKeyword(m: Interpretation, f: Fields, key: string, x: Value)
    ensures Valid(m, Object(f), x) <==> OthersHold(m, f, key, x) && (key in f ==> KeyHolds(m, f, key, x))
  {
  }

  /** A keyword replaced by one that demands the same, or removed. */
  lemma OneKeyword(m: Interpretation, f: Fields, g: Fields, key: string, x: Value)
    requires SameBut(f, g, key) && SameBut(g, f, key) && key in f
    requires key in g ==> (KeyHolds(m, f, key, x) <==> KeyHolds(m, g, key, x))
    ensures Valid(m, Object(f), x) <==> Valid(m, Object(g), x) && KeyHolds(m, f, key, x)
  {
    SameOthers(m, f, g, key, x);
    SameOthers(m, g, f, key, x);
    ValidByKeyword(m, f, key, x);
    ValidByKeyword(m, g, key, x);
  }

  // ---- Combinators ---------------------------------------------------------------

  /** One alternative is left, an object: it takes its parent's place. */
  predicate Inlines(f: Fields, key: string) {
    key in f && f[key].Array? &&
    var left := DropNullSchemas(f[key].elems);
    |left| == 1 && left[0].Object?
  }

  function Alternative(f: Fields, key: string): Fields
    requires Inlines(f, key)
  {
    DropNullSchemas(f[key].elems)[0].fields
  }

  /** The parent's keywords that are no longer demanded of it, and the alternative's. */
  ghost predicate LostHold(m: Interpretation, f: Fields, key: string, alt: Fields, x: Value) {
    var g := WithoutKey(f, key) + alt;
    && (forall k | k in f && k != key && Changed(f, g, k) :: KeyHolds(m, f, k, x))
    && (forall k | k in alt && Changed(alt, g, k) :: KeyHolds(m, alt, k, x))
  }

  /** What is demanded now and was by neither. */
  ghost predicate GainedHold(m: Interpretation, f: Fields, key: string, alt: Fields, x: Value) {
    var g := WithoutKey(f, key) + alt;
    forall k | k in g && (k in f && k != key ==> Changed(f, g, k)) && (k in alt ==> Changed(alt, g, k)) ::
      KeyHolds(m, g, k, x)
  }

  /** The combinator is not emptied, and the instance meets what inlining loses. */
  ghost predicate CombinatorLosses(m: Interpretation, f: Fields, key: string, x: Value) {
    key in f && f[key].Array? ==>
      && DropNullSchemas(f[key].elems) != []
      && (Inlines(f, key) ==> LostHold(m, f, key, Alternative(f, key), x))
  }

  /** The instance meets what inlining makes new. */
  ghost predicate CombinatorGains(m: Interpretation, f: Fields, key: string, x: Value) {
    Inlines(f, key) ==> GainedHold(m, f, key, Alternative(f, key), x)
  }

  lemma InlinedKeeps(m: Interpretation, f: Fields, key: string, alt: Fields, x: Value)
    requires key in f
    requires OthersHold(m, f, key, x) && Valid(m, Object(alt), x) && GainedHold(m, f, key, alt, x)
    ensures Valid(m, Object(WithoutKey(f, key) + alt), x)
  {
    var g := WithoutKey(f, key) + alt;
    forall k | k in g ensures KeyHolds(m, g, k, x) {
      if k in f && k != key && !Changed(f, g, k) {
        SameReading(m, f, g, k, x);
      } else if k in alt && !Changed(alt, g, k) {
        SameReading(m, alt, g, k, x);
      }
    }
  }

  lemma InlinedOthersHold(m: Interpretation, f: Fields, key: string, alt: Fields, x: Value)
    requires key in f
    requires Valid(m, Object(WithoutKey(f, key) + alt), x) && LostHold(m, f, key, alt, x)
    ensures OthersHold(m, f, key, x)
  {
    var g := WithoutKey(f, key) + alt;
    forall k | k in f && k != key ensures KeyHolds(m, f, k, x) {
      if !Changed(f, g, k) { SameReading(m, f, g, k, x); }
    }
  }

  lemma InlinedAlternativeHolds(m: Interpretation, f: Fields, key: string, alt: Fields, x: Value)
    requires key in f
    requires Valid(m, Object(WithoutKey(f, key) + alt), x) && LostHold(m, f, key, alt, x)
    ensures Valid(m, Object(alt), x)
  {
    var g := WithoutKey(f, key) + alt;
    forall k | k in alt ensures KeyHolds(m, alt, k, x) {
      if !Changed(alt, g, k) { SameReading(m, alt, g, k, x); }
    }
  }

  /** An alternative moved over its parent: what is gained and lost is all the difference. */
  lemma InliningIff(m: Interpretation, f: Fields, key: string, alt: Fields, x: Value)
    requires key in f
    ensures OthersHold(m, f, key, x) && Valid(m, Object(alt), x) && GainedHold(m, f, key, alt, x) <==>
      Valid(m, Object(WithoutKey(f, key) + alt), x) && LostHold(m, f, key, alt, x)
  {
    var g := WithoutKey(f, key) + alt;
    if OthersHold(m, f, key, x) && Valid(m, Object(alt), x) && GainedHold(m, f, key, alt, x) {
      InlinedKeeps(m, f, key, alt, x);
    }
    if Valid(m, Object(g), x) && LostHold(m, f, key, alt, x) {
      InlinedOthersHold(m, f, key, alt, x);
      InlinedAlternativeHolds(m, f, key, alt, x);
    }
  }

  lemma SingleMatch(m: Interpretation, a: seq<Value>, x: Value)
    requires |a| == 1
    ensures Matching(m, a, x) == if Valid(m, a[0], x) then 1 else 0
  {
    assert a[..0] == [];
  }

  predicate IsCombinator(key: string) {
    key == "anyOf" || key == "oneOf"
  }

  ghost predicate Accepted(m: Interpretation, key: string, a: seq<Value>, x: Value) {
    if key == "anyOf" then Matching(m, a, x) >= 1 else Matching(m, a, x) == 1
  }

  lemma CombinatorReads(m: Interpretation, f: Fields, key: string, x: Value)
    requires IsCombinator(key) && key in f && f[key].Array?
    ensures KeyHolds(m, f, key, x) <==> Accepted(m, key, f[key].elems, x)
  {
  }

  /** What a combinator demands of an instance other than null depends on the alternatives left. */
  lemma CombinatorHolds(m: Interpretation, f: Fields, key: string, x: Value)
    requires IsCombinator(key) && key in f && f[key].Array? && x != Null
    ensures var left := DropNullSchemas(f[key].elems);
      && (KeyHolds(m, f, key, x) <==> Accepted(m, key, left, x))
      && (left == [] ==> !KeyHolds(m, f, key, x))
      && (|left| == 1 ==> (KeyHolds(m, f, key, x) <==> Valid(m, left[0], x)))
  {
    CombinatorReads(m, f, key, x);
    MatchingIgnoresNullSchemas(m, f[key].elems, x);
    var left := DropNullSchemas(f[key].elems);
    if |left| == 1 { SingleMatch(m, left, x); }
  }

  lemma InlinedIff(m: Interpretation, f: Fields, key: string, x: Value)
    requires IsCombinator(key) && Inlines(f, key) && x != Null
    ensures Valid(m, Object(f), x) && CombinatorGains(m, f, key, x) <==>
      Valid(m, Object(Simplified(f, key)), x) && CombinatorLosses(m, f, key, x)
  {
    CombinatorHolds(m, f, key, x);
    ValidByKeyword(m, f, key, x);
    InliningIff(m, f, key, Alternative(f, key), x);
  }

  /** The filtered combinator demands the same. */
  lemma FilteredHolds(m: Interpretation, f: Fields, key: string, x: Value)
    requires IsCombinator(key) && key in f && f[key].Array? && !Inlines(f, key) && x != Null
    requires DropNullSchemas(f[key].elems) != []
    ensures var g := Simplified(f, key); key in g && (KeyHolds(m, g, key, x) <==> KeyHolds(m, f, key, x))
  {
    CombinatorHolds(m, f, key, x);
    CombinatorReads(m, Simplified(f, key), key, x);
  }

  lemma FilteredIff(m: Interpretation, f: Fields, key: string, x: Value)
    requires IsCombinator(key) && key in f && f[key].Array? && !Inlines(f, key) && x != Null
    ensures Valid(m, Object(f), x) <==> Valid(m, Object(Simplified(f, key)), x) && CombinatorLosses(m, f, key, x)
  {
    CombinatorHolds(m, f, key, x);
    if DropNullSchemas(f[key].elems) != [] {
      FilteredHolds(m, f, key, x);
      OneKeyword(m, f, Simplified(f, key), key, x);
    }
    ValidByKeyword(m, f, key, x);
    ValidByKeyword(m, Simplified(f, key), key, x);
  }

  /**
   A combinator before and after the pass: accepted before with what the pass
   makes new, if and only if accepted after with what it loses.
   */
  lemma CombinatorIff(m: Interpretation, f: Fields, key: string, x: Value)
    requires IsCombinator(key) && x != Null
    ensures Valid(m, Object(f), x) && CombinatorGains(m, f, key, x) <==>
      Valid(m, Object(Simplified(f, key)), x) && CombinatorLosses(m, f, key, x)
  {
    if key in f && f[key].Array? {
      if Inlines(f, key) { InlinedIff(m, f, key, x); } else { FilteredIff(m, f, key, x); }
    }
  }

  // ---- Types, enumerations, constants -----------------------------------------------

  ghost predicate TypeKept(f: Fields) {
    "type" in f && f["type"].Array? ==>
      var kept := DropNullTypes(f["type"].elems);
      kept != [] && (|kept| == 1 ==> !kept[0].Array?)
  }

  ghost predicate EnumKept(f: Fields) {
    "enum" in f && f["enum"].Array? ==> DropNulls(f["enum"].elems) != []
  }

  ghost predicate ConstKept(f: Fields) {
    "const" in f ==> f["const"] != Null
  }

  lemma {:induction false} TypeSurvives(a: seq<Value>, t: Value)
    requires t in a && KeepsType(t)
    ensures t in DropNullTypes(a)
  {
    if t != a[|a|-1] { TypeSurvives(a[..|a|-1], t); }
  }

  lemma TypesSurvive(a: seq<Value>, x: Value)
    requires x != Null
    ensures TypeHolds(Array(DropNullTypes(a)), x) <==> TypeHolds(Array(a), x)
  {
    var kept := DropNullTypes(a);
    if i :| 0 <= i < |a| && NamesType(a[i], x) {
      TypeSurvives(a, a[i]);
      var j :| 0 <= j < |kept| && kept[j] == a[i];
      assert NamesType(kept[j], x);
    }
    if j :| 0 <= j < |kept| && NamesType(kept[j], x) {
      assert kept[j] in kept;
      var i :| 0 <= i < |a| && a[i] == kept[j];
      assert NamesType(a[i], x);
    }
  }

  /** One type left names the same as an array of it. */
  lemma TypeMeans(f: Fields, x: Value)
    requires x != Null && "type" in f && f["type"].Array?
    ensures TypeHolds(f["type"], x) ==> DropNullTypes(f["type"].elems) != []
    ensures var g := TypeNormalized(f);
      TypeKept(f) ==> "type" in g && (TypeHolds(g["type"], x) <==> TypeHolds(f["type"], x))
    ensures TypeHolds(f["type"], x) ==> TypeKept(f)
  {
    var kept := DropNullTypes(f["type"].elems);
    TypesSurvive(f["type"].elems, x);
    if |kept| == 1 { assert TypeHolds(Array(kept), x) <==> NamesType(kept[0], x); }
  }

  /** The type pass loses an instance only with the keyword. */
  lemma TypeIff(m: Interpretation, f: Fields, x: Value)
    requires x != Null
    ensures Valid(m, Object(f), x) <==> Valid(m, Object(TypeNormalized(f)), x) && TypeKept(f)
  {
    if "type" in f && f["type"].Array? {
      TypeMeans(f, x);
      if TypeKept(f) {
        OneKeyword(m, f, TypeNormalized(f), "type", x);
      } else {
        assert !KeyHolds(m, f, "type", x);
      }
    }
  }

  lemma {:induction false} ValueSurvives(a: seq<Value>, v: Value)
    requires v in a && v != Null
    ensures v in DropNulls(a)
  {
    if v != a[|a|-1] { ValueSurvives(a[..|a|-1], v); }
  }

  /** Removing nulls and repetitions keeps the enumerated non-null values. */
  lemma EnumeratesTheSame(a: seq<Value>, x: Value)
    requires x != Null
    ensures Enumerates(Distinct(DropNulls(a)), x) <==> Enumerates(a, x)
  {
    forall v | v in a && SameValue(v, x) ensures v in Distinct(DropNulls(a)) {
      ValueSurvives(a, v);
    }
  }

  lemma EnumMeans(f: Fields, x: Value)
    requires x != Null && "enum" in f && f["enum"].Array?
    ensures Enumerates(f["enum"].elems, x) ==> EnumKept(f)
    ensures var g := EnumNormalized(f);
      EnumKept(f) ==>
        && "enum" in g && g["enum"].Array?
        && (Enumerates(g["enum"].elems, x) <==> Enumerates(f["enum"].elems, x))
  {
    EnumeratesTheSame(f["enum"].elems, x);
    var kept := DropNulls(f["enum"].elems);
    if kept != [] { assert kept[0] in Distinct(kept); }
  }

  lemma EnumIff(m: Interpretation, f: Fields, x: Value)
    requires x != Null
    ensures Valid(m, Object(f), x) <==> Valid(m, Object(EnumNormalized(f)), x) && EnumKept(f)
  {
    if "enum" in f && f["enum"].Array? {
      EnumMeans(f, x);
      if EnumKept(f) {
        OneKeyword(m, f, EnumNormalized(f), "enum", x);
      } else {
        assert !KeyHolds(m, f, "enum", x);
      }
    }
  }

  lemma ConstIff(m: Interpretation, f: Fields, x: Value)
    requires x != Null
    ensures Valid(m, Object(f), x) <==> Valid(m, Object(ConstNormalized(f)), x) && ConstKept(f)
  {
    if !ConstKept(f) { assert !KeyHolds(m, f, "const", x); }
  }

  // ---- All passes over one node -----------------------------------------------------------

  /** No keyword is emptied, and the instance meets what the passes lose. */
  ghost predicate NodeLosses(m: Interpretation, f: Fields, x: Value) {
    && CombinatorLosses(m, f, "anyOf", x)
    && CombinatorLosses(m, Simplified(f, "anyOf"), "oneOf", x)
    && TypeKept(Combined(f))
    && EnumKept(TypeNormalized(Combined(f)))
    && ConstKept(EnumNormalized(TypeNormalized(Combined(f))))
  }

  /** The instance meets what the passes make new. */
  ghost predicate NodeGains(m: Interpretation, f: Fields, x: Value) {
    CombinatorGains(m, f, "anyOf", x) && CombinatorGains(m, Simplified(f, "anyOf"), "oneOf", x)
  }

  lemma PostPassesIff(m: Interpretation, f: Fields, x: Value)
    requires x != Null
    ensures Valid(m, Object(f), x) && NodeGains(m, f, x) <==> Valid(m, Object(PostPasses(f)), x) && NodeLosses(m, f, x)
  {
    CombinatorIff(m, f, "anyOf", x);
    CombinatorIff(m, Simplified(f, "anyOf"), "oneOf", x);
    TypeIff(m, Combined(f), x);
    EnumIff(m, TypeNormalized(Combined(f)), x);
    ConstIff(m, EnumNormalized(TypeNormalized(Combined(f))), x);
  }
}
