/** Schemas that show why the hypotheses about normalization are there. */
module SchemaWitnesses {
  import opened Common
  import opened Json
  import opened SchemaNormalizer
  import opened SchemaMeaning
  import opened SchemaRecursion
  import opened SchemaWeakening

  lemma DropSecond(a: Value, b: Value)
    requires !IsNullSchema(a) && IsNullSchema(b)
    ensures DropNullSchemas([a, b]) == [a]
  {
    assert [a, b][..1] == [a];
    assert [a][..0] == [];
    assert DropNullSchemas([a]) == [] + [a];
    assert DropNullSchemas([a, b]) == DropNullSchemas([a]) + [];
  }

  lemma DropSecondType(a: Value, b: Value)
    requires KeepsType(a) && !KeepsType(b)
    ensures DropNullTypes([a, b]) == [a]
  {
    assert [a, b][..1] == [a];
    assert [a][..0] == [];
    assert DropNullTypes([a]) == [] + [a];
    assert DropNullTypes([a, b]) == DropNullTypes([a]) + [];
  }

  /** A flat node is just its passes: arrays are not entered. */
  lemma FlatNormalized(f: Fields, depth: nat)
    requires forall k | k in f :: !f[k].Object?
    ensures Normalized(Object(f), map[], depth + 1) == Object(PostPasses(f))
  {
    NormalizedUnfolds(f, depth);
    assert RecursedFields(f, map[], depth) == f;
  }

  predicate PlainType(f: Fields, t: string) {
    f.Keys == {"type"} && f["type"] == String(t)
  }

  /** With one plain type left, the passes have nothing to do. */
  lemma PlainTypeStays(f: Fields, t: string)
    requires PlainType(f, t)
    ensures Simplified(f, "anyOf") == f
    ensures ConstNormalized(EnumNormalized(TypeNormalized(Simplified(f, "oneOf")))) == f
  {
  }

  lemma PlainTypeMeaning(m: Interpretation, f: Fields, t: string, x: Value)
    requires PlainType(f, t)
    ensures Valid(m, Object(f), x) <==> HasType(t, x)
  {
    assert KeyHolds(m, f, "type", x) <==> HasType(t, x);
  }

  lemma InlinedOver(f: Fields, key: string, alt: Fields, nul: Value)
    requires key in f && f[key] == Array([Object(alt), nul])
    requires IsNullForm(nul) && !IsNullForm(Object(alt))
    ensures Simplified(f, key) == WithoutKey(f, key) + alt
  {
    OneLeft(Object(alt), nul);
  }

  lemma OneLeft(alt: Value, nul: Value)
    requires IsNullForm(nul) && !IsNullForm(alt)
    ensures DropNullSchemas([alt, nul]) == [alt]
  {
    NullSchemaForms(nul);
    NullSchemaForms(alt);
    DropSecond(alt, nul);
  }

  /** One plain type next to a null schema, in a combinator and nothing else. */
  predicate NullablePlain(f: Fields, key: string, alt: Fields, q: string, nul: Value) {
    && f.Keys == {key} && f[key] == Array([Object(alt), nul])
    && PlainType(alt, q) && q != "null" && IsNullForm(nul)
  }

  lemma NullableSimplified(f: Fields, key: string, alt: Fields, q: string, nul: Value)
    requires NullablePlain(f, key, alt, q, nul)
    ensures Simplified(f, key) == alt
  {
    InlinedOver(f, key, alt, nul);
    assert WithoutKey(f, key) + alt == alt;
  }

  lemma AbsentCombinator(f: Fields, key: string)
    requires key !in f
    ensures Simplified(f, key) == f
  {
  }

  /** A nullable plain type becomes the plain type, whichever way null was written. */
  lemma NullableBecomesPlain(f: Fields, key: string, alt: Fields, q: string, nul: Value, depth: nat)
    requires IsCombinator(key) && NullablePlain(f, key, alt, q, nul)
    ensures Normalized(Object(f), map[], depth + 1) == Object(alt)
  {
    FlatNormalized(f, depth);
    NullableSimplified(f, key, alt, q, nul);
    PlainTypeStays(alt, q);
    AbsentCombinator(alt, "oneOf");
    if key == "oneOf" { AbsentCombinator(f, "anyOf"); }
  }

  /** A parent of type `p` with one alternative of type `q` next to a null schema. */
  predicate Colliding(f: Fields, p: string, alt: Fields, q: string, nul: Value) {
    && f.Keys == {"type", "anyOf"} && f["type"] == String(p) && f["anyOf"] == Array([Object(alt), nul])
    && PlainType(alt, q) && q != "null" && IsNullForm(nul)
  }

  lemma CollisionNormalized(f: Fields, p: string, alt: Fields, q: string, nul: Value, depth: nat)
    requires Colliding(f, p, alt, q, nul)
    ensures Normalized(Object(f), map[], depth + 1) == Object(alt)
  {
    FlatNormalized(f, depth);
    InlinedOver(f, "anyOf", alt, nul);
    var g := WithoutKey(f, "anyOf") + alt;
    assert g == alt;
    PlainTypeStays(alt, q);
  }

  /** Inlining over a different `type` loses the parent's. */
  lemma CollisionAcceptsMore(
      m: Interpretation, f: Fields, p: string, alt: Fields, q: string, nul: Value, depth: nat, x: Value)
    requires Colliding(f, p, alt, q, nul)
    requires HasType(q, x) && !HasType(p, x)
    ensures !Valid(m, Object(f), x) && Valid(m, Normalized(Object(f), map[], depth + 1), x)
  {
    assert !KeyHolds(m, f, "type", x);
    CollisionNormalized(f, p, alt, q, nul, depth);
    PlainTypeMeaning(m, alt, q, x);
  }

  /** A schema that allows null next to one other type loses null: hence null-free instances. */
  lemma NullIsNoLongerAccepted(m: Interpretation, f: Fields, p: string, depth: nat)
    requires f.Keys == {"type"} && f["type"] == Array([String(p), String("null")])
    requires p != "" && p != "null"
    ensures Valid(m, Object(f), Null) && !Valid(m, Normalized(Object(f), map[], depth + 1), Null)
  {
    assert NamesType(f["type"].elems[1], Null);
    FlatNormalized(f, depth);
    DropSecondType(String(p), String("null"));
    var g := TypeNormalized(f);
    assert PlainType(g, p);
    PlainTypeStays(g, p);
    PlainTypeMeaning(m, g, p, Null);
  }

  // ---- A schema that normalization strengthens -----------------------------------

  /** A table that lets its one name be anything. */
  predicate AnyMember(table: Value, p: string) {
    table == Object(map[p := Bool(true)])
  }

  /** An object with member `p` and no other, or one with member `q`, or null. */
  predicate Closing(f: Fields, p: string, alt: Fields, q: string, nul: Value) {
    && f.Keys == {"properties", "additionalProperties", "anyOf"}
    && AnyMember(f["properties"], p) && f["additionalProperties"] == Bool(false)
    && f["anyOf"] == Array([Object(alt), nul]) && IsNullForm(nul)
    && alt.Keys == {"properties"} && AnyMember(alt["properties"], q)
  }

  /** Nothing under a table whose one entry is a boolean is touched. */
  lemma AnyMemberStays(table: Value, p: string, depth: nat)
    requires AnyMember(table, p)
    ensures Normalized(table, map[], depth) == table
  {
    if depth > 0 {
      TableNormalized(table.fields, depth - 1);
      assert RecursedFields(table.fields, map[], depth - 1) == table.fields;
    }
  }

  lemma ClosingRecursed(f: Fields, p: string, alt: Fields, q: string, nul: Value, depth: nat)
    requires Closing(f, p, alt, q, nul)
    ensures RecursedFields(f, map[], depth) == f
  {
    AnyMemberStays(f["properties"], p, depth);
  }

  predicate Closed(g: Fields, q: string) {
    && g.Keys == {"properties", "additionalProperties"}
    && AnyMember(g["properties"], q) && g["additionalProperties"] == Bool(false)
  }

  lemma ClosedStays(g: Fields, q: string)
    requires Closed(g, q)
    ensures ConstNormalized(EnumNormalized(TypeNormalized(Simplified(g, "oneOf")))) == g
  {
  }

  /** The alternative's table takes the place of its parent's. */
  lemma ClosingNormalized(f: Fields, p: string, alt: Fields, q: string, nul: Value, depth: nat)
    requires Closing(f, p, alt, q, nul)
    ensures Normalized(Object(f), map[], depth + 1).Object?
    ensures Closed(Normalized(Object(f), map[], depth + 1).fields, q)
  {
    NormalizedUnfolds(f, depth);
    ClosingRecursed(f, p, alt, q, nul, depth);
    InlinedOver(f, "anyOf", alt, nul);
    ClosedStays(Simplified(f, "anyOf"), q);
  }

  /** A closed table accepts a one-member object if and only if the member is the listed one. */
  lemma ClosedMeaning(m: Interpretation, g: Fields, q: string, p: string, v: Value)
    requires Closed(g, q)
    ensures Valid(m, Object(g), Object(map[p := v])) <==> p == q
  {
    var x := Object(map[p := v]);
    if p == q {
      ValidSplits(m, g, x);
    } else {
      assert Takes(g, Rest(p), x) && !Valid(m, Sub(g, Rest(p)), Part(x, Rest(p)));
      assert !KeyHolds(m, g, "additionalProperties", x);
    }
  }

  lemma AnyMemberAccepts(m: Interpretation, f: Fields, p: string, x: Value)
    requires "properties" in f && AnyMember(f["properties"], p)
    ensures KeyHolds(m, f, "properties", x)
  {
  }

  lemma ClosingNames(m: Interpretation, f: Fields, p: string, v: Value)
    requires "properties" in f && AnyMember(f["properties"], p) && "additionalProperties" in f
    requires f["additionalProperties"] == Bool(false)
    ensures KeyHolds(m, f, "additionalProperties", Object(map[p := v]))
  {
    assert forall t | Takes(f, t, Object(map[p := v])) :: !t.Rest?;
  }

  lemma ClosingAlternative(m: Interpretation, f: Fields, alt: Fields, q: string, nul: Value, x: Value)
    requires "anyOf" in f && f["anyOf"] == Array([Object(alt), nul]) && IsNullForm(nul) && x != Null
    requires alt.Keys == {"properties"} && AnyMember(alt["properties"], q)
    ensures KeyHolds(m, f, "anyOf", x)
  {
    AnyMemberAccepts(m, alt, q, x);
    OneLeft(Object(alt), nul);
    CombinatorHolds(m, f, "anyOf", x);
  }

  lemma ClosingAccepts(m: Interpretation, f: Fields, p: string, alt: Fields, q: string, nul: Value, v: Value)
    requires Closing(f, p, alt, q, nul)
    ensures Valid(m, Object(f), Object(map[p := v]))
  {
    AnyMemberAccepts(m, f, p, Object(map[p := v]));
    ClosingNames(m, f, p, v);
    ClosingAlternative(m, f, alt, q, nul, Object(map[p := v]));
  }

  lemma NullSchemaInFragment(nul: Value)
    requires IsNullForm(nul)
    ensures Independent(nul)
  {
  }

  lemma MembersInFragment(g: Fields, p: string)
    requires g.Keys == {"properties"} && AnyMember(g["properties"], p)
    ensures Independent(Object(g))
  {
  }

  lemma OrdinaryKeywords(f: Fields)
    requires f.Keys == {"properties", "additionalProperties", "anyOf"}
    ensures forall k | k in f :: !ReadsSiblings(k)
  {
  }

  lemma ClosingIndependent(f: Fields, p: string, alt: Fields, q: string, nul: Value)
    requires Closing(f, p, alt, q, nul)
    ensures Independent(Object(f))
  {
    MembersInFragment(alt, q);
    NullSchemaInFragment(nul);
    OrdinaryKeywords(f);
    forall a | a in f["anyOf"].elems ensures Independent(a) {
    }
  }

  lemma ClosingEnterable(f: Fields, p: string, alt: Fields, q: string, nul: Value)
    requires Closing(f, p, alt, q, nul)
    ensures Enterable(Object(f))
  {
  }

  lemma ClosingMeetsNoNull(f: Fields, p: string, alt: Fields, q: string, nul: Value, depth: nat, x: Value)
    requires Closing(f, p, alt, q, nul) && x != Null
    ensures MeetsNoNull(Object(f), depth, x)
  {
    if depth > 0 {
      forall t | Takes(f, t, x) ensures !Sub(f, t).Object? {
        assert t.Member? ==> t.p == p;
      }
    }
  }

  /** Nothing else about the schema is unusual, and the instance is refused: the names must be kept. */
  lemma ClosingForbids(
      m: Interpretation, f: Fields, p: string, alt: Fields, q: string, nul: Value, depth: nat, v: Value)
    requires Closing(f, p, alt, q, nul) && p != q
    ensures var x := Object(map[p := v]);
      && InFragment(Object(f)) && MeetsNoNull(Object(f), depth + 1, x)
      && Valid(m, Object(f), x) && !Valid(m, Normalized(Object(f), map[], depth + 1), x)
    ensures !NamesKept(Object(f), depth + 1)
  {
    var x := Object(map[p := v]);
    ClosingIndependent(f, p, alt, q, nul);
    ClosingEnterable(f, p, alt, q, nul);
    ClosingMeetsNoNull(f, p, alt, q, nul, depth + 1, x);
    ClosingAccepts(m, f, p, alt, q, nul, v);
    ClosingNormalized(f, p, alt, q, nul, depth);
    ClosedMeaning(m, Normalized(Object(f), map[], depth + 1).fields, q, p, v);
    if NamesKept(Object(f), depth + 1) { NormalizationWeakens(m, Object(f), depth + 1, x); }
  }
}
