/** What a normalized schema looks like, and how deep the normalization goes. */
module SchemaShape {
  import opened Common
  import opened Json
  import JsonPointer
  import opened SchemaNormalizer
  import opened SchemaMeaning
  import opened SchemaRecursion

  // ---- The form of the result --------------------------------------------------

  /** No `type` entry is itself an array. */
  predicate FlatTypes(f: Fields) {
    "type" in f && f["type"].Array? ==> forall t | t in f["type"].elems :: !t.Array?
  }

  predicate TypeInNormalForm(f: Fields) {
    "type" in f && f["type"].Array? ==>
      |f["type"].elems| >= 2 && forall t | t in f["type"].elems :: t !in {Null, String("null"), String("")}
  }

  predicate EnumInNormalForm(f: Fields) {
    "enum" in f && f["enum"].Array? ==>
      && f["enum"].elems != []
      && Null !in f["enum"].elems
      && forall i, j | 0 <= i < j < |f["enum"].elems| :: f["enum"].elems[i] != f["enum"].elems[j]
  }

  /** Inlining this combinator brings a keyword of that name. */
  predicate Overwrites(f: Fields, key: string, k: string) {
    Inlines(f, key) && k in Alternative(f, key)
  }

  /** Two or more alternatives, or one that could not be inlined, and none that accepts just null. */
  predicate CombinatorInNormalForm(f: Fields, key: string) {
    key in f && f[key].Array? ==>
      && f[key].elems != []
      && (forall s | s in f[key].elems :: !IsNullForm(s))
      && (|f[key].elems| == 1 ==> !f[key].elems[0].Object?)
  }

  lemma CombinatorForm(f: Fields, key: string)
    ensures !Inlines(f, key) ==> CombinatorInNormalForm(Simplified(f, key), key)
  {
    if key in f && f[key].Array? && !Inlines(f, key) {
      forall s | s in DropNullSchemas(f[key].elems) ensures !IsNullForm(s) { NullSchemaForms(s); }
    }
  }

  /** One alternative left, an object: its members take the combinator's place, over those of the same name. */
  lemma InlinedForm(f: Fields, key: string, k: string)
    requires Inlines(f, key)
    ensures var g, alt := Simplified(f, key), Alternative(f, key);
      && (k in g <==> k in alt || (k in f && k != key))
      && (k in g ==> g[k] == if k in alt then alt[k] else f[k])
  {
  }

  /** A pass over one combinator leaves the other keys alone, unless an alternative brings them. */
  lemma OthersKept(f: Fields, key: string, k: string)
    requires k != key && !Overwrites(f, key, k)
    ensures (k in Simplified(f, key) <==> k in f) && (k in f ==> Simplified(f, key)[k] == f[k])
  {
  }

  /** The passes after the combinators touch three keywords. */
  lemma AssertionPassesKeep(f: Fields, k: string)
    requires k !in {"type", "enum", "const"}
    ensures var g := ConstNormalized(EnumNormalized(TypeNormalized(f)));
      (k in g <==> k in f) && (k in f ==> g[k] == f[k])
  {
  }

  lemma Brought(f: Fields, key: string)
    requires Inlines(f, key) && !Overwrites(f, key, key)
    ensures key !in Simplified(f, key)
  {
  }

  /** The combinators of a node after its passes, unless an inlined alternative brought them. */
  lemma CombinatorsForm(f: Fields)
    ensures !Overwrites(f, "anyOf", "anyOf") && !Overwrites(Simplified(f, "anyOf"), "oneOf", "anyOf") ==>
      CombinatorInNormalForm(PostPasses(f), "anyOf")
    ensures !Overwrites(Simplified(f, "anyOf"), "oneOf", "oneOf") ==> CombinatorInNormalForm(PostPasses(f), "oneOf")
  {
    var g := Simplified(f, "anyOf");
    AssertionPassesKeep(Combined(f), "anyOf");
    AssertionPassesKeep(Combined(f), "oneOf");
    CombinatorForm(f, "anyOf");
    CombinatorForm(g, "oneOf");
    if !Overwrites(f, "anyOf", "anyOf") && !Overwrites(g, "oneOf", "anyOf") {
      if Inlines(f, "anyOf") { Brought(f, "anyOf"); }
      OthersKept(g, "oneOf", "anyOf");
    }
    if !Overwrites(g, "oneOf", "oneOf") && Inlines(g, "oneOf") { Brought(g, "oneOf"); }
  }

  /** What the passes of one node leave. */
  ghost predicate IsPassed(r: Fields, g: Fields) {
    && (FlatTypes(Combined(r)) ==> TypeInNormalForm(g))
    && EnumInNormalForm(g)
    && ("const" in g ==> g["const"] != Null)
    && (!Overwrites(r, "anyOf", "anyOf") && !Overwrites(Simplified(r, "anyOf"), "oneOf", "anyOf") ==>
          CombinatorInNormalForm(g, "anyOf"))
    && (!Overwrites(Simplified(r, "anyOf"), "oneOf", "oneOf") ==> CombinatorInNormalForm(g, "oneOf"))
  }

  /**
   What every visited node ends up as: a `type` array names two or more real
   types, an `enum` array is non-empty, null-free and without repetition, there
   is no null `const`, and a combinator of its own holds alternatives that are
   not just null, and more than one if it could be inlined.
   */
  lemma VisitedNodeForm(f: Fields, depth: nat)
    ensures exists g ::
      Normalized(Object(f), map[], depth + 1) == Object(g) && IsPassed(RecursedFields(f, map[], depth), g)
  {
    NormalizedUnfolds(f, depth);
    PostPassesForm(RecursedFields(f, map[], depth));
    CombinatorsForm(RecursedFields(f, map[], depth));
    assert IsPassed(RecursedFields(f, map[], depth), PostPasses(RecursedFields(f, map[], depth)));
  }

  lemma PostPassesForm(f: Fields)
    ensures FlatTypes(Combined(f)) ==> TypeInNormalForm(PostPasses(f))
    ensures EnumInNormalForm(PostPasses(f))
    ensures "const" in PostPasses(f) ==> PostPasses(f)["const"] != Null
  {
    TypeForm(Combined(f));
    EnumForm(TypeNormalized(Combined(f)));
  }

  lemma TypeForm(f: Fields)
    ensures FlatTypes(f) ==> TypeInNormalForm(TypeNormalized(f))
  {
    if "type" in f && f["type"].Array? {
      var kept := DropNullTypes(f["type"].elems);
      if |kept| == 1 { assert kept[0] in kept; }
    }
  }

  lemma EnumForm(f: Fields)
    ensures EnumInNormalForm(EnumNormalized(f))
  {
  }

  // ---- How deep the recursion goes ---------------------------------------------

  /** The recursion enters the node under the key, and no pass puts another in its place. */
  predicate Enters(f: Fields, k: string) {
    && k in f && k !in {"definitions", "$defs", "nullable"} && f[k].Object?
    && !Overwrites(f, "anyOf", k) && !Overwrites(Simplified(f, "anyOf"), "oneOf", k)
  }

  /** Every node on the path is entered. */
  predicate Reaches(s: Value, p: JsonPointer.Path)
    decreases |p|
  {
    p == [] || (p[0].Key? && s.Object? && Enters(s.fields, p[0].k) && Reaches(s.fields[p[0].k], p[1..]))
  }

  lemma SimplifyingKeeps(f: Fields, key: string, k: string)
    requires k in f && f[k].Object? && !Overwrites(f, key, k)
    ensures k in Simplified(f, key) && Simplified(f, key)[k] == f[k]
  {
  }

  lemma TypePassKeeps(f: Fields, k: string)
    requires k in f && f[k].Object?
    ensures k in TypeNormalized(f) && TypeNormalized(f)[k] == f[k]
  {
  }

  lemma EnumPassKeeps(f: Fields, k: string)
    requires k in f && f[k].Object?
    ensures k in EnumNormalized(f) && EnumNormalized(f)[k] == f[k]
  {
  }

  lemma ConstPassKeeps(f: Fields, k: string)
    requires k in f && f[k].Object?
    ensures k in ConstNormalized(f) && ConstNormalized(f)[k] == f[k]
  {
  }

  lemma EnteredStays(f: Fields, k: string, depth: nat)
    requires Enters(f, k)
    ensures var g := PostPasses(RecursedFields(f, map[], depth)); k in g && g[k] == Normalized(f[k], map[], depth)
  {
    var r := RecursedFields(f, map[], depth);
    SchemaStaysSchema(f[k], depth);
    ArraysStay(f, depth, "anyOf");
    ArraysStay(f, depth, "oneOf");
    SimplifiedAlike(f, r, "anyOf", "oneOf");
    SimplifyingKeeps(r, "anyOf", k);
    SimplifyingKeeps(Simplified(r, "anyOf"), "oneOf", k);
    TypePassKeeps(Combined(r), k);
    EnumPassKeeps(TypeNormalized(Combined(r)), k);
    ConstPassKeeps(EnumNormalized(TypeNormalized(Combined(r))), k);
  }

  /** Definitions, and what follows `nullable`, are not entered. */
  lemma DefinitionsStay(f: Fields, k: string, depth: nat)
    requires k in f && k in {"definitions", "$defs", "nullable"}
    requires !Overwrites(f, "anyOf", k) && !Overwrites(Simplified(f, "anyOf"), "oneOf", k)
    ensures var g := PostPasses(RecursedFields(f, map[], depth)); k in g && g[k] == f[k]
  {
    var r := RecursedFields(f, map[], depth);
    ArraysStay(f, depth, "anyOf");
    ArraysStay(f, depth, "oneOf");
    SimplifiedAlike(f, r, "anyOf", "oneOf");
    OthersKept(r, "anyOf", k);
    OthersKept(Simplified(r, "anyOf"), "oneOf", k);
    AssertionPassesKeep(Combined(r), k);
  }

  lemma AtMember(f: Fields, p: JsonPointer.Path)
    requires p != [] && p[0].Key? && p[0].k in f
    ensures JsonPointer.At(Object(f), p) == JsonPointer.At(f[p[0].k], p[1..])
  {
  }

  lemma {:induction false} ReachedIsThere(s: Value, p: JsonPointer.Path)
    requires Reaches(s, p)
    ensures JsonPointer.At(s, p).Some?
    decreases |p|
  {
    if p != [] { ReachedIsThere(s.fields[p[0].k], p[1..]); }
  }

  lemma EnteredMember(f: Fields, p: JsonPointer.Path, depth: nat)
    requires p != [] && p[0].Key? && Enters(f, p[0].k)
    ensures JsonPointer.At(Normalized(Object(f), map[], depth + 1), p) ==
      JsonPointer.At(Normalized(f[p[0].k], map[], depth), p[1..])
  {
    NormalizedUnfolds(f, depth);
    EnteredStays(f, p[0].k, depth);
    AtMember(PostPasses(RecursedFields(f, map[], depth)), p);
  }

  /** How a node comes out that has so many levels left. */
  function AtDepth(node: Value, depth: int): Value {
    if depth >= 0 then Normalized(node, map[], depth) else node
  }

  ghost predicate NormalizedAt(s: Value, p: JsonPointer.Path, depth: nat) {
    var before, after := JsonPointer.At(s, p), JsonPointer.At(Normalized(s, map[], depth), p);
    before.Some? && after == Some(AtDepth(before.value, depth - |p|))
  }

  lemma NormalizedBelow(f: Fields, p: JsonPointer.Path, depth: nat)
    requires p != [] && p[0].Key? && Enters(f, p[0].k) && NormalizedAt(f[p[0].k], p[1..], depth)
    ensures NormalizedAt(Object(f), p, depth + 1)
  {
    EnteredMember(f, p, depth);
    AtMember(f, p);
  }

  lemma {:induction false} ReachedAt(s: Value, p: JsonPointer.Path, depth: nat)
    requires Reaches(s, p)
    ensures NormalizedAt(s, p, depth)
    decreases |p|
  {
    ReachedIsThere(s, p);
    if p != [] && depth > 0 {
      ReachedAt(s.fields[p[0].k], p[1..], depth - 1);
      NormalizedBelow(s.fields, p, depth - 1);
    }
  }

  /**
   The recursion reaches every node that lies less deep than its bound along
   entered nodes: it is normalized in place, with the levels that remain. Deeper
   nodes stay as they are.
   */
  lemma DepthReached(s: Value, p: JsonPointer.Path, depth: nat)
    requires Reaches(s, p)
    ensures JsonPointer.At(s, p).Some?
    ensures JsonPointer.At(Normalized(s, map[], depth), p) == Some(AtDepth(JsonPointer.At(s, p).value, depth - |p|))
  {
    ReachedAt(s, p, depth);
  }

  // ---- What survives in an array --------------------------------------------------

  lemma {:induction false} DropTypesConcat(a: seq<Value>, b: seq<Value>)
    ensures DropNullTypes(a + b) == DropNullTypes(a) + DropNullTypes(b)
  {
    if b == [] {
      assert a + b == a;
    } else {
      assert (a + b)[..|a + b|-1] == a + b[..|b|-1];
      DropTypesConcat(a, b[..|b|-1]);
    }
  }

  /** Of the types null, "null" and the empty name go, all others stay, in order. */
  lemma TypesLeft(a: seq<Value>, t: Value, b: seq<Value>)
    ensures DropNullTypes(a + [t] + b) ==
      DropNullTypes(a) + (if t in {Null, String("null"), String("")} then [] else [t]) + DropNullTypes(b)
    ensures DropNullTypes([]) == []
  {
    DropTypesConcat(a + [t], b);
    DropTypesConcat(a, [t]);
    assert [t][..0] == [];
  }

  lemma {:induction false} DropNullsConcat(a: seq<Value>, b: seq<Value>)
    ensures DropNulls(a + b) == DropNulls(a) + DropNulls(b)
  {
    if b == [] {
      assert a + b == a;
    } else {
      assert (a + b)[..|a + b|-1] == a + b[..|b|-1];
      DropNullsConcat(a, b[..|b|-1]);
    }
  }

  /** Of the enumerated values only null goes; the others stay, in order. */
  lemma ValuesLeft(a: seq<Value>, v: Value, b: seq<Value>)
    ensures DropNulls(a + [v] + b) == DropNulls(a) + (if v == Null then [] else [v]) + DropNulls(b)
    ensures DropNulls([]) == []
  {
    DropNullsConcat(a + [v], b);
    DropNullsConcat(a, [v]);
    assert [v][..0] == [];
  }

  /** Values without repetition stand in the order in which they first occur. */
  lemma {:induction false} FirstOccurrencesInOrder(a: seq<Value>, i: nat, j: nat)
    requires i < j < |Distinct(a)|
    ensures exists k :: 0 <= k < |a| && a[k] == Distinct(a)[i] && Distinct(a)[j] !in a[..k]
  {
    var front, d := a[..|a|-1], Distinct(a[..|a|-1]);
    if j < |d| {
      FirstOccurrencesInOrder(front, i, j);
      var k :| 0 <= k < |front| && front[k] == d[i] && d[j] !in front[..k];
      assert a[k] == Distinct(a)[i] && a[..k] == front[..k];
    } else {
      assert d[i] in front && Distinct(a)[j] !in front;
      var k :| 0 <= k < |front| && front[k] == d[i];
      assert a[k] == Distinct(a)[i] && forall x | x in a[..k] :: x in front;
    }
  }

  // ---- References, if there were definitions ------------------------------------------

  /** A node that is just a reference to a definition handed down would become its normal form. */
  lemma ReferenceResolves(name: string, root: string, defs: Fields, depth: nat)
    requires root in {"#/definitions/", "#/$defs/"} && name in defs
    ensures Normalized(Object(map["$ref" := String(root + name)]), defs, depth + 1) ==
      Normalized(defs[name], map[], depth)
  {
    var f: Fields := map["$ref" := String(root + name)];
    assert |f.Keys| == 1;
    assert (root + name)[|root|..] == name;
    if root == "#/$defs/" {
      assert "#/$defs/"[2] != "#/definitions/"[2] && (root + name)[2] == "#/$defs/"[2];
    }
  }
}
