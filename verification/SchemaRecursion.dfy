/**
 What schema normalization preserves: the passes of `SchemaMeaning`, put
 together by the recursion of `SchemaNormalizer`.
 */
module SchemaRecursion {
  import opened Common
  import opened Json
  import opened SchemaNormalizer
  import opened SchemaMeaning

  // ---- The fragment ----------------------------------------------------------

  /** Keywords whose meaning depends on their siblings, in another way than `additionalProperties`. */
  predicate ReadsSiblings(k: string) {
    || k == "patternProperties" || k == "additionalItems" || k == "prefixItems"
    || k == "unevaluatedProperties" || k == "unevaluatedItems"
    || k == "minContains" || k == "maxContains"
    || k == "if" || k == "then" || k == "else"
    || k == "$id"
  }

  /** No such keyword, of whose siblings `m` knows nothing, occurs where the schema or an alternative in it is read. */
  predicate Independent(s: Value) {
    match s
    case Object(f) =>
      forall k | k in f ::
        && !ReadsSiblings(k)
        && (k == "items" || k == "additionalProperties" ==> Independent(f[k]))
        && (k == "properties" && f[k].Object? ==> forall p | p in f[k].fields :: Independent(f[k].fields[p]))
        && ((k == "anyOf" || k == "oneOf") && f[k].Array? ==> forall a | a in f[k].elems :: Independent(a))
    case _ => true
  }

  /** The object values that the recursion enters are subschemas, or `properties` tables of subschemas. */
  predicate Enterable(s: Value) {
    match s
    case Object(f) =>
      forall k | k in f && !Skipped(k) && f[k].Object? ::
        || ((k == "items" || k == "additionalProperties") && Enterable(f[k]))
        || (k == "properties" &&
            forall p | p in f[k].fields :: IsSchema(f[k].fields[p]) && Enterable(f[k].fields[p]))
    case _ => true
  }

  predicate InFragment(s: Value) {
    Enterable(s) && Independent(s)
  }

  // ---- One level of the recursion -----------------------------------------------

  /** No reference ever resolves: the table passed down starts, and stays, empty. */
  lemma ReferencesNeverResolve(f: Fields)
    ensures RefTarget(f, map[]) == None
  {
    if |f| == 1 && "$ref" in f {
      OnlyKey(f, "$ref", "definitions");
      OnlyKey(f, "$ref", "$defs");
    }
  }

  lemma OnlyKey(f: Fields, key: string, other: string)
    requires |f| == 1 && key in f && other != key
    ensures other !in f
  {
    var rest := f.Keys - {key};
    assert |rest| == 0;
    assert other in f ==> other in rest;
  }

  /** An object node is never replaced by a reference's target. */
  lemma NormalizedUnfolds(f: Fields, depth: nat)
    ensures Normalized(Object(f), map[], depth + 1) == Object(PostPasses(RecursedFields(f, map[], depth)))
  {
    ReferencesNeverResolve(f);
  }

  lemma SchemaStaysSchema(s: Value, depth: nat)
    ensures s.Object? ==> Normalized(s, map[], depth).Object?
    ensures IsSchema(s) <==> IsSchema(Normalized(s, map[], depth))
  {
    if s.Object? { ReferencesNeverResolve(s.fields); }
  }

  /** A `properties` table is rewritten entry by entry: the passes see no keyword in it. */
  lemma TableNormalized(table: Fields, depth: nat)
    requires forall p | p in table :: IsSchema(table[p])
    ensures Normalized(Object(table), map[], depth + 1) == Object(RecursedFields(table, map[], depth))
  {
    ReferencesNeverResolve(table);
    var r := RecursedFields(table, map[], depth);
    forall p | p in r ensures IsSchema(r[p]) {
      SchemaStaysSchema(table[p], depth);
    }
    assert PostPasses(r) == r;
  }

  /** How many levels are left for a subschema of a node that has `depth` levels left for its values. */
  function Left(depth: nat, t: Turn): (left: nat)
    ensures left <= depth
  {
    match t
    case Member(p) => if depth > 0 && !Skipped(p) then depth - 1 else 0
    case _ => depth
  }

  /** An entry of the `properties` table, after the recursion. */
  lemma EntryRecursed(f: Fields, depth: nat, p: string)
    requires Enterable(Object(f)) && "properties" in f && f["properties"].Object?
    ensures var after := Normalized(f["properties"], map[], depth);
      && after.Object? && after.fields.Keys == f["properties"].fields.Keys
      && (p in after.fields ==>
            after.fields[p] == Normalized(f["properties"].fields[p], map[], Left(depth, Member(p))))
  {
    if depth > 0 { TableNormalized(f["properties"].fields, depth - 1); }
  }

  /** Before and after the recursion the same parts go to corresponding subschemas. */
  lemma SubRecursed(f: Fields, depth: nat, t: Turn, x: Value)
    requires Enterable(Object(f))
    ensures var r := RecursedFields(f, map[], depth);
      && Named(r) == Named(f)
      && (Has(r, t) <==> Has(f, t)) && (Takes(r, t, x) <==> Takes(f, t, x))
      && (Has(f, t) ==> Sub(r, t) == Normalized(Sub(f, t), map[], Left(depth, t)))
  {
    NamedRecursed(f, depth);
    if Keyword(t) in f { SchemaStaysSchema(f[Keyword(t)], depth); }
    if t.Member? && "properties" in f && f["properties"].Object? { EntryRecursed(f, depth, t.p); }
  }

  lemma NamedRecursed(f: Fields, depth: nat)
    requires Enterable(Object(f))
    ensures Named(RecursedFields(f, map[], depth)) == Named(f)
  {
    if "properties" in f && f["properties"].Object? { EntryRecursed(f, depth, ""); }
  }

  /** Every other keyword is as it was. */
  lemma OtherRecursed(f: Fields, depth: nat, k: string)
    requires Enterable(Object(f)) && k in f
    ensures var r := RecursedFields(f, map[], depth);
      (Applies(k, r[k]) <==> Applies(k, f[k])) && (!Applies(k, f[k]) ==> r[k] == f[k])
  {
    SchemaStaysSchema(f[k], depth);
  }

  // ---- Arrays are not entered ---------------------------------------------------

  /** Both hold the same array there, or neither holds one. */
  predicate SameArray(f: Fields, g: Fields, key: string) {
    && (key in f && f[key].Array? <==> key in g && g[key].Array?)
    && (key in f && f[key].Array? ==> f[key] == g[key])
  }

  lemma ArraysStay(f: Fields, depth: nat, key: string)
    requires !Skipped(key)
    ensures SameArray(f, RecursedFields(f, map[], depth), key)
  {
    if key in f { SchemaStaysSchema(f[key], depth); }
  }

  lemma SimplifiedAlike(f: Fields, g: Fields, key: string, other: string)
    requires SameArray(f, g, key) && SameArray(f, g, other) && key != other
    ensures SameArray(Simplified(f, key), Simplified(g, key), other)
  {
  }

  // ---- What the recursion gains and loses ------------------------------------------

  /** Null is not met: no visited node applies to it. */
  ghost predicate MeetsNoNull(s: Value, depth: nat, x: Value)
    decreases depth
  {
    depth > 0 && s.Object? ==>
      && x != Null
      && forall t | Takes(s.fields, t, x) :: MeetsNoNull(Sub(s.fields, t), Left(depth - 1, t), Part(x, t))
  }

  /** At no visited node is a keyword emptied, and the instance meets what the passes lose there. */
  ghost predicate Lossless(m: Interpretation, s: Value, depth: nat, x: Value)
    decreases depth
  {
    depth > 0 && s.Object? ==>
      && NodeLosses(m, RecursedFields(s.fields, map[], depth - 1), x)
      && forall t | Takes(s.fields, t, x) :: Lossless(m, Sub(s.fields, t), Left(depth - 1, t), Part(x, t))
  }

  /** At every visited node the instance meets what the passes make new there. */
  ghost predicate Gainless(m: Interpretation, s: Value, depth: nat, x: Value)
    decreases depth
  {
    depth > 0 && s.Object? ==>
      && NodeGains(m, RecursedFields(s.fields, map[], depth - 1), x)
      && forall t | Takes(s.fields, t, x) :: Gainless(m, Sub(s.fields, t), Left(depth - 1, t), Part(x, t))
  }

  ghost predicate Equivalent(m: Interpretation, s: Value, depth: nat, x: Value) {
    Valid(m, s, x) && Gainless(m, s, depth, x) <==> Valid(m, Normalized(s, map[], depth), x) && Lossless(m, s, depth, x)
  }

  ghost predicate TurnsValid(m: Interpretation, f: Fields, x: Value) {
    forall t | Takes(f, t, x) :: Valid(m, Sub(f, t), Part(x, t))
  }

  ghost predicate AssertionsHold(m: Interpretation, f: Fields, x: Value) {
    forall k | k in f && !Applies(k, f[k]) :: Holds(m, k, f[k], x)
  }

  lemma ValidSplits(m: Interpretation, f: Fields, x: Value)
    ensures Valid(m, Object(f), x) <==> AssertionsHold(m, f, x) && TurnsValid(m, f, x)
  {
    if Valid(m, Object(f), x) {
      forall t | Takes(f, t, x) ensures Valid(m, Sub(f, t), Part(x, t)) {
        assert KeyHolds(m, f, Keyword(t), x);
      }
      forall k | k in f && !Applies(k, f[k]) ensures Holds(m, k, f[k], x) {
        assert KeyHolds(m, f, k, x);
      }
    }
  }

  lemma AssertionsRecursed(m: Interpretation, f: Fields, depth: nat, x: Value)
    requires Enterable(Object(f))
    ensures AssertionsHold(m, f, x) <==> AssertionsHold(m, RecursedFields(f, map[], depth), x)
  {
    forall k | k in f
      ensures var r := RecursedFields(f, map[], depth);
        (Applies(k, r[k]) <==> Applies(k, f[k])) && (!Applies(k, f[k]) ==> r[k] == f[k])
    {
      OtherRecursed(f, depth, k);
    }
  }

  ghost predicate TurnsGainless(m: Interpretation, f: Fields, depth: nat, x: Value) {
    forall t | Takes(f, t, x) :: Gainless(m, Sub(f, t), Left(depth, t), Part(x, t))
  }

  ghost predicate TurnsLossless(m: Interpretation, f: Fields, depth: nat, x: Value) {
    forall t | Takes(f, t, x) :: Lossless(m, Sub(f, t), Left(depth, t), Part(x, t))
  }

  lemma TurnsEquivalent(m: Interpretation, f: Fields, depth: nat, x: Value)
    requires Enterable(Object(f))
    requires forall t | Takes(f, t, x) :: Equivalent(m, Sub(f, t), Left(depth, t), Part(x, t))
    ensures TurnsValid(m, f, x) && TurnsGainless(m, f, depth, x) <==>
      TurnsValid(m, RecursedFields(f, map[], depth), x) && TurnsLossless(m, f, depth, x)
  {
    var r := RecursedFields(f, map[], depth);
    forall t
      ensures Takes(r, t, x) <==> Takes(f, t, x)
      ensures Takes(f, t, x) ==> Sub(r, t) == Normalized(Sub(f, t), map[], Left(depth, t))
      ensures Takes(f, t, x) ==> Equivalent(m, Sub(f, t), Left(depth, t), Part(x, t))
    {
      SubRecursed(f, depth, t, x);
    }
  }

  lemma SubEnterable(f: Fields, t: Turn)
    requires Enterable(Object(f)) && Has(f, t)
    ensures Enterable(Sub(f, t))
  {
    assert !Skipped(Keyword(t));
  }

  lemma {:induction false} NodeEquivalent(m: Interpretation, f: Fields, depth: nat, x: Value)
    requires Enterable(Object(f)) && MeetsNoNull(Object(f), depth + 1, x)
    ensures Equivalent(m, Object(f), depth + 1, x)
    decreases depth + 1, 0
  {
    var r := RecursedFields(f, map[], depth);
    forall t | Takes(f, t, x) ensures Equivalent(m, Sub(f, t), Left(depth, t), Part(x, t)) {
      SubEnterable(f, t);
      NormalizationEquivalent(m, Sub(f, t), Left(depth, t), Part(x, t));
    }
    TurnsEquivalent(m, f, depth, x);
    AssertionsRecursed(m, f, depth, x);
    ValidSplits(m, f, x);
    ValidSplits(m, r, x);
    PostPassesIff(m, r, x);
    NormalizedUnfolds(f, depth);
  }

  lemma {:induction false} NormalizationEquivalent(m: Interpretation, s: Value, depth: nat, x: Value)
    requires Enterable(s) && MeetsNoNull(s, depth, x)
    ensures Equivalent(m, s, depth, x)
    decreases depth, 1
  {
    if depth > 0 && s.Object? { NodeEquivalent(m, s.fields, depth - 1, x); }
  }

  // ---- When nothing is lost --------------------------------------------------------

  /** The combinator is not emptied, and inlining changes no keyword of either side. */
  ghost predicate CombinatorKept(f: Fields, key: string) {
    key in f && f[key].Array? ==>
      && DropNullSchemas(f[key].elems) != []
      && (Inlines(f, key) ==>
            var alt := Alternative(f, key);
            var g := WithoutKey(f, key) + alt;
            (forall k | k in f && k != key :: !Changed(f, g, k)) && (forall k | k in alt :: !Changed(alt, g, k)))
  }

  ghost predicate NodeKept(f: Fields) {
    && CombinatorKept(f, "anyOf")
    && CombinatorKept(Simplified(f, "anyOf"), "oneOf")
    && TypeKept(Combined(f))
    && EnumKept(TypeNormalized(Combined(f)))
    && ConstKept(EnumNormalized(TypeNormalized(Combined(f))))
  }

  /** No pass changes or empties a keyword at any node that the recursion visits. */
  ghost predicate NothingLost(s: Value, depth: nat)
    decreases depth
  {
    depth > 0 && s.Object? ==>
      && NodeKept(RecursedFields(s.fields, map[], depth - 1))
      && forall t | Has(s.fields, t) :: NothingLost(Sub(s.fields, t), Left(depth - 1, t))
  }

  lemma KeptLosesNothing(m: Interpretation, f: Fields, key: string, x: Value)
    requires CombinatorKept(f, key)
    ensures CombinatorLosses(m, f, key, x) && CombinatorGains(m, f, key, x)
  {
  }

  lemma {:induction false} NothingLostSuffices(m: Interpretation, s: Value, depth: nat, x: Value)
    requires NothingLost(s, depth)
    ensures Lossless(m, s, depth, x) && Gainless(m, s, depth, x)
    decreases depth
  {
    if depth > 0 && s.Object? {
      var f, r := s.fields, RecursedFields(s.fields, map[], depth - 1);
      KeptLosesNothing(m, r, "anyOf", x);
      KeptLosesNothing(m, Simplified(r, "anyOf"), "oneOf", x);
      forall t | Takes(f, t, x)
        ensures Lossless(m, Sub(f, t), Left(depth - 1, t), Part(x, t))
        ensures Gainless(m, Sub(f, t), Left(depth - 1, t), Part(x, t))
      {
        NothingLostSuffices(m, Sub(f, t), Left(depth - 1, t), Part(x, t));
      }
    }
  }

  // ---- What normalization preserves ------------------------------------------------

  lemma {:induction false} NullFreeMeetsNoNull(s: Value, depth: nat, x: Value)
    requires NullFree(x)
    ensures MeetsNoNull(s, depth, x)
    decreases depth
  {
    if depth > 0 && s.Object? {
      forall t | Takes(s.fields, t, x) ensures MeetsNoNull(Sub(s.fields, t), Left(depth - 1, t), Part(x, t)) {
        NullFreeMeetsNoNull(Sub(s.fields, t), Left(depth - 1, t), Part(x, t));
      }
    }
  }

  /**
   Normalization at any depth: accepted before and not newly forbidden, if and
   only if accepted after and not newly allowed.
   */
  lemma NormalizationIff(m: Interpretation, s: Value, depth: nat, x: Value)
    requires InFragment(s) && MeetsNoNull(s, depth, x)
    ensures Valid(m, s, x) && Gainless(m, s, depth, x) <==>
      Valid(m, Normalized(s, map[], depth), x) && Lossless(m, s, depth, x)
  {
    NormalizationEquivalent(m, s, depth, x);
  }

  /** Where no pass changes or empties a keyword, the same instances are accepted. */
  lemma NormalizationExact(m: Interpretation, s: Value, depth: nat, x: Value)
    requires InFragment(s) && MeetsNoNull(s, depth, x) && NothingLost(s, depth)
    ensures Valid(m, Normalized(s, map[], depth), x) <==> Valid(m, s, x)
  {
    NothingLostSuffices(m, s, depth, x);
    NormalizationEquivalent(m, s, depth, x);
  }
}
