/**
 What normalization newly forbids, and what it only weakens.

 `additionalProperties` next to another `properties` table reads other names:
 that is all that can forbid an instance accepted before.
 */
module SchemaWeakening {
  import opened Common
  import opened Json
  import opened SchemaNormalizer
  import opened SchemaMeaning
  import opened SchemaRecursion

  // ---- When nothing is gained ------------------------------------------------------

  /**
   The alternative does not put another `properties` table, without a name of
   the parent's, next to the parent's `additionalProperties`.
   */
  predicate InliningKeepsNames(f: Fields, key: string) {
    Inlines(f, key) && "additionalProperties" in f ==>
      var alt := Alternative(f, key);
      "additionalProperties" in alt || ("properties" in alt ==> Named(f) <= Named(alt))
  }

  predicate NodeKeepsNames(f: Fields) {
    InliningKeepsNames(f, "anyOf") && InliningKeepsNames(Simplified(f, "anyOf"), "oneOf")
  }

  /** So at every node that the recursion visits. */
  ghost predicate NamesKept(s: Value, depth: nat)
    decreases depth
  {
    depth > 0 && s.Object? ==>
      && NodeKeepsNames(s.fields)
      && forall t | Has(s.fields, t) :: NamesKept(Sub(s.fields, t), Left(depth - 1, t))
  }

  lemma SimplifiedNames(f: Fields, g: Fields, key: string)
    requires IsCombinator(key) && SameArray(f, g, key) && f.Keys == g.Keys && Named(f) == Named(g)
    ensures Simplified(f, key).Keys == Simplified(g, key).Keys
    ensures Named(Simplified(f, key)) == Named(Simplified(g, key))
  {
  }

  lemma NodeNamesRecursed(f: Fields, depth: nat)
    requires Enterable(Object(f)) && NodeKeepsNames(f)
    ensures NodeKeepsNames(RecursedFields(f, map[], depth))
  {
    var r := RecursedFields(f, map[], depth);
    NamedRecursed(f, depth);
    ArraysStay(f, depth, "anyOf");
    ArraysStay(f, depth, "oneOf");
    SimplifiedAlike(f, r, "anyOf", "oneOf");
    SimplifiedNames(f, r, "anyOf");
  }

  lemma InlinedNames(f: Fields, key: string, alt: Fields)
    requires key in f && key != "properties"
    ensures Named(WithoutKey(f, key) + alt) == if "properties" in alt then Named(alt) else Named(f)
  {
  }

  /** `additionalProperties` demands no more when more names are listed. */
  lemma MoreNamesWeaken(m: Interpretation, f: Fields, g: Fields, x: Value)
    requires "additionalProperties" in f && "additionalProperties" in g
    requires f["additionalProperties"] == g["additionalProperties"] && Named(f) <= Named(g)
    requires KeyHolds(m, f, "additionalProperties", x)
    ensures KeyHolds(m, g, "additionalProperties", x)
  {
    forall t | Takes(g, t, x) && Keyword(t) == "additionalProperties"
      ensures Takes(f, t, x) && Sub(f, t) == Sub(g, t)
    {
    }
  }

  lemma NothingGained(m: Interpretation, f: Fields, key: string, alt: Fields, x: Value)
    requires key in f && IsCombinator(key)
    requires OthersHold(m, f, key, x) && Valid(m, Object(alt), x)
    requires "additionalProperties" in f ==>
      "additionalProperties" in alt || ("properties" in alt ==> Named(f) <= Named(alt))
    ensures GainedHold(m, f, key, alt, x)
  {
    var g, ap := WithoutKey(f, key) + alt, "additionalProperties";
    InlinedNames(f, key, alt);
    if ap in alt {
      MoreNamesWeaken(m, alt, g, x);
    } else if ap in f {
      MoreNamesWeaken(m, f, g, x);
    }
  }

  lemma CombinatorGainless(m: Interpretation, f: Fields, key: string, x: Value)
    requires IsCombinator(key) && x != Null
    requires InliningKeepsNames(f, key) && Valid(m, Object(f), x)
    ensures CombinatorGains(m, f, key, x)
  {
    if Inlines(f, key) {
      CombinatorHolds(m, f, key, x);
      ValidByKeyword(m, f, key, x);
      NothingGained(m, f, key, Alternative(f, key), x);
    }
  }

  lemma NodeGainless(m: Interpretation, f: Fields, x: Value)
    requires x != Null && NodeKeepsNames(f) && Valid(m, Object(f), x)
    ensures NodeGains(m, f, x)
  {
    CombinatorGainless(m, f, "anyOf", x);
    CombinatorIff(m, f, "anyOf", x);
    CombinatorGainless(m, Simplified(f, "anyOf"), "oneOf", x);
  }

  /** A node accepts what its recursed values accept, when nothing was gained in them. */
  lemma RecursedValid(m: Interpretation, f: Fields, depth: nat, x: Value)
    requires Enterable(Object(f)) && MeetsNoNull(Object(f), depth + 1, x)
    requires Valid(m, Object(f), x) && TurnsGainless(m, f, depth, x)
    ensures Valid(m, Object(RecursedFields(f, map[], depth)), x)
  {
    forall t | Takes(f, t, x) ensures Equivalent(m, Sub(f, t), Left(depth, t), Part(x, t)) {
      SubEnterable(f, t);
      NormalizationEquivalent(m, Sub(f, t), Left(depth, t), Part(x, t));
    }
    TurnsEquivalent(m, f, depth, x);
    AssertionsRecursed(m, f, depth, x);
    ValidSplits(m, f, x);
    ValidSplits(m, RecursedFields(f, map[], depth), x);
  }

  lemma {:induction false} NothingIsGained(m: Interpretation, s: Value, depth: nat, x: Value)
    requires Enterable(s) && MeetsNoNull(s, depth, x) && NamesKept(s, depth) && Valid(m, s, x)
    ensures Gainless(m, s, depth, x)
    decreases depth
  {
    if depth > 0 && s.Object? {
      var f := s.fields;
      ValidSplits(m, f, x);
      forall t | Takes(f, t, x) ensures Gainless(m, Sub(f, t), Left(depth - 1, t), Part(x, t)) {
        SubEnterable(f, t);
        NothingIsGained(m, Sub(f, t), Left(depth - 1, t), Part(x, t));
      }
      RecursedValid(m, f, depth - 1, x);
      NodeNamesRecursed(f, depth - 1);
      NodeGainless(m, RecursedFields(f, map[], depth - 1), x);
    }
  }

  // ---- What is newly forbidden -----------------------------------------------------

  /** The keyword reads its siblings. */
  predicate ReadsNames(f: Fields, k: string)
    requires k in f
  {
    k == "additionalProperties" && IsSchema(f[k])
  }

  lemma OwnReading(m: Interpretation, f: Fields, g: Fields, k: string, x: Value)
    requires k in f && k in g && f[k] == g[k] && !ReadsNames(f, k)
    ensures KeyHolds(m, f, k, x) <==> KeyHolds(m, g, k, x)
  {
    forall t | Keyword(t) == k
      ensures k != "additionalProperties" ==> (Takes(f, t, x) <==> Takes(g, t, x))
      ensures Takes(f, t, x) && Takes(g, t, x) ==> Sub(f, t) == Sub(g, t)
    {
    }
  }

  /** The keyword is the one of before, or the instance meets it, unless it reads its siblings. */
  ghost predicate TakenOrMet(m: Interpretation, f: Fields, g: Fields, k: string, x: Value) {
    k in g && !ReadsNames(g, k) ==> (k in f && f[k] == g[k]) || KeyHolds(m, g, k, x)
  }

  lemma AssertionMet(m: Interpretation, f: Fields, k: string, x: Value)
    requires AssertionsHold(m, f, x) && k in f && !Applies(k, f[k])
    ensures KeyHolds(m, f, k, x)
  {
  }

  lemma InlinedTakenOrMet(m: Interpretation, f: Fields, key: string, k: string, x: Value)
    requires IsCombinator(key) && Inlines(f, key) && x != Null && AssertionsHold(m, f, x)
    ensures TakenOrMet(m, f, Simplified(f, key), k, x)
  {
    AssertionMet(m, f, key, x);
    CombinatorHolds(m, f, key, x);
    var alt, g := Alternative(f, key), Simplified(f, key);
    assert g == WithoutKey(f, key) + alt;
    if k in alt && !ReadsNames(g, k) { OwnReading(m, alt, g, k, x); }
  }

  lemma FilteredTakenOrMet(m: Interpretation, f: Fields, key: string, k: string, x: Value)
    requires IsCombinator(key) && key in f && f[key].Array? && !Inlines(f, key)
    requires x != Null && AssertionsHold(m, f, x)
    ensures TakenOrMet(m, f, Simplified(f, key), k, x)
  {
    AssertionMet(m, f, key, x);
    CombinatorHolds(m, f, key, x);
    if DropNullSchemas(f[key].elems) != [] { FilteredHolds(m, f, key, x); }
  }

  lemma CombinatorTakenOrMet(m: Interpretation, f: Fields, key: string, x: Value)
    requires IsCombinator(key) && x != Null && AssertionsHold(m, f, x)
    ensures forall k :: TakenOrMet(m, f, Simplified(f, key), k, x)
  {
    forall k ensures TakenOrMet(m, f, Simplified(f, key), k, x) {
      if key in f && f[key].Array? {
        if Inlines(f, key) { InlinedTakenOrMet(m, f, key, k, x); } else { FilteredTakenOrMet(m, f, key, k, x); }
      }
    }
  }

  lemma TypeTakenOrMet(m: Interpretation, f: Fields, x: Value)
    requires x != Null && AssertionsHold(m, f, x)
    ensures forall k :: TakenOrMet(m, f, TypeNormalized(f), k, x)
  {
    if "type" in f && f["type"].Array? {
      AssertionMet(m, f, "type", x);
      TypeMeans(f, x);
      assert TakenOrMet(m, f, TypeNormalized(f), "type", x);
    }
  }

  lemma EnumTakenOrMet(m: Interpretation, f: Fields, x: Value)
    requires x != Null && AssertionsHold(m, f, x)
    ensures forall k :: TakenOrMet(m, f, EnumNormalized(f), k, x)
  {
    if "enum" in f && f["enum"].Array? {
      AssertionMet(m, f, "enum", x);
      EnumMeans(f, x);
      assert TakenOrMet(m, f, EnumNormalized(f), "enum", x);
    }
  }

  lemma AssertionsStay(m: Interpretation, f: Fields, g: Fields, x: Value)
    requires AssertionsHold(m, f, x) && forall k :: TakenOrMet(m, f, g, k, x)
    ensures AssertionsHold(m, g, x)
  {
    forall k | k in g && !Applies(k, g[k]) ensures Holds(m, k, g[k], x) {
      assert TakenOrMet(m, f, g, k, x);
    }
  }

  lemma TakenTwice(m: Interpretation, f: Fields, g: Fields, h: Fields, x: Value)
    requires forall k :: TakenOrMet(m, f, g, k, x)
    requires forall k :: TakenOrMet(m, g, h, k, x)
    ensures forall k :: TakenOrMet(m, f, h, k, x)
  {
    forall k ensures TakenOrMet(m, f, h, k, x) {
      assert TakenOrMet(m, f, g, k, x) && TakenOrMet(m, g, h, k, x);
      if k in g && k in h && g[k] == h[k] && !ReadsNames(g, k) { OwnReading(m, g, h, k, x); }
    }
  }

  /** The passes that combine alternatives. */
  lemma CombinedTakenOrMet(m: Interpretation, f: Fields, x: Value)
    requires x != Null && AssertionsHold(m, f, x)
    ensures forall k :: TakenOrMet(m, f, Combined(f), k, x)
    ensures AssertionsHold(m, Combined(f), x)
  {
    var g := Simplified(f, "anyOf");
    CombinatorTakenOrMet(m, f, "anyOf", x);
    AssertionsStay(m, f, g, x);
    CombinatorTakenOrMet(m, g, "oneOf", x);
    AssertionsStay(m, g, Combined(f), x);
    TakenTwice(m, f, g, Combined(f), x);
  }

  lemma NodeTakenOrMet(m: Interpretation, f: Fields, x: Value)
    requires x != Null && AssertionsHold(m, f, x)
    ensures forall k :: TakenOrMet(m, f, PostPasses(f), k, x)
    ensures AssertionsHold(m, PostPasses(f), x)
  {
    var g := Combined(f);
    var h := TypeNormalized(g);
    var i := EnumNormalized(h);
    CombinedTakenOrMet(m, f, x);
    TypeTakenOrMet(m, g, x);
    AssertionsStay(m, g, h, x);
    EnumTakenOrMet(m, h, x);
    AssertionsStay(m, h, i, x);
    assert forall k :: TakenOrMet(m, i, PostPasses(f), k, x);
    AssertionsStay(m, i, PostPasses(f), x);
    TakenTwice(m, f, g, h, x);
    TakenTwice(m, f, h, i, x);
    TakenTwice(m, f, i, PostPasses(f), x);
  }

  /**
   At no visited node does the instance fail an `additionalProperties` that
   demands another thing than before the passes. Parts handed to subschemas that
   the passes replaced are not looked at.
   */
  ghost predicate Unforbidden(m: Interpretation, s: Value, depth: nat, x: Value)
    decreases depth
  {
    depth > 0 && s.Object? ==>
      var r := RecursedFields(s.fields, map[], depth - 1);
      var g := PostPasses(r);
      && ("additionalProperties" in g && !Stays(r, g, "additionalProperties") ==>
            KeyHolds(m, g, "additionalProperties", x))
      && forall t | Takes(s.fields, t, x) && Stays(r, g, Keyword(t)) ::
            Unforbidden(m, Sub(s.fields, t), Left(depth - 1, t), Part(x, t))
  }

  predicate Stays(f: Fields, g: Fields, k: string) {
    k in f && !Changed(f, g, k)
  }

  /** What stays hands the same parts to the same subschemas. */
  lemma StaysTakes(f: Fields, depth: nat, t: Turn, x: Value)
    requires Enterable(Object(f))
    requires var r := RecursedFields(f, map[], depth); Stays(r, PostPasses(r), Keyword(t))
    ensures var g := PostPasses(RecursedFields(f, map[], depth));
      && (Takes(g, t, x) <==> Takes(f, t, x))
      && (Takes(f, t, x) ==> Sub(g, t) == Normalized(Sub(f, t), map[], Left(depth, t)))
  {
    SubRecursed(f, depth, t, x);
  }

  lemma TurnMet(m: Interpretation, r: Fields, g: Fields, t: Turn, x: Value)
    requires TakenOrMet(m, r, g, Keyword(t), x) && Takes(g, t, x) && !Stays(r, g, Keyword(t))
    requires "additionalProperties" in g && !Stays(r, g, "additionalProperties") ==>
      KeyHolds(m, g, "additionalProperties", x)
    ensures Valid(m, Sub(g, t), Part(x, t))
  {
    assert KeyHolds(m, g, Keyword(t), x);
  }

  ghost predicate ForbiddenExactly(m: Interpretation, s: Value, depth: nat, x: Value) {
    Valid(m, Normalized(s, map[], depth), x) <==> Unforbidden(m, s, depth, x)
  }

  lemma NodeForbidden(m: Interpretation, f: Fields, depth: nat, x: Value)
    requires Enterable(Object(f)) && x != Null && Valid(m, Object(f), x)
    requires forall t | Takes(f, t, x) :: ForbiddenExactly(m, Sub(f, t), Left(depth, t), Part(x, t))
    ensures ForbiddenExactly(m, Object(f), depth + 1, x)
  {
    NormalizedUnfolds(f, depth);
    var r := RecursedFields(f, map[], depth);
    var g := PostPasses(r);
    ValidSplits(m, f, x);
    ValidSplits(m, g, x);
    AssertionsRecursed(m, f, depth, x);
    NodeTakenOrMet(m, r, x);
    forall t | Takes(f, t, x) && Stays(r, g, Keyword(t))
      ensures Takes(g, t, x)
      ensures Valid(m, Sub(g, t), Part(x, t)) <==> Unforbidden(m, Sub(f, t), Left(depth, t), Part(x, t))
    {
      StaysTakes(f, depth, t, x);
      assert ForbiddenExactly(m, Sub(f, t), Left(depth, t), Part(x, t));
    }
    if Unforbidden(m, Object(f), depth + 1, x) {
      forall t | Takes(g, t, x) ensures Valid(m, Sub(g, t), Part(x, t)) {
        if Stays(r, g, Keyword(t)) { StaysTakes(f, depth, t, x); } else { TurnMet(m, r, g, t, x); }
      }
    }
  }

  lemma {:induction false} ForbiddenNode(m: Interpretation, f: Fields, depth: nat, x: Value)
    requires Enterable(Object(f)) && MeetsNoNull(Object(f), depth + 1, x) && Valid(m, Object(f), x)
    ensures ForbiddenExactly(m, Object(f), depth + 1, x)
    decreases depth + 1, 0
  {
    ValidSplits(m, f, x);
    forall t | Takes(f, t, x) ensures ForbiddenExactly(m, Sub(f, t), Left(depth, t), Part(x, t)) {
      SubEnterable(f, t);
      Forbidden(m, Sub(f, t), Left(depth, t), Part(x, t));
    }
    NodeForbidden(m, f, depth, x);
  }

  lemma {:induction false} Forbidden(m: Interpretation, s: Value, depth: nat, x: Value)
    requires Enterable(s) && MeetsNoNull(s, depth, x) && Valid(m, s, x)
    ensures ForbiddenExactly(m, s, depth, x)
    decreases depth, 1
  {
    if depth > 0 && s.Object? { ForbiddenNode(m, s.fields, depth - 1, x); }
  }

  /** Exactly what normalization forbids of what was accepted. */
  lemma ForbiddenIff(m: Interpretation, s: Value, depth: nat, x: Value)
    requires InFragment(s) && MeetsNoNull(s, depth, x) && Valid(m, s, x)
    ensures Valid(m, Normalized(s, map[], depth), x) <==> Unforbidden(m, s, depth, x)
  {
    Forbidden(m, s, depth, x);
  }

  // ---- Weakening ---

  /**
   Exactly which instances are accepted anew: with the names kept, the schema
   accepts what its normal form accepts of the instances that meet what is lost.
   */
  lemma NormalizationExactIff(m: Interpretation, s: Value, depth: nat, x: Value)
    requires InFragment(s) && MeetsNoNull(s, depth, x) && NamesKept(s, depth)
    ensures Valid(m, s, x) <==> Valid(m, Normalized(s, map[], depth), x) && Lossless(m, s, depth, x)
  {
    NormalizationEquivalent(m, s, depth, x);
    if Valid(m, s, x) { NothingIsGained(m, s, depth, x); }
  }

  /** With the names kept, what was accepted is accepted. */
  lemma NormalizationWeakens(m: Interpretation, s: Value, depth: nat, x: Value)
    requires InFragment(s) && MeetsNoNull(s, depth, x) && NamesKept(s, depth)
    requires Valid(m, s, x)
    ensures Valid(m, Normalized(s, map[], depth), x)
  {
    NormalizationExactIff(m, s, depth, x);
  }

  /**
   For a request's whole tool list: each tool accepts every argument object it
   accepted, and nothing but its parameter schema changes.
   */
  lemma ToolsAcceptMore(m: Interpretation, tools: Value, i: nat, x: Value)
    requires tools.Array? && i < |tools.elems| && Parameters(tools.elems[i]).Some?
    requires var p := Parameters(tools.elems[i]).value;
      InFragment(p) && MeetsNoNull(p, MAX_DEPTH, x) && NamesKept(p, MAX_DEPTH)
    ensures var out := ToolsNormalized(tools);
      && out.Array? && |out.elems| == |tools.elems|
      && Parameters(out.elems[i]).Some?
      && (Valid(m, Parameters(tools.elems[i]).value, x) ==> Valid(m, Parameters(out.elems[i]).value, x))
      && (forall k | k != "function" :: Get(out.elems[i], k) == Get(tools.elems[i], k))
      && (forall k | k != "parameters" ::
            Get(Get(out.elems[i], "function").value, k) == Get(Get(tools.elems[i], "function").value, k))
  {
    if Valid(m, Parameters(tools.elems[i]).value, x) {
      NormalizationWeakens(m, Parameters(tools.elems[i]).value, MAX_DEPTH, x);
    }
  }
}
