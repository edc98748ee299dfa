/** When tools are normalized, and how deep. */
module SchemaTools {
  import opened Common
  import opened Json
  import opened JsonPointer
  import opened SchemaNormalizer

  /** The node at the path has a member that is a reference or holds definitions. */
  predicate Mentions(v: Value, p: Path) {
    match At(v, p)
    case Some(Object(f)) => "$ref" in f || "$defs" in f || "definitions" in f
    case _ => false
  }

  ghost predicate MentionsSomewhere(v: Value) {
    exists p :: Mentions(v, p)
  }

  lemma ChildMentions(v: Value, s: Segment, p: Path)
    requires Child(v, s).Some? && Mentions(Child(v, s).value, p)
    ensures Mentions(v, [s] + p)
  {
    assert ([s] + p)[1..] == p;
  }

  lemma {:induction false} FoundIsMentioned(v: Value)
    requires HasRefOrDefs(v)
    ensures MentionsSomewhere(v)
  {
    match v
    case Object(f) =>
      if "$ref" in f || "$defs" in f || "definitions" in f {
        assert Mentions(v, []);
      } else {
        var k :| k in f && HasRefOrDefs(f[k]);
        FoundIsMentioned(f[k]);
        var p :| Mentions(f[k], p);
        ChildMentions(v, Key(k), p);
      }
    case Array(a) =>
      var i :| 0 <= i < |a| && HasRefOrDefs(a[i]);
      FoundIsMentioned(a[i]);
      var p :| Mentions(a[i], p);
      ChildMentions(v, Index(i), p);
  }

  lemma {:induction false} MentionedIsFound(v: Value, p: Path)
    requires Mentions(v, p)
    ensures HasRefOrDefs(v)
    decreases |p|
  {
    if p != [] { MentionedIsFound(Child(v, p[0]).value, p[1..]); }
  }

  /** The scan finds a reference or definitions wherever they are. */
  lemma HasRefOrDefsIff(v: Value)
    ensures HasRefOrDefs(v) <==> MentionsSomewhere(v)
  {
    if HasRefOrDefs(v) { FoundIsMentioned(v); }
    if p :| Mentions(v, p) { MentionedIsFound(v, p); }
  }

  const PARAMETERS: Path := [Key("function"), Key("parameters")]

  lemma ParametersAt(tool: Value)
    ensures Parameters(tool) == At(tool, PARAMETERS)
  {
    assert PARAMETERS[1..] == [Key("parameters")] && [Key("parameters")][1..] == [];
  }

  /** Some tool's parameters mention a reference or definitions. */
  ghost predicate AnyToolMentions(tools: seq<Value>) {
    exists i :: 0 <= i < |tools| && At(tools[i], PARAMETERS).Some? && MentionsSomewhere(At(tools[i], PARAMETERS).value)
  }

  lemma NeedsIff(tools: seq<Value>)
    ensures NeedsNormalization(Array(tools)) <==> AnyToolMentions(tools)
  {
    forall i | 0 <= i < |tools| && Parameters(tools[i]).Some?
      ensures HasRefOrDefs(Parameters(tools[i]).value) <==> MentionsSomewhere(Parameters(tools[i]).value)
    {
      HasRefOrDefsIff(Parameters(tools[i]).value);
    }
    forall i | 0 <= i < |tools| ensures Parameters(tools[i]) == At(tools[i], PARAMETERS) {
      ParametersAt(tools[i]);
    }
  }

  /** Nothing to resolve: nothing changes, nor does what is no array of tools. */
  lemma ToolsUntouched(tools: Value)
    requires tools.Array? ==> !AnyToolMentions(tools.elems)
    ensures ToolsNormalized(tools) == tools
  {
    if tools.Array? { NeedsIff(tools.elems); }
  }

  /**
   Otherwise every tool's parameters are put into normal form, twelve levels deep,
   also those that mention nothing; a tool without parameters stays.
   */
  lemma EveryToolNormalized(tools: seq<Value>, i: nat)
    requires AnyToolMentions(tools) && i < |tools|
    ensures var out := ToolsNormalized(Array(tools));
      && out.Array? && |out.elems| == |tools|
      && match At(tools[i], PARAMETERS)
         case Some(p) => At(out.elems[i], PARAMETERS) == Some(Normalized(p, map[], 12))
         case None => out.elems[i] == tools[i]
  {
    NeedsIff(tools);
    ParametersAt(tools[i]);
    ParametersAt(ToolNormalized(tools[i]));
  }
}
