/**
 The tool-schema normalizer of `src/schema_norm.rs`.

 Each rewriting step is a method over the mutable object, proved equal to a
 specification function; what the rewriting preserves is proved about those
 functions in module `SchemaMeaning`. A `&mut Value` is an in-parameter and an
 out-parameter: a JSON tree is uniquely owned, so nothing can alias it.
 */
module SchemaNormalizer {
  import opened Common
  import opened Json

  type Fields = map<string, Value>

  const MAX_DEPTH: nat := 12

  /** Keys whose values the recursion leaves alone. */
  predicate Skipped(key: string) {
    key == "definitions" || key == "$defs" || key == "nullable"
  }

  predicate IsNullSchema(s: Value) {
    && s.Object?
    && |s.fields| == 1
    && (|| ("type" in s.fields && s.fields["type"] == String("null"))
        || ("const" in s.fields && s.fields["const"] == Null)
        || ("enum" in s.fields && s.fields["enum"] == Array([Null])))
  }

  /** A `type` array entry that survives: not null, not `"null"`, not empty. */
  predicate KeepsType(v: Value) {
    v != Null && v != String("null") && v != String("")
  }

  // ---- Specification functions -------------------------------------------

  function DropNullSchemas(a: seq<Value>): (r: seq<Value>)
    ensures forall s | s in r :: !IsNullSchema(s) && s in a
  {
    if a == [] then []
    else DropNullSchemas(a[..|a|-1]) + if IsNullSchema(a[|a|-1]) then [] else [a[|a|-1]]
  }

  function DropNullTypes(a: seq<Value>): (r: seq<Value>)
    ensures forall t | t in r :: KeepsType(t) && t in a
  {
    if a == [] then []
    else DropNullTypes(a[..|a|-1]) + if KeepsType(a[|a|-1]) then [a[|a|-1]] else []
  }

  function DropNulls(a: seq<Value>): (r: seq<Value>)
    ensures Null !in r
    ensures forall v | v in r :: v in a
  {
    if a == [] then []
    else DropNulls(a[..|a|-1]) + if a[|a|-1] == Null then [] else [a[|a|-1]]
  }

  /** First occurrences, in order. */
  function Distinct(a: seq<Value>): (r: seq<Value>)
    ensures forall i, j | 0 <= i < j < |r| :: r[i] != r[j]
    ensures forall v :: v in r <==> v in a
  {
    if a == [] then []
    else
      var d := Distinct(a[..|a|-1]);
      assert a == a[..|a|-1] + [a[|a|-1]];
      if a[|a|-1] in d then d else d + [a[|a|-1]]
  }

  function WithoutKey(f: Fields, key: string): Fields {
    f - {key}
  }

  function Simplified(f: Fields, key: string): Fields {
    if key !in f || !f[key].Array? then f
    else
      var kept := DropNullSchemas(f[key].elems);
      if kept == [] then WithoutKey(f, key)
      else if |kept| == 1 && kept[0].Object? then WithoutKey(f, key) + kept[0].fields
      else f[key := Array(kept)]
  }

  function TypeNormalized(f: Fields): Fields {
    if "type" !in f || !f["type"].Array? then f
    else
      var kept := DropNullTypes(f["type"].elems);
      if kept == [] then WithoutKey(f, "type")
      else if |kept| == 1 then f["type" := kept[0]]
      else f["type" := Array(kept)]
  }

  function EnumNormalized(f: Fields): Fields {
    if "enum" !in f || !f["enum"].Array? then f
    else
      var kept := Distinct(DropNulls(f["enum"].elems));
      if kept == [] then WithoutKey(f, "enum") else f["enum" := Array(kept)]
  }

  function ConstNormalized(f: Fields): Fields {
    if "const" in f && f["const"] == Null then WithoutKey(f, "const") else f
  }

  function Combined(f: Fields): Fields {
    Simplified(Simplified(f, "anyOf"), "oneOf")
  }

  function PostPasses(f: Fields): Fields {
    ConstNormalized(EnumNormalized(TypeNormalized(Combined(f))))
  }

  /** A definition local to the node: `definitions` is searched before `$defs`. */
  function LocalDefinition(f: Fields, name: string): Option<Value> {
    match Get(Object(f), "definitions")
    case Some(Object(d)) => if name in d then Some(d[name]) else DollarDefinition(f, name)
    case _ => DollarDefinition(f, name)
  }

  function DollarDefinition(f: Fields, name: string): Option<Value> {
    match Get(Object(f), "$defs")
    case Some(d) => Get(d, name)
    case None => None
  }

  function RefName(ref: string): Option<string> {
    if "#/definitions/" <= ref then Some(ref[|"#/definitions/"|..])
    else if "#/$defs/" <= ref then Some(ref[|"#/$defs/"|..])
    else None
  }

  function ResolveRef(ref: string, local: Fields, defs: Fields): Option<Value> {
    match RefName(ref)
    case None => None
    case Some(name) =>
      match LocalDefinition(local, name)
      case Some(v) => Some(v)
      case None => Get(Object(defs), name)
  }

  /** What a node that is exactly `{"$ref": ...}` stands for, if it resolves. */
  function RefTarget(f: Fields, defs: Fields): Option<Value> {
    if |f| == 1 && "$ref" in f && f["$ref"].String? then ResolveRef(f["$ref"].s, f, defs) else None
  }

  function RecursedFields(f: Fields, defs: Fields, depth: nat): (r: Fields)
    ensures r.Keys == f.Keys
    decreases depth, 1
  {
    map k | k in f :: if Skipped(k) then f[k] else Normalized(f[k], defs, depth)
  }

  function Normalized(node: Value, defs: Fields, depth: nat): (r: Value)
    ensures !node.Object? ==> r == node
    decreases depth, 0
  {
    if depth == 0 || !node.Object? then node
    else
      match RefTarget(node.fields, defs)
      case Some(target) => Normalized(target, map[], depth - 1)
      case None => ObjectNormalized(node.fields, defs, depth - 1)
  }

  /** An object node: first its values, then the node itself. */
  function ObjectNormalized(f: Fields, defs: Fields, depth: nat): (r: Value)
    ensures r.Object?
    decreases depth, 2
  {
    Object(PostPasses(RecursedFields(f, defs, depth)))
  }

  predicate HasRefOrDefs(node: Value) {
    match node
    case Object(f) =>
      || "$ref" in f || "$defs" in f || "definitions" in f
      || exists k | k in f :: HasRefOrDefs(f[k])
    case Array(a) => exists i | 0 <= i < |a| :: HasRefOrDefs(a[i])
    case _ => false
  }

  /** `tool.get("function").and_then(|f| f.get("parameters"))`. */
  function Parameters(tool: Value): Option<Value> {
    match Get(tool, "function")
    case Some(f) => Get(f, "parameters")
    case None => None
  }

  predicate NeedsNormalization(tools: Value) {
    && tools.Array?
    && exists i | 0 <= i < |tools.elems| ::
         var p := Parameters(tools.elems[i]);
         p.Some? && HasRefOrDefs(p.value)
  }

  function WithParameters(tool: Value, p: Value): Value
    requires Parameters(tool).Some?
  {
    var f := tool.fields["function"];
    Object(tool.fields["function" := Object(f.fields["parameters" := p])])
  }

  function ToolNormalized(tool: Value): Value {
    match Parameters(tool)
    case None => tool
    case Some(p) => WithParameters(tool, Normalized(p, map[], MAX_DEPTH))
  }

  function ToolsNormalized(tools: Value): Value {
    if NeedsNormalization(tools) then
      Array(seq(|tools.elems|, i requires 0 <= i < |tools.elems| => ToolNormalized(tools.elems[i])))
    else tools
  }

  // ---- The rewriting, step by step ----------------------------------------

  /** `arr.retain(|s| !is_null_schema(s))`. */
  method RetainAlternatives(elems: seq<Value>) returns (arr: seq<Value>)
    ensures arr == DropNullSchemas(elems)
  {
    arr := [];
    var i := 0;
    while i < |elems|
      invariant 0 <= i <= |elems|
      invariant arr == DropNullSchemas(elems[..i])
    {
      assert elems[..i+1][..i] == elems[..i];
      if !IsNullSchema(elems[i]) { arr := arr + [elems[i]]; }
      i := i + 1;
    }
    assert elems[..i] == elems;
  }

  lemma InsertStep(f: Fields, inlined: Fields, todo: set<string>, key: string)
    requires key in todo && todo <= inlined.Keys
    ensures (f + (inlined - todo))[key := inlined[key]] == f + (inlined - (todo - {key}))
  {
    var before, after := (f + (inlined - todo))[key := inlined[key]], f + (inlined - (todo - {key}));
    assert before.Keys == after.Keys;
    assert forall k | k in after :: after[k] == before[k];
  }

  lemma InsertEnds(f: Fields, inlined: Fields)
    ensures f + (inlined - inlined.Keys) == f && f + (inlined - {}) == f + inlined
  {
    assert inlined - inlined.Keys == map[] && inlined - {} == inlined;
  }

  /** The insertion loop of the inlining branch: later insertions win. */
  method InsertAll(f: Fields, inlined: Fields) returns (obj: Fields)
    ensures obj == f + inlined
  {
    obj := f;
    var todo := inlined.Keys;
    InsertEnds(f, inlined);
    while todo != {}
      invariant todo <= inlined.Keys
      invariant obj == f + (inlined - todo)
      decreases |todo|
    {
      var k :| k in todo;
      InsertStep(f, inlined, todo, k);
      obj := obj[k := inlined[k]];
      todo := todo - {k};
    }
  }

  method SimplifyNullableCombinator(f: Fields, key: string) returns (obj: Fields)
    ensures obj == Simplified(f, key)
  {
    obj := f;
    if key !in f || !f[key].Array? { return; }
    var arr := RetainAlternatives(f[key].elems);
    if |arr| == 0 {
      obj := f - {key};
    } else if |arr| == 1 && arr[0].Object? {
      obj := InsertAll(f - {key}, arr[0].fields);
    } else {
      obj := f[key := Array(arr)];
    }
  }

  method RetainTypes(elems: seq<Value>) returns (arr: seq<Value>)
    ensures arr == DropNullTypes(elems)
  {
    arr := [];
    var i := 0;
    while i < |elems|
      invariant 0 <= i <= |elems|
      invariant arr == DropNullTypes(elems[..i])
    {
      assert elems[..i+1][..i] == elems[..i];
      if elems[i] != Null && (!elems[i].String? || (elems[i].s != "" && elems[i].s != "null")) {
        arr := arr + [elems[i]];
      }
      i := i + 1;
    }
    assert elems[..i] == elems;
  }

  method NormalizeTypeField(f: Fields) returns (obj: Fields)
    ensures obj == TypeNormalized(f)
  {
    obj := f;
    if "type" !in f || !f["type"].Array? { return; }
    var arr := RetainTypes(f["type"].elems);
    if |arr| == 0 {
      obj := f - {"type"};
    } else if |arr| == 1 {
      obj := f["type" := arr[0]];
    } else {
      obj := f["type" := Array(arr)];
    }
  }

  method RetainNonNull(elems: seq<Value>) returns (arr: seq<Value>)
    ensures arr == DropNulls(elems)
  {
    arr := [];
    var i := 0;
    while i < |elems|
      invariant 0 <= i <= |elems|
      invariant arr == DropNulls(elems[..i])
    {
      assert elems[..i+1][..i] == elems[..i];
      if elems[i] != Null { arr := arr + [elems[i]]; }
      i := i + 1;
    }
    assert elems[..i] == elems;
  }

  /** The second `retain`: `seen` holds the values kept so far. */
  method RetainFirstOccurrences(elems: seq<Value>) returns (seen: seq<Value>)
    ensures seen == Distinct(elems)
  {
    seen := [];
    var i := 0;
    while i < |elems|
      invariant 0 <= i <= |elems|
      invariant seen == Distinct(elems[..i])
    {
      assert elems[..i+1][..i] == elems[..i];
      if elems[i] !in seen { seen := seen + [elems[i]]; }
      i := i + 1;
    }
    assert elems[..i] == elems;
  }

  method NormalizeEnumField(f: Fields) returns (obj: Fields)
    ensures obj == EnumNormalized(f)
  {
    obj := f;
    if "enum" !in f || !f["enum"].Array? { return; }
    var arr := RetainNonNull(f["enum"].elems);
    arr := RetainFirstOccurrences(arr);
    obj := if arr == [] then f - {"enum"} else f["enum" := Array(arr)];
  }

  /** The key loop: every value is normalized in place, skipped keys excepted. */
  method RecurseIntoValues(f: Fields, defs: Fields, depth: nat) returns (obj: Fields)
    ensures obj == RecursedFields(f, defs, depth)
    decreases depth, 1
  {
    obj := f;
    ghost var goal := RecursedFields(f, defs, depth);
    var todo := f.Keys;
    while todo != {}
      invariant todo <= obj.Keys == f.Keys
      invariant forall k | k in f :: obj[k] == if k in todo then f[k] else goal[k]
      decreases |todo|
    {
      var key :| key in todo;
      todo := todo - {key};
      if !Skipped(key) {
        var v := NormalizeSchema(f[key], defs, depth);
        obj := obj[key := v];
      }
    }
  }

  /** Everything after the recursion. */
  method RunPostPasses(f: Fields) returns (obj: Fields)
    ensures obj == PostPasses(f)
  {
    obj := SimplifyNullableCombinator(f, "anyOf");
    obj := SimplifyNullableCombinator(obj, "oneOf");
    obj := NormalizeTypeField(obj);
    obj := NormalizeEnumField(obj);
    if "const" in obj && obj["const"] == Null { obj := obj - {"const"}; }
  }

  method NormalizeObject(f: Fields, defs: Fields, depth: nat) returns (out: Value)
    ensures out == ObjectNormalized(f, defs, depth)
    decreases depth, 2
  {
    var obj := RecurseIntoValues(f, defs, depth);
    obj := RunPostPasses(obj);
    out := Object(obj);
  }

  method NormalizeSchema(node: Value, defs: Fields, depth: nat) returns (out: Value)
    ensures out == Normalized(node, defs, depth)
    decreases depth, 0
  {
    if depth == 0 || !node.Object? { return node; }
    var target := RefTarget(node.fields, defs);
    match target {
      case Some(resolved) => out := NormalizeSchema(resolved, map[], depth - 1);
      case None => out := NormalizeObject(node.fields, defs, depth - 1);
    }
  }

  method NormalizeTool(tool: Value) returns (out: Value)
    ensures out == ToolNormalized(tool)
  {
    out := tool;
    var params := Parameters(tool);
    if params.Some? {
      var p := NormalizeSchema(params.value, map[], MAX_DEPTH);
      out := WithParameters(tool, p);
    }
  }

  method NormalizeToolSchemas(tools: Value) returns (out: Value)
    ensures out == ToolsNormalized(tools)
  {
    out := tools;
    if !NeedsNormalization(tools) { return; }
    var arr, i := tools.elems, 0;
    while i < |arr|
      invariant 0 <= i <= |arr| == |tools.elems|
      invariant forall j | 0 <= j < i :: arr[j] == ToolNormalized(tools.elems[j])
      invariant forall j | i <= j < |arr| :: arr[j] == tools.elems[j]
    {
      var tool := NormalizeTool(arr[i]);
      arr := arr[i := tool];
      i := i + 1;
    }
    out := Array(arr);
  }
}
