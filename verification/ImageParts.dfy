/**
 The positions at which a payload can hold image parts, walked in order by
 `src/vision.rs` and `src/payload.rs`, and what replacing the parts at some of
 them does to the payload.
 */
module ImageParts {
  import opened Common
  import opened Json
  import opened JsonPointer

  // ---- Positions ----------------------------------------------------------------

  /** A part of the system array, of a message's content, or of a tool result inside that. */
  datatype Position = SystemPart(i: nat) | Part(m: nat, c: nat) | Nested(m: nat, c: nat, n: nat)

  const SYSTEM: Path := [Key("system")]
  const MESSAGES: Path := [Key("messages")]

  function ContentPath(m: nat): Path {
    MESSAGES + [Index(m), Key("content")]
  }

  function NestedPath(m: nat, c: nat): Path {
    ContentPath(m) + [Index(c), Key("content")]
  }

  function TypePath(p: Path): Path {
    p + [Key("type")]
  }

  function PathOf(p: Position): Path {
    match p
    case SystemPart(i) => SYSTEM + [Index(i)]
    case Part(m, c) => ContentPath(m) + [Index(c)]
    case Nested(m, c, n) => NestedPath(m, c) + [Index(n)]
  }

  /** The message a position belongs to; -1 for the system. */
  function MessageOf(p: Position): int {
    if p.SystemPart? then -1 else p.m
  }

  /** The length of the array at a path, 0 if there is none. */
  function Count(v: Value, p: Path): nat {
    match ShapeAt(v, p)
    case Elements(n) => n
    case _ => 0
  }

  predicate IsToolResult(v: Value, m: nat, c: nat) {
    ShapeAt(v, TypePath(PathOf(Part(m, c)))) == Leaf(String("tool_result"))
  }

  // ---- The walk -------------------------------------------------------------------

  function SystemWalk(n: nat): seq<Position> {
    if n == 0 then [] else SystemWalk(n - 1) + [SystemPart(n - 1)]
  }

  function NestedWalk(m: nat, c: nat, n: nat): seq<Position> {
    if n == 0 then [] else NestedWalk(m, c, n - 1) + [Nested(m, c, n - 1)]
  }

  /** How many nested parts are walked below a part: those of a tool result, if at all. */
  function NestedCount(v: Value, nested: bool, m: nat, c: nat): nat {
    if nested && IsToolResult(v, m, c) then Count(v, NestedPath(m, c)) else 0
  }

  function ContentWalk(v: Value, nested: bool, m: nat, n: nat): seq<Position> {
    if n == 0 then []
    else ContentWalk(v, nested, m, n - 1) + [Part(m, n - 1)] + NestedWalk(m, n - 1, NestedCount(v, nested, m, n - 1))
  }

  function MessagesWalk(v: Value, nested: bool, n: nat): seq<Position> {
    if n == 0 then []
    else MessagesWalk(v, nested, n - 1) + ContentWalk(v, nested, n - 1, Count(v, ContentPath(n - 1)))
  }

  /** Every position in walk order: the system parts, then the messages' parts. */
  function Walk(v: Value, nested: bool): seq<Position> {
    SystemWalk(Count(v, SYSTEM)) + MessagesWalk(v, nested, Count(v, MESSAGES))
  }

  /** The position exists in the payload and is walked. */
  predicate IsWalked(v: Value, nested: bool, p: Position) {
    match p
    case SystemPart(i) => i < Count(v, SYSTEM)
    case Part(m, c) => m < Count(v, MESSAGES) && c < Count(v, ContentPath(m))
    case Nested(m, c, n) =>
      && m < Count(v, MESSAGES) && c < Count(v, ContentPath(m))
      && n < NestedCount(v, nested, m, c)
  }

  /** The part at a position passes the test. */
  predicate Passes(v: Value, test: Value -> bool, p: Position) {
    match At(v, PathOf(p))
    case Some(part) => test(part)
    case None => false
  }

  function Selected(v: Value, test: Value -> bool, walk: seq<Position>): (r: seq<Position>)
    ensures forall p :: p in r <==> p in walk && Passes(v, test, p)
  {
    if walk == [] then []
    else
      var front, last := walk[..|walk|-1], walk[|walk|-1];
      assert walk == front + [last];
      Selected(v, test, front) + if Passes(v, test, last) then [last] else []
  }

  predicate NoRepeats(s: seq<Position>) {
    forall i, j | 0 <= i < j < |s| :: s[i] != s[j]
  }

  predicate InMessageOrder(s: seq<Position>) {
    forall i, j | 0 <= i < j < |s| :: MessageOf(s[i]) <= MessageOf(s[j])
  }

  lemma NoRepeatsConcat(a: seq<Position>, b: seq<Position>)
    requires NoRepeats(a) && NoRepeats(b) && forall p | p in b :: p !in a
    ensures NoRepeats(a + b)
  {
    forall i, j | 0 <= i < j < |a + b| ensures (a + b)[i] != (a + b)[j] {
      if i < |a| <= j { assert a[i] in a && b[j - |a|] in b; }
    }
  }

  lemma OrderConcat(a: seq<Position>, b: seq<Position>, m: int)
    requires InMessageOrder(a) && InMessageOrder(b)
    requires (forall p | p in a :: MessageOf(p) <= m) && (forall p | p in b :: m <= MessageOf(p))
    ensures InMessageOrder(a + b)
  {
    forall i, j | 0 <= i < j < |a + b| ensures MessageOf((a + b)[i]) <= MessageOf((a + b)[j]) {
      if i < |a| <= j { assert a[i] in a && b[j - |a|] in b; }
    }
  }

  lemma {:induction false} SystemForm(n: nat)
    ensures NoRepeats(SystemWalk(n)) && InMessageOrder(SystemWalk(n))
    ensures forall p :: p in SystemWalk(n) <==> p.SystemPart? && p.i < n
  {
    if n > 0 {
      SystemForm(n - 1);
      NoRepeatsConcat(SystemWalk(n - 1), [SystemPart(n - 1)]);
      OrderConcat(SystemWalk(n - 1), [SystemPart(n - 1)], -1);
    }
  }

  lemma {:induction false} NestedForm(m: nat, c: nat, n: nat)
    ensures NoRepeats(NestedWalk(m, c, n))
    ensures forall p :: p in NestedWalk(m, c, n) <==> p.Nested? && p.m == m && p.c == c && p.n < n
  {
    if n > 0 {
      NestedForm(m, c, n - 1);
      NoRepeatsConcat(NestedWalk(m, c, n - 1), [Nested(m, c, n - 1)]);
    }
  }

  predicate InContent(v: Value, nested: bool, m: nat, n: nat, p: Position) {
    match p
    case SystemPart(_) => false
    case Part(pm, pc) => pm == m && pc < n
    case Nested(pm, pc, pn) => pm == m && pc < n && pn < NestedCount(v, nested, m, pc)
  }

  lemma {:induction false} ContentForm(v: Value, nested: bool, m: nat, n: nat)
    ensures NoRepeats(ContentWalk(v, nested, m, n))
    ensures forall p :: p in ContentWalk(v, nested, m, n) <==> InContent(v, nested, m, n, p)
  {
    if n > 0 {
      var front, below := ContentWalk(v, nested, m, n - 1), NestedWalk(m, n - 1, NestedCount(v, nested, m, n - 1));
      ContentForm(v, nested, m, n - 1);
      NestedForm(m, n - 1, NestedCount(v, nested, m, n - 1));
      NoRepeatsConcat(front, [Part(m, n - 1)]);
      NoRepeatsConcat(front + [Part(m, n - 1)], below);
    }
  }

  predicate InMessages(v: Value, nested: bool, n: nat, p: Position) {
    && !p.SystemPart? && p.m < n
    && InContent(v, nested, p.m, Count(v, ContentPath(p.m)), p)
  }

  lemma OneMessage(s: seq<Position>, m: int)
    requires forall p | p in s :: MessageOf(p) == m
    ensures InMessageOrder(s)
  {
    assert forall i | 0 <= i < |s| :: s[i] in s;
  }

  lemma {:induction false} MessagesMembers(v: Value, nested: bool, n: nat)
    ensures forall p :: p in MessagesWalk(v, nested, n) <==> InMessages(v, nested, n, p)
  {
    if n > 0 {
      MessagesMembers(v, nested, n - 1);
      ContentForm(v, nested, n - 1, Count(v, ContentPath(n - 1)));
    }
  }

  lemma {:induction false} MessagesOrder(v: Value, nested: bool, n: nat)
    ensures NoRepeats(MessagesWalk(v, nested, n)) && InMessageOrder(MessagesWalk(v, nested, n))
  {
    if n > 0 {
      var front, content := MessagesWalk(v, nested, n - 1), ContentWalk(v, nested, n - 1, Count(v, ContentPath(n - 1)));
      MessagesOrder(v, nested, n - 1);
      MessagesMembers(v, nested, n - 1);
      ContentForm(v, nested, n - 1, Count(v, ContentPath(n - 1)));
      OneMessage(content, n - 1);
      NoRepeatsConcat(front, content);
      OrderConcat(front, content, n - 1);
    }
  }

  /** The walk visits exactly the walked positions. */
  lemma WalkMembers(v: Value, nested: bool)
    ensures forall p :: p in Walk(v, nested) <==> IsWalked(v, nested, p)
  {
    SystemForm(Count(v, SYSTEM));
    MessagesMembers(v, nested, Count(v, MESSAGES));
  }

  lemma JoinedOrder(v: Value, nested: bool, i: nat, n: nat)
    ensures NoRepeats(SystemWalk(i) + MessagesWalk(v, nested, n))
    ensures InMessageOrder(SystemWalk(i) + MessagesWalk(v, nested, n))
  {
    SystemForm(i);
    MessagesMembers(v, nested, n);
    MessagesOrder(v, nested, n);
    NoRepeatsConcat(SystemWalk(i), MessagesWalk(v, nested, n));
    OrderConcat(SystemWalk(i), MessagesWalk(v, nested, n), -1);
  }

  /** The walk visits each position once, in the order of the messages. */
  lemma WalkOrder(v: Value, nested: bool)
    ensures NoRepeats(Walk(v, nested)) && InMessageOrder(Walk(v, nested))
  {
    JoinedOrder(v, nested, Count(v, SYSTEM), Count(v, MESSAGES));
  }

  lemma LastComesLast(front: seq<Position>, last: Position)
    requires NoRepeats(front + [last]) && InMessageOrder(front + [last])
    ensures NoRepeats(front) && InMessageOrder(front)
    ensures forall p | p in front :: p != last && MessageOf(p) <= MessageOf(last)
  {
    var walk := front + [last];
    assert forall i | 0 <= i < |front| :: walk[i] == front[i];
    forall p | p in front ensures p != last && MessageOf(p) <= MessageOf(last) {
      var i :| 0 <= i < |front| && front[i] == p;
      assert walk[i] == p && walk[|front|] == last;
    }
  }

  lemma {:induction false} SelectedKeepsOrder(v: Value, test: Value -> bool, walk: seq<Position>)
    requires NoRepeats(walk) && InMessageOrder(walk)
    ensures NoRepeats(Selected(v, test, walk)) && InMessageOrder(Selected(v, test, walk))
  {
    if walk != [] {
      var front, last := walk[..|walk|-1], walk[|walk|-1];
      assert walk == front + [last];
      LastComesLast(front, last);
      SelectedKeepsOrder(v, test, front);
      NoRepeatsConcat(Selected(v, test, front), [last]);
      OrderConcat(Selected(v, test, front), [last], MessageOf(last));
    }
  }

  // ---- Paths of positions -------------------------------------------------------------

  lemma PathSegments(p: Position)
    ensures PathOf(p) == match p
      case SystemPart(i) => [Key("system"), Index(i)]
      case Part(m, c) => [Key("messages"), Index(m), Key("content"), Index(c)]
      case Nested(m, c, n) => [Key("messages"), Index(m), Key("content"), Index(c), Key("content"), Index(n)]
  {
  }

  lemma FirstKeys(p: Position)
    ensures PathOf(p)[0] == Key(if p.SystemPart? then "system" else "messages")
  {
    PathSegments(p);
  }

  /** A path is at or under another only if it is the same, or nested in it. */
  lemma PathsApart(p: Position, q: Position)
    requires PathOf(p) <= PathOf(q)
    ensures p == q || (p.Part? && q.Nested? && p.m == q.m && p.c == q.c)
  {
    var a, b := PathOf(p), PathOf(q);
    PathSegments(p);
    PathSegments(q);
    assert a[0] == b[0] && a[1] == b[1];
    if p.SystemPart? || q.SystemPart? {
      assert "system"[0] != "messages"[0];
    } else {
      assert a[3] == b[3];
      if p.Nested? { assert a[5] == b[5]; }
    }
  }

  // ---- Walking a payload ----------------------------------------------------------------

  /** What is found along the walk, in order. */
  function Gathered<T>(find: Position -> seq<T>, walk: seq<Position>): seq<T> {
    if walk == [] then [] else Gathered(find, walk[..|walk|-1]) + find(walk[|walk|-1])
  }

  lemma GatheredAppend<T>(find: Position -> seq<T>, walk: seq<Position>, p: Position)
    ensures Gathered(find, walk + [p]) == Gathered(find, walk) + find(p)
  {
    assert (walk + [p])[..|walk|] == walk;
  }

  lemma {:induction false} GatheredConcat<T>(find: Position -> seq<T>, a: seq<Position>, b: seq<Position>)
    ensures Gathered(find, a + b) == Gathered(find, a) + Gathered(find, b)
  {
    if b == [] {
      assert a + b == a;
    } else {
      var front, last := b[..|b|-1], b[|b|-1];
      assert b == front + [last] && a + b == (a + front) + [last];
      GatheredConcat(find, a, front);
      GatheredAppend(find, a + front, last);
    }
  }

  /** What is found is what is found at these positions, one thing at each. */
  ghost predicate FoundAtEach<T>(find: Position -> seq<T>, found: seq<T>, at: seq<Position>) {
    |found| == |at| && forall i | 0 <= i < |found| :: find(at[i]) == [found[i]]
  }

  lemma FoundOneMore<T>(find: Position -> seq<T>, found: seq<T>, at: seq<Position>, p: Position)
    requires FoundAtEach(find, found, at) && |find(p)| == 1
    ensures FoundAtEach(find, found + find(p), at + [p])
  {
  }

  /** Where one thing is found at each position that passes the test, it is found in order. */
  lemma {:induction false} GatheredSelected<T>(
      v: Value, test: Value -> bool, find: Position -> seq<T>, walk: seq<Position>)
    requires forall p :: |find(p)| == if Passes(v, test, p) then 1 else 0
    ensures FoundAtEach(find, Gathered(find, walk), Selected(v, test, walk))
  {
    if walk != [] {
      var front, last := walk[..|walk|-1], walk[|walk|-1];
      GatheredSelected(v, test, find, front);
      if Passes(v, test, last) {
        FoundOneMore(find, Gathered(find, front), Selected(v, test, front), last);
      } else {
        assert Gathered(find, walk) == Gathered(find, front) && Selected(v, test, walk) == Selected(v, test, front);
      }
    }
  }

  lemma ElementsAt(v: Value, prefix: Path, a: seq<Value>, i: nat)
    requires At(v, prefix) == Some(Array(a)) && i < |a|
    ensures At(v, prefix + [Index(i)]) == Some(a[i])
  {
    AtConcat(v, prefix, [Index(i)]);
    assert [Index(i)][1..] == [];
  }

  lemma MemberAt(v: Value, prefix: Path, x: Value, key: string)
    requires At(v, prefix) == Some(x)
    ensures At(v, prefix + [Key(key)]) == Get(x, key)
  {
    AtConcat(v, prefix, [Key(key)]);
    assert [Key(key)][1..] == [];
  }

  lemma ContentOfMessage(v: Value, messages: seq<Value>, m: nat)
    requires At(v, MESSAGES) == Some(Array(messages)) && m < |messages|
    ensures At(v, ContentPath(m)) == Get(messages[m], "content")
  {
    ElementsAt(v, MESSAGES, messages, m);
    MemberAt(v, MESSAGES + [Index(m)], messages[m], "content");
    assert MESSAGES + [Index(m)] + [Key("content")] == ContentPath(m);
  }

  /** Arrays are shorter than 2^64, as memory is: every index fits the type it is parsed into. */
  ghost predicate Addressable(v: Value) {
    forall p: Path :: Count(v, p) <= U64_MODULUS
  }

  lemma PositionPrints(v: Value, nested: bool, p: Position)
    requires Addressable(v) && IsWalked(v, nested, p)
    ensures PathOf(p) != [] && ParsePath(PrintPath(PathOf(p))) == PathOf(p)
  {
    WalkedIsPrintable(v, nested, p);
    PathReadsBack(PathOf(p));
  }

  lemma Addressed(v: Value, p: Path, i: nat)
    requires Addressable(v) && i < Count(v, p)
    ensures Printable(Index(i))
  {
  }

  lemma WalkedIsPrintable(v: Value, nested: bool, p: Position)
    requires Addressable(v) && IsWalked(v, nested, p)
    ensures PathOf(p) != [] && PrintablePath(PathOf(p))
  {
    PathSegments(p);
    KeysPrint();
    match p
    case SystemPart(i) => Addressed(v, SYSTEM, i);
    case Part(m, c) =>
      Addressed(v, MESSAGES, m);
      Addressed(v, ContentPath(m), c);
    case Nested(m, c, n) =>
      Addressed(v, MESSAGES, m);
      Addressed(v, ContentPath(m), c);
      Addressed(v, NestedPath(m, c), n);
  }

  /** None of the keys can be read as an index. */
  lemma KeysPrint()
    ensures Printable(Key("system")) && Printable(Key("messages")) && Printable(Key("content"))
  {
    assert "system"[0] in "system" && !IsDigit("system"[0]);
    assert "messages"[0] in "messages" && !IsDigit("messages"[0]);
    assert "content"[0] in "content" && !IsDigit("content"[0]);
  }

  // ---- Replacing parts ------------------------------------------------------------------

  /** `{"type": "text", "text": text}`. */
  function TextPart(text: string): Value {
    Object(map["type" := String("text"), "text" := String(text)])
  }

  lemma TextPartIsText(text: string)
    ensures IsText(TextPart(text))
  {
    var fields := map["type" := String("text"), "text" := String(text)];
    assert "type"[1] != "text"[1] && "type" in fields && fields["type"] == String("text");
  }

  /** The replacement loop: where the path leads nowhere, nothing happens. */
  function PutIfThere(v: Value, p: Path, x: Value): Value {
    if At(v, p).Some? then Put(v, p, x) else v
  }

  function Replaced(v: Value, at: seq<Position>, xs: seq<Value>): Value
    requires |at| == |xs|
  {
    if at == [] then v
    else PutIfThere(Replaced(v, at[..|at|-1], xs[..|xs|-1]), PathOf(at[|at|-1]), xs[|xs|-1])
  }

  /** No position is nested in another, or occurs twice. */
  predicate Apart(at: seq<Position>) {
    forall i, j | 0 <= i < |at| && 0 <= j < |at| && i != j :: !(PathOf(at[i]) <= PathOf(at[j]))
  }

  predicate AllThere(v: Value, at: seq<Position>) {
    forall p | p in at :: At(v, PathOf(p)).Some?
  }

  /** The path is not at or under any of the positions. */
  predicate Outside(at: seq<Position>, q: Path) {
    forall p | p in at :: !(PathOf(p) <= q)
  }

  /** Nor are any of the positions under the path. */
  predicate Clear(at: seq<Position>, q: Path) {
    forall p | p in at :: !(PathOf(p) <= q) && !(q <= PathOf(p))
  }

  lemma LastIsClear(v: Value, at: seq<Position>)
    requires at != [] && Apart(at) && AllThere(v, at)
    ensures Apart(at[..|at|-1]) && AllThere(v, at[..|at|-1])
    ensures Clear(at[..|at|-1], PathOf(at[|at|-1])) && At(v, PathOf(at[|at|-1])).Some?
  {
    assert at[|at|-1] in at;
  }

  lemma {:induction false} ReplacedClear(v: Value, at: seq<Position>, xs: seq<Value>, q: Path)
    requires |at| == |xs| && Apart(at) && AllThere(v, at) && Clear(at, q)
    ensures At(Replaced(v, at, xs), q) == At(v, q)
  {
    if at != [] {
      var front, last := at[..|at|-1], at[|at|-1];
      assert last in at;
      LastIsClear(v, at);
      ReplacedClear(v, front, xs[..|xs|-1], q);
      ReplacedClear(v, front, xs[..|xs|-1], PathOf(last));
      PutChangesOnlyThere(Replaced(v, front, xs[..|xs|-1]), PathOf(last), xs[|xs|-1], q);
    }
  }

  /** The last replacement finds its part there, untouched by those before it. */
  lemma LastReplacement(v: Value, at: seq<Position>, xs: seq<Value>)
    requires |at| == |xs| && Apart(at) && AllThere(v, at) && at != []
    ensures var before, path := Replaced(v, at[..|at|-1], xs[..|xs|-1]), PathOf(at[|at|-1]);
      && At(before, path).Some? && At(before, path) == At(v, path)
      && Replaced(v, at, xs) == Put(before, path, xs[|xs|-1])
  {
    LastIsClear(v, at);
    ReplacedClear(v, at[..|at|-1], xs[..|xs|-1], PathOf(at[|at|-1]));
  }

  lemma {:induction false} ReplacedOutside(v: Value, at: seq<Position>, xs: seq<Value>, q: Path)
    requires |at| == |xs| && Apart(at) && AllThere(v, at) && Outside(at, q)
    ensures ShapeAt(Replaced(v, at, xs), q) == ShapeAt(v, q)
  {
    if at != [] {
      assert at[|at|-1] in at;
      LastIsClear(v, at);
      LastReplacement(v, at, xs);
      ReplacedOutside(v, at[..|at|-1], xs[..|xs|-1], q);
      PutChangesOnlyThere(Replaced(v, at[..|at|-1], xs[..|xs|-1]), PathOf(at[|at|-1]), xs[|xs|-1], q);
    }
  }

  lemma {:induction false} ReplacedThere(v: Value, at: seq<Position>, xs: seq<Value>, i: nat)
    requires |at| == |xs| && Apart(at) && AllThere(v, at) && i < |at|
    ensures At(Replaced(v, at, xs), PathOf(at[i])) == Some(xs[i])
  {
    var n := |at| - 1;
    var front, texts := at[..n], xs[..n];
    LastIsClear(v, at);
    LastReplacement(v, at, xs);
    PutChangesOnlyThere(Replaced(v, front, texts), PathOf(at[n]), xs[n], PathOf(at[i]));
    if i < n {
      assert front[i] == at[i] && texts[i] == xs[i];
      ReplacedThere(v, front, texts, i);
    }
  }

  /**
   Replacements do not interfere: afterwards each position holds its own
   replacement; a node outside all of them keeps its shape, and its whole
   content if nothing under it was replaced.
   */
  lemma ReplacedAt(v: Value, at: seq<Position>, xs: seq<Value>, q: Path)
    requires |at| == |xs| && Apart(at) && AllThere(v, at)
    ensures forall i | 0 <= i < |at| && PathOf(at[i]) == q :: At(Replaced(v, at, xs), q) == Some(xs[i])
    ensures Outside(at, q) ==> ShapeAt(Replaced(v, at, xs), q) == ShapeAt(v, q)
    ensures Clear(at, q) ==> At(Replaced(v, at, xs), q) == At(v, q)
  {
    forall i | 0 <= i < |at| && PathOf(at[i]) == q ensures At(Replaced(v, at, xs), q) == Some(xs[i]) {
      ReplacedThere(v, at, xs, i);
    }
    if Outside(at, q) { ReplacedOutside(v, at, xs, q); }
    if Clear(at, q) { ReplacedClear(v, at, xs, q); }
  }

  lemma ReplacedAppend(v: Value, at: seq<Position>, xs: seq<Value>, p: Position, x: Value)
    requires |at| == |xs|
    ensures Replaced(v, at + [p], xs + [x]) == PutIfThere(Replaced(v, at, xs), PathOf(p), x)
  {
    assert (at + [p])[..|at|] == at && (xs + [x])[..|xs|] == xs;
  }

  lemma ReplacementStep(v: Value, images: seq<Position>, i: nat, xs: seq<Value>, x: Value)
    requires i < |images| && |xs| == i
    ensures Replaced(v, images[..i+1], xs + [x]) == PutIfThere(Replaced(v, images[..i], xs), PathOf(images[i]), x)
  {
    assert images[..i+1] == images[..i] + [images[i]];
    ReplacedAppend(v, images[..i], xs, images[i], x);
  }

  /** One pass of the replacement loop: the printed path is parsed, followed and overwritten. */
  method ReplaceAt(payload: Value, path: string, x: Value) returns (out: Value)
    ensures out == PutIfThere(payload, ParsePath(path), x)
  {
    var target := Navigate(payload, path);
    out := if target.Some? then Put(payload, ParsePath(path), x) else payload;
  }

  // ---- The walk after replacing parts ------------------------------------------------------

  /** The two payloads have the same walk: same array lengths, same tool results. */
  ghost predicate SameFrame(v: Value, w: Value, nested: bool) {
    && Count(v, SYSTEM) == Count(w, SYSTEM)
    && Count(v, MESSAGES) == Count(w, MESSAGES)
    && (forall m: nat :: Count(v, ContentPath(m)) == Count(w, ContentPath(m)))
    && (forall m: nat, c: nat :: NestedCount(v, nested, m, c) == NestedCount(w, nested, m, c))
  }

  lemma {:induction false} SameContentWalk(v: Value, w: Value, nested: bool, m: nat, n: nat)
    requires SameFrame(v, w, nested)
    ensures ContentWalk(v, nested, m, n) == ContentWalk(w, nested, m, n)
  {
    if n > 0 { SameContentWalk(v, w, nested, m, n - 1); }
  }

  lemma {:induction false} SameMessagesWalk(v: Value, w: Value, nested: bool, n: nat)
    requires SameFrame(v, w, nested)
    ensures MessagesWalk(v, nested, n) == MessagesWalk(w, nested, n)
  {
    if n > 0 {
      SameMessagesWalk(v, w, nested, n - 1);
      SameContentWalk(v, w, nested, n - 1, Count(v, ContentPath(n - 1)));
    }
  }

  lemma SameWalk(v: Value, w: Value, nested: bool)
    requires SameFrame(v, w, nested)
    ensures Walk(v, nested) == Walk(w, nested)
  {
    SameMessagesWalk(v, w, nested, Count(v, MESSAGES));
  }

  predicate IsText(x: Value) {
    Get(x, "type") == Some(String("text"))
  }

  predicate AllTexts(xs: seq<Value>) {
    forall x | x in xs :: IsText(x)
  }

  predicate NoToolResults(v: Value, at: seq<Position>) {
    forall p | p in at && p.Part? :: !IsToolResult(v, p.m, p.c)
  }

  lemma ArraysOutside(at: seq<Position>, m: nat)
    ensures Outside(at, SYSTEM) && Outside(at, MESSAGES) && Outside(at, ContentPath(m))
  {
    forall p | p in at
      ensures !(PathOf(p) <= SYSTEM) && !(PathOf(p) <= MESSAGES) && !(PathOf(p) <= ContentPath(m))
    {
      FirstKeys(p);
      PathSegments(p);
      assert "system"[0] != "messages"[0];
      assert ContentPath(m)[0] == Key("messages");
    }
  }

  lemma PrefixAgrees(a: Path, b: Path, i: nat)
    requires i < |a|
    ensures a <= b ==> i < |b| && a[i] == b[i]
  {
  }

  /** Below a part that is not replaced, its own keys are outside the replaced positions. */
  lemma KeyOutside(at: seq<Position>, m: nat, c: nat, key: string)
    requires Part(m, c) !in at
    ensures Outside(at, PathOf(Part(m, c)) + [Key(key)])
  {
    var q := PathOf(Part(m, c)) + [Key(key)];
    PathSegments(Part(m, c));
    forall p | p in at ensures !(PathOf(p) <= q) {
      PathSegments(p);
      FirstKeys(p);
      PrefixAgrees(PathOf(p), q, 0);
      PrefixAgrees(PathOf(p), q, 1);
      if p.Part? { PrefixAgrees(PathOf(p), q, 3); }
    }
  }

  lemma TypeOfPart(v: Value, m: nat, c: nat)
    ensures At(v, TypePath(PathOf(Part(m, c)))) ==
      match At(v, PathOf(Part(m, c))) case Some(x) => Get(x, "type") case None => None
  {
    AtConcat(v, PathOf(Part(m, c)), [Key("type")]);
    assert [Key("type")][1..] == [];
  }

  lemma TextReplacesImage(v: Value, at: seq<Position>, xs: seq<Value>, i: nat)
    requires |at| == |xs| && Apart(at) && AllThere(v, at) && AllTexts(xs)
    requires i < |at| && at[i].Part?
    ensures !IsToolResult(Replaced(v, at, xs), at[i].m, at[i].c)
  {
    ReplacedThere(v, at, xs, i);
    TypeOfPart(Replaced(v, at, xs), at[i].m, at[i].c);
    assert xs[i] in xs && "text" != "tool_result";
  }

  lemma UnreplacedPart(v: Value, at: seq<Position>, xs: seq<Value>, m: nat, c: nat)
    requires |at| == |xs| && Apart(at) && AllThere(v, at) && Part(m, c) !in at
    ensures IsToolResult(Replaced(v, at, xs), m, c) == IsToolResult(v, m, c)
    ensures Count(Replaced(v, at, xs), NestedPath(m, c)) == Count(v, NestedPath(m, c))
  {
    KeyOutside(at, m, c, "type");
    ReplacedOutside(v, at, xs, TypePath(PathOf(Part(m, c))));
    KeyOutside(at, m, c, "content");
    assert PathOf(Part(m, c)) + [Key("content")] == NestedPath(m, c);
    ReplacedOutside(v, at, xs, NestedPath(m, c));
  }

  lemma ReplacedToolResults(v: Value, at: seq<Position>, xs: seq<Value>, nested: bool, m: nat, c: nat)
    requires |at| == |xs| && Apart(at) && AllThere(v, at) && AllTexts(xs) && NoToolResults(v, at)
    ensures NestedCount(Replaced(v, at, xs), nested, m, c) == NestedCount(v, nested, m, c)
  {
    if Part(m, c) in at {
      var i :| 0 <= i < |at| && at[i] == Part(m, c);
      TextReplacesImage(v, at, xs, i);
    } else {
      UnreplacedPart(v, at, xs, m, c);
    }
  }

  /** Replacing parts other than tool results by text leaves the walk as it was. */
  lemma ReplacedKeepsWalk(v: Value, at: seq<Position>, xs: seq<Value>, nested: bool)
    requires |at| == |xs| && Apart(at) && AllThere(v, at) && AllTexts(xs) && NoToolResults(v, at)
    ensures Walk(Replaced(v, at, xs), nested) == Walk(v, nested)
  {
    var w := Replaced(v, at, xs);
    forall m: nat ensures Count(v, ContentPath(m)) == Count(w, ContentPath(m)) {
      ArraysOutside(at, m);
      ReplacedOutside(v, at, xs, ContentPath(m));
    }
    forall m: nat, c: nat ensures NestedCount(v, nested, m, c) == NestedCount(w, nested, m, c) {
      ReplacedToolResults(v, at, xs, nested, m, c);
    }
    ArraysOutside(at, 0);
    ReplacedOutside(v, at, xs, SYSTEM);
    ReplacedOutside(v, at, xs, MESSAGES);
    SameWalk(v, w, nested);
  }

  lemma FirstIsMember(s: seq<Position>)
    ensures s != [] ==> s[0] in s
  {
  }

  // ---- Image parts ----------------------------------------------------------------------------

  /** `is_image_part` of `src/payload.rs`. */
  predicate IsImagePart(part: Value) {
    GetStr(part, "type") == Some("image_url") || GetStr(part, "type") == Some("image")
  }

  /** `extract_image_uri` of `src/vision.rs`. */
  function ExtractImageUri(part: Value): Option<string> {
    match GetStr(part, "type")
    case None => None
    case Some(t) =>
      if t == "image_url" then
        (match Get(part, "image_url")
         case Some(u) => GetStr(u, "url")
         case None => None)
      else if t == "image" then
        (match Get(part, "source")
         case Some(source) => SourceUri(source)
         case None => None)
      else None
  }

  function SourceUri(source: Value): Option<string> {
    match GetStr(source, "type")
    case None => None
    case Some(t) =>
      if t == "base64" then
        match GetStr(source, "data")
        case None => None
        case Some(data) =>
          var media := match GetStr(source, "media_type") case Some(m) => m case None => "image/png";
          Some("data:" + media + ";base64," + data)
      else if t == "url" then GetStr(source, "url")
      else None
  }

  predicate HasImageUri(part: Value) {
    ExtractImageUri(part).Some?
  }

  /** The test passes nothing but parts of an image type. */
  ghost predicate TestsImages(test: Value -> bool) {
    forall part :: test(part) ==> IsImagePart(part)
  }

  lemma BothTestImages()
    ensures TestsImages(IsImagePart) && TestsImages(HasImageUri)
  {
  }

  /** The image parts selected from a walk can all be replaced independently. */
  lemma SelectedImagesAreApart(v: Value, test: Value -> bool, nested: bool)
    requires TestsImages(test)
    ensures var at := Selected(v, test, Walk(v, nested));
      Apart(at) && AllThere(v, at) && NoToolResults(v, at)
  {
    var at := Selected(v, test, Walk(v, nested));
    WalkOrder(v, nested);
    WalkMembers(v, nested);
    SelectedKeepsOrder(v, test, Walk(v, nested));
    forall p | p in at && p.Part? ensures !IsToolResult(v, p.m, p.c) {
      ImageIsNoToolResult(v, test, p.m, p.c);
    }
    forall i, j | 0 <= i < |at| && 0 <= j < |at| && i != j ensures !(PathOf(at[i]) <= PathOf(at[j])) {
      assert at[i] in at && at[j] in at && at[i] != at[j];
      if PathOf(at[i]) <= PathOf(at[j]) { PathsApart(at[i], at[j]); }
    }
  }

  lemma FirstAreApart(v: Value, at: seq<Position>, k: nat)
    requires Apart(at) && AllThere(v, at) && NoToolResults(v, at) && k <= |at|
    ensures Apart(at[..k]) && AllThere(v, at[..k]) && NoToolResults(v, at[..k])
  {
    assert forall p | p in at[..k] :: p in at;
  }

  lemma ImageIsNoToolResult(v: Value, test: Value -> bool, m: nat, c: nat)
    requires TestsImages(test) && Passes(v, test, Part(m, c))
    ensures !IsToolResult(v, m, c)
  {
    var part := At(v, PathOf(Part(m, c))).value;
    assert IsImagePart(part);
    TypeOfPart(v, m, c);
    assert "tool_result"[0] != "image_url"[0];
  }
}
