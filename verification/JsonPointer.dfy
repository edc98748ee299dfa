/**
 Paths into a JSON tree: printed with `format!`, read back by
 `navigate_pointer_mut` (the same function in `src/vision.rs` and
 `src/payload.rs`), a subset of RFC 6901, sections 3 and 4.
 */
module JsonPointer {
  import opened Common
  import opened Json

  datatype Segment = Key(k: string) | Index(i: nat)

  type Path = seq<Segment>

  // ---- Text -----------------------------------------------------------------------

  predicate IsDigit(c: char) {
    '0' <= c <= '9'
  }

  function DigitChar(d: nat): char
    requires d < 10
  {
    '0' + d as char
  }

  function DigitValue(c: char): nat
    requires IsDigit(c)
  {
    c as int - '0' as int
  }

  /** `format!("{}", n)`. */
  function Decimal(n: nat): (s: string)
    ensures s != "" && forall c | c in s :: IsDigit(c)
  {
    if n < 10 then [DigitChar(n)] else Decimal(n / 10) + [DigitChar(n % 10)]
  }

  function DigitsValue(s: string): nat
    requires forall c | c in s :: IsDigit(c)
  {
    if s == "" then 0 else 10 * DigitsValue(s[..|s|-1]) + DigitValue(s[|s|-1])
  }

  /** `str::parse::<usize>`: an optional plus sign, digits, no overflow. */
  function ParseUsize(s: string): Option<nat> {
    var digits := if s != "" && s[0] == '+' then s[1..] else s;
    if digits == "" || (exists c | c in digits :: !IsDigit(c)) then None
    else
      var n := DigitsValue(digits);
      if n < U64_MODULUS then Some(n) else None
  }

  function SegmentText(s: Segment): string {
    match s
    case Key(k) => k
    case Index(i) => Decimal(i)
  }

  /** How a part of a path is read: as an index if it can be. */
  function ParseSegment(part: string): Segment {
    match ParseUsize(part)
    case Some(i) => Index(i)
    case None => Key(part)
  }

  function PrintPath(p: Path): string {
    if p == [] then "" else "/" + SegmentText(p[0]) + PrintPath(p[1..])
  }

  function TrimSlashes(s: string): string {
    if s != "" && s[0] == '/' then TrimSlashes(s[1..]) else s
  }

  /** The number of characters before the first slash. */
  function SlashAt(s: string): (n: nat)
    ensures n <= |s| && '/' !in s[..n] && (n < |s| ==> s[n] == '/')
  {
    if s == "" || s[0] == '/' then 0
    else
      var n := SlashAt(s[1..]);
      assert s[..n + 1] == [s[0]] + s[1..][..n];
      n + 1
  }

  /** `str::split('/')`. */
  function Split(s: string): seq<string>
    decreases |s|
  {
    var n := SlashAt(s);
    if n == |s| then [s] else [s[..n]] + Split(s[n + 1..])
  }

  function ParseSegments(parts: seq<string>): Path {
    if parts == [] then [] else [ParseSegment(parts[0])] + ParseSegments(parts[1..])
  }

  function ParsePath(s: string): Path {
    ParseSegments(Split(TrimSlashes(s)))
  }

  // ---- Round trip --------------------------------------------------------------------

  lemma {:induction false} DecimalValue(n: nat)
    ensures DigitsValue(Decimal(n)) == n
  {
    if n < 10 {
      assert Decimal(n)[..0] == "";
    } else {
      var front := Decimal(n / 10);
      DecimalValue(n / 10);
      assert (front + [DigitChar(n % 10)])[..|front|] == front;
    }
  }

  /** The decimal digits, and how numbers are written with them. */
  lemma DecimalDigits(n: nat, d: nat)
    requires d < 10
    ensures Decimal(d) == ["0123456789"[d]]
    ensures n > 0 ==> Decimal(10 * n + d) == Decimal(n) + Decimal(d)
  {
    assert (10 * n + d) / 10 == n && (10 * n + d) % 10 == d;
  }

  /** A printed number is read back, also behind a plus sign, if it fits into 64 bits, and only then. */
  lemma ParseDecimal(n: nat)
    ensures ParseUsize(Decimal(n)) == if n < 0x1_0000_0000_0000_0000 then Some(n) else None
    ensures ParseUsize("+" + Decimal(n)) == ParseUsize(Decimal(n))
  {
    DecimalValue(n);
    assert Decimal(n)[0] in Decimal(n);
    assert ("+" + Decimal(n))[1..] == Decimal(n);
  }

  /** A segment that prints to a part of its own and reads back. */
  predicate Printable(s: Segment) {
    match s
    case Key(k) => k != "" && '/' !in k && ParseUsize(k) == None
    case Index(i) => i < U64_MODULUS
  }

  predicate PrintablePath(p: Path) {
    forall s | s in p :: Printable(s)
  }

  lemma SegmentReadsBack(s: Segment)
    requires Printable(s)
    ensures ParseSegment(SegmentText(s)) == s
    ensures SegmentText(s) != "" && '/' !in SegmentText(s)
  {
    if s.Index? { ParseDecimal(s.i); }
  }

  lemma {:induction false} SlashAfter(a: string, b: string)
    requires '/' !in a && (b == "" || b[0] == '/')
    ensures SlashAt(a + b) == |a|
  {
    if a == "" {
      assert a + b == b;
    } else {
      assert a[0] in a;
      assert (a + b)[1..] == a[1..] + b;
      SlashAfter(a[1..], b);
    }
  }

  /** The printed path without its first slash. */
  function Body(p: Path): string
    requires p != []
  {
    SegmentText(p[0]) + PrintPath(p[1..])
  }

  lemma PrintedBody(p: Path)
    requires p != []
    ensures PrintPath(p) == "/" + Body(p)
  {
  }

  lemma LastPart(text: string)
    requires '/' !in text
    ensures Split(text) == [text]
  {
    SlashAfter(text, "");
    assert text + "" == text;
  }

  lemma FirstPart(text: string, rest: string)
    requires '/' !in text
    ensures Split(text + ("/" + rest)) == [text] + Split(rest)
  {
    var s := text + ("/" + rest);
    SlashAfter(text, "/" + rest);
    assert s[..|text|] == text && s[|text| + 1..] == rest;
  }

  lemma ParseFirst(part: string, parts: seq<string>)
    ensures ParseSegments([part] + parts) == [ParseSegment(part)] + ParseSegments(parts)
  {
    assert ([part] + parts)[1..] == parts;
  }

  lemma BodyInFront(s: Segment, rest: Path)
    requires rest != []
    ensures Body([s] + rest) == SegmentText(s) + ("/" + Body(rest))
  {
    assert ([s] + rest)[1..] == rest;
    PrintedBody(rest);
  }

  lemma SegmentInFront(s: Segment, rest: Path)
    requires Printable(s) && rest != [] && ParseSegments(Split(Body(rest))) == rest
    ensures ParseSegments(Split(Body([s] + rest))) == [s] + rest
  {
    SegmentReadsBack(s);
    BodyInFront(s, rest);
    FirstPart(SegmentText(s), Body(rest));
    ParseFirst(SegmentText(s), Split(Body(rest)));
  }

  lemma LastSegment(s: Segment)
    requires Printable(s)
    ensures ParseSegments(Split(Body([s]))) == [s]
  {
    SegmentReadsBack(s);
    assert [s][1..] == [] && Body([s]) == SegmentText(s) + "" == SegmentText(s);
    LastPart(SegmentText(s));
    ParseFirst(SegmentText(s), []);
    assert [SegmentText(s)] + [] == [SegmentText(s)] && [s] + [] == [s];
  }

  lemma {:induction false} BodySplits(p: Path)
    requires p != [] && PrintablePath(p)
    ensures ParseSegments(Split(Body(p))) == p
  {
    assert p == [p[0]] + p[1..];
    if p[1..] == [] {
      LastSegment(p[0]);
      assert p == [p[0]];
    } else {
      BodySplits(p[1..]);
      SegmentInFront(p[0], p[1..]);
    }
  }

  lemma TrimOneSlash(s: string)
    requires s != "" && s[0] != '/'
    ensures TrimSlashes("/" + s) == s
  {
    assert ("/" + s)[1..] == s;
  }

  /** Reading back a printed path gives its segments. */
  lemma PathReadsBack(p: Path)
    requires p != [] && PrintablePath(p)
    ensures ParsePath(PrintPath(p)) == p
  {
    SegmentReadsBack(p[0]);
    assert Body(p)[0] == SegmentText(p[0])[0] && SegmentText(p[0])[0] in SegmentText(p[0]);
    PrintedBody(p);
    TrimOneSlash(Body(p));
    BodySplits(p);
  }

  // ---- Reading and writing at a path ---------------------------------------------------

  function Child(v: Value, s: Segment): Option<Value> {
    match s
    case Index(i) => if v.Array? && i < |v.elems| then Some(v.elems[i]) else None
    case Key(k) => Get(v, k)
  }

  function At(v: Value, p: Path): Option<Value>
    decreases |p|
  {
    if p == [] then Some(v)
    else
      match Child(v, p[0])
      case Some(c) => At(c, p[1..])
      case None => None
  }

  function WithChild(v: Value, s: Segment, c: Value): Value
    requires Child(v, s).Some?
  {
    match s
    case Index(i) => Array(v.elems[i := c])
    case Key(k) => Object(v.fields[k := c])
  }

  function Put(v: Value, p: Path, x: Value): Value
    requires At(v, p).Some?
    decreases |p|
  {
    if p == [] then x else WithChild(v, p[0], Put(Child(v, p[0]).value, p[1..], x))
  }

  /** What a node looks like without its children. */
  datatype Shape = Missing | Leaf(v: Value) | Elements(n: nat) | Members(keys: set<string>)

  function ShapeOf(v: Value): Shape {
    match v
    case Array(a) => Elements(|a|)
    case Object(f) => Members(f.Keys)
    case _ => Leaf(v)
  }

  function ShapeAt(v: Value, p: Path): Shape {
    match At(v, p)
    case Some(x) => ShapeOf(x)
    case None => Missing
  }

  lemma ChildOfWithChild(v: Value, s: Segment, c: Value, t: Segment)
    requires Child(v, s).Some?
    ensures Child(WithChild(v, s, c), t) == if t == s then Some(c) else Child(v, t)
    ensures ShapeOf(WithChild(v, s, c)) == ShapeOf(v)
  {
  }

  /** Writing at a path changes what is there and nothing that is not under it. */
  lemma {:induction false} PutChangesOnlyThere(v: Value, p: Path, x: Value, q: Path)
    requires At(v, p).Some?
    ensures p == q ==> At(Put(v, p, x), q) == Some(x)
    ensures !(p <= q) ==> ShapeAt(Put(v, p, x), q) == ShapeAt(v, q)
    ensures !(p <= q) && !(q <= p) ==> At(Put(v, p, x), q) == At(v, q)
    decreases |p|
  {
    if p != [] {
      var c := Child(v, p[0]).value;
      var put := Put(c, p[1..], x);
      if q == [] {
        ChildOfWithChild(v, p[0], put, p[0]);
      } else {
        ChildOfWithChild(v, p[0], put, q[0]);
        if p[0] == q[0] {
          PutChangesOnlyThere(c, p[1..], x, q[1..]);
          PrefixTails(p, q);
          PrefixTails(q, p);
        }
      }
    }
  }

  lemma PrefixTails(p: Path, q: Path)
    requires p != [] && q != [] && p[0] == q[0]
    ensures p <= q <==> p[1..] <= q[1..]
    ensures p == q <==> p[1..] == q[1..]
  {
    assert p == [p[0]] + p[1..] && q == [q[0]] + q[1..];
  }

  lemma {:induction false} AtConcat(v: Value, p: Path, q: Path)
    ensures At(v, p + q) == match At(v, p) case Some(x) => At(x, q) case None => None
    decreases |p|
  {
    if p == [] {
      assert p + q == q;
    } else {
      assert (p + q)[1..] == p[1..] + q;
      if Child(v, p[0]).Some? { AtConcat(Child(v, p[0]).value, p[1..], q); }
    }
  }

  /** `navigate_pointer_mut`: the node a printed path leads to. */
  method Navigate(value: Value, path: string) returns (target: Option<Value>)
    ensures target == At(value, ParsePath(path))
  {
    var parts := Split(TrimSlashes(path));
    var current := value;
    ghost var goal := At(value, ParsePath(path));
    for i := 0 to |parts|
      invariant goal == At(current, ParseSegments(parts[i..]))
    {
      assert parts[i..][1..] == parts[i+1..];
      var segment := ParseSegment(parts[i]);
      assert ParseSegments(parts[i..]) == [segment] + ParseSegments(parts[i+1..]);
      assert ParseSegments(parts[i..])[1..] == ParseSegments(parts[i+1..]);
      var next := Child(current, segment);
      if next.None? { return None; }
      current := next.value;
    }
    target := Some(current);
  }
}
