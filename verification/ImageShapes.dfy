/**
 What an image part looks like on the wire and where one can stand, in terms of
 the members and elements of the payload.
 */
module ImageShapes {
  import opened Common
  import opened Json
  import opened JsonPointer
  import opened ImageParts

  // ---- Image parts ---------------------------------------------------------------

  lemma AtKey(v: Value, k: string)
    ensures At(v, [Key(k)]) == Get(v, k)
  {
    assert [Key(k)][1..] == [];
  }

  lemma AtKeys(v: Value, k: string, l: string)
    ensures At(v, [Key(k), Key(l)]) == match Get(v, k) case Some(x) => Get(x, l) case None => None
  {
    assert [Key(k), Key(l)][1..] == [Key(l)];
    if Get(v, k).Some? { AtKey(Get(v, k).value, l); }
  }

  predicate Says(v: Value, p: Path, s: string) {
    At(v, p) == Some(String(s))
  }

  /** The media type that the source names; PNG if it names none. */
  ghost predicate MediaTypeIs(part: Value, media: string) {
    || Says(part, [Key("source"), Key("media_type")], media)
    || (media == "image/png" && forall m :: !Says(part, [Key("source"), Key("media_type")], m))
  }

  ghost predicate ShowsByUrl(part: Value, uri: string) {
    Says(part, [Key("type")], "image_url") && Says(part, [Key("image_url"), Key("url")], uri)
  }

  ghost predicate ShowsBySource(part: Value, uri: string) {
    && Says(part, [Key("type")], "image") && Says(part, [Key("source"), Key("type")], "url")
    && Says(part, [Key("source"), Key("url")], uri)
  }

  ghost predicate ShowsData(part: Value, uri: string) {
    && Says(part, [Key("type")], "image") && Says(part, [Key("source"), Key("type")], "base64")
    && exists media, data ::
         && MediaTypeIs(part, media) && Says(part, [Key("source"), Key("data")], data)
         && uri == "data:" + media + ";base64," + data
  }

  /** The part shows the image with this URI, in one of three shapes. */
  ghost predicate Shows(part: Value, uri: string) {
    ShowsByUrl(part, uri) || ShowsBySource(part, uri) || ShowsData(part, uri)
  }

  lemma PartKeys(part: Value)
    ensures At(part, [Key("type")]) == Get(part, "type")
    ensures At(part, [Key("image_url"), Key("url")]) ==
      match Get(part, "image_url") case Some(x) => Get(x, "url") case None => None
    ensures forall k ::
      At(part, [Key("source"), Key(k)]) == (match Get(part, "source") case Some(x) => Get(x, k) case None => None)
  {
    AtKey(part, "type");
    AtKeys(part, "image_url", "url");
    forall k
      ensures
        At(part, [Key("source"), Key(k)]) == (match Get(part, "source") case Some(x) => Get(x, k) case None => None)
    {
      AtKeys(part, "source", k);
    }
  }

  lemma ReadsUrl(part: Value, uri: string)
    requires ShowsByUrl(part, uri)
    ensures ExtractImageUri(part) == Some(uri)
  {
    PartKeys(part);
  }

  lemma ReadsSource(part: Value, uri: string)
    requires ShowsBySource(part, uri)
    ensures ExtractImageUri(part) == Some(uri)
  {
    PartKeys(part);
    assert "url"[0] != "base64"[0] && "image"[..5] == "image" && |"image"| != |"image_url"|;
  }

  /** The media type that is read. */
  lemma MediaTypeIff(part: Value, media: string)
    requires Get(part, "source").Some?
    ensures MediaTypeIs(part, media) <==>
      media == match GetStr(Get(part, "source").value, "media_type") case Some(m) => m case None => "image/png"
  {
    PartKeys(part);
    var named := GetStr(Get(part, "source").value, "media_type");
    if named.Some? { assert Says(part, [Key("source"), Key("media_type")], named.value); }
  }

  lemma ReadsData(part: Value, uri: string)
    requires ShowsData(part, uri)
    ensures ExtractImageUri(part) == Some(uri)
  {
    PartKeys(part);
    assert |"image"| != |"image_url"|;
    var media, data :|
      && MediaTypeIs(part, media) && Says(part, [Key("source"), Key("data")], data)
      && uri == "data:" + media + ";base64," + data;
    MediaTypeIff(part, media);
  }

  lemma ExtractedShows(part: Value)
    requires ExtractImageUri(part).Some?
    ensures Shows(part, ExtractImageUri(part).value)
  {
    PartKeys(part);
    if GetStr(part, "type") == Some("image") {
      var source := Get(part, "source").value;
      if GetStr(source, "type") == Some("base64") {
        var media := match GetStr(source, "media_type") case Some(m) => m case None => "image/png";
        MediaTypeIff(part, media);
        assert Says(part, [Key("source"), Key("data")], GetStr(source, "data").value);
      }
    }
  }

  /** Exactly the three shapes are read, each as its own URI. */
  lemma ReadsIff(part: Value, uri: string)
    ensures ExtractImageUri(part) == Some(uri) <==> Shows(part, uri)
  {
    if ShowsByUrl(part, uri) { ReadsUrl(part, uri); }
    if ShowsBySource(part, uri) { ReadsSource(part, uri); }
    if ShowsData(part, uri) { ReadsData(part, uri); }
    if ExtractImageUri(part).Some? { ExtractedShows(part); }
  }

  /** For the cap, the type alone makes an image part. */
  lemma TypeDecides(part: Value)
    ensures IsImagePart(part) <==> Says(part, [Key("type")], "image_url") || Says(part, [Key("type")], "image")
  {
    AtKey(part, "type");
  }

  // ---- Where parts stand ---------------------------------------------------------------

  /** The part stands there: in the system array, in a message's content, or in that of a tool result. */
  predicate StandsAt(v: Value, p: Position, part: Value) {
    match p
    case SystemPart(i) => At(v, [Key("system"), Index(i)]) == Some(part)
    case Part(m, c) => At(v, [Key("messages"), Index(m), Key("content"), Index(c)]) == Some(part)
    case Nested(m, c, n) =>
      && Says(v, [Key("messages"), Index(m), Key("content"), Index(c), Key("type")], "tool_result")
      && At(v, [Key("messages"), Index(m), Key("content"), Index(c), Key("content"), Index(n)]) == Some(part)
  }

  /** The printed path of a position. */
  function Printed(p: Position): string {
    match p
    case SystemPart(i) => "/system/" + Decimal(i)
    case Part(m, c) => "/messages/" + Decimal(m) + "/content/" + Decimal(c)
    case Nested(m, c, n) => "/messages/" + Decimal(m) + "/content/" + Decimal(c) + "/content/" + Decimal(n)
  }

  lemma PrintOne(s: Segment, rest: Path)
    ensures PrintPath([s] + rest) == "/" + SegmentText(s) + PrintPath(rest)
  {
    assert ([s] + rest)[1..] == rest;
  }

  lemma PrintField(key: string, i: nat, rest: Path)
    ensures PrintPath([Key(key), Index(i)] + rest) == "/" + key + "/" + Decimal(i) + PrintPath(rest)
  {
    assert [Key(key), Index(i)] + rest == [Key(key)] + ([Index(i)] + rest);
    PrintOne(Key(key), [Index(i)] + rest);
    PrintOne(Index(i), rest);
  }

  lemma PrintSystem(i: nat)
    ensures PrintPath([Key("system"), Index(i)]) == "/system/" + Decimal(i)
  {
    PrintField("system", i, []);
    assert [Key("system"), Index(i)] + [] == [Key("system"), Index(i)];
    assert "/" + "system" + "/" == "/system/";
  }

  lemma PrintMessage(m: nat, rest: Path)
    ensures PrintPath([Key("messages"), Index(m)] + rest) == "/messages/" + Decimal(m) + PrintPath(rest)
  {
    PrintField("messages", m, rest);
    assert "/" + "messages" + "/" == "/messages/";
  }

  lemma PrintContent(c: nat, rest: Path)
    ensures PrintPath([Key("content"), Index(c)] + rest) == "/content/" + Decimal(c) + PrintPath(rest)
  {
    PrintField("content", c, rest);
    assert "/" + "content" + "/" == "/content/";
  }

  lemma PrintPart(m: nat, c: nat, rest: Path)
    ensures PrintPath([Key("messages"), Index(m), Key("content"), Index(c)] + rest) ==
      "/messages/" + Decimal(m) + "/content/" + Decimal(c) + PrintPath(rest)
  {
    var inner := [Key("content"), Index(c)] + rest;
    assert [Key("messages"), Index(m), Key("content"), Index(c)] + rest == [Key("messages"), Index(m)] + inner;
    PrintMessage(m, inner);
    PrintContent(c, rest);
    Regrouped("/messages/" + Decimal(m), "/content/", Decimal(c), PrintPath(rest));
  }

  lemma Regrouped(a: string, b: string, c: string, d: string)
    ensures a + (b + c + d) == a + b + c + d
  {
  }

  lemma PositionIsPrinted(p: Position)
    ensures PrintPath(PathOf(p)) == Printed(p)
  {
    PathSegments(p);
    match p
    case SystemPart(i) => PrintSystem(i);
    case Part(m, c) =>
      PrintPart(m, c, []);
      assert PathOf(p) + [] == PathOf(p);
    case Nested(m, c, n) =>
      PrintPart(m, c, [Key("content"), Index(n)]);
      PrintContent(n, []);
      assert [Key("content"), Index(n)] + [] == [Key("content"), Index(n)];
      assert PathOf(p) == [Key("messages"), Index(m), Key("content"), Index(c)] + [Key("content"), Index(n)];
      Regrouped("/messages/" + Decimal(m) + "/content/" + Decimal(c), "/content/", Decimal(n), "");
  }

  lemma StandsAtPath(v: Value, p: Position, part: Value)
    requires StandsAt(v, p, part)
    ensures At(v, PathOf(p)) == Some(part)
  {
    PathSegments(p);
  }

  /** An element is there exactly if the array is long enough. */
  lemma ElementThere(v: Value, p: Path, i: nat)
    ensures At(v, p + [Index(i)]).Some? <==> i < Count(v, p)
  {
    AtConcat(v, p, [Index(i)]);
    assert [Index(i)][1..] == [];
  }

  lemma PrefixThere(v: Value, p: Path, q: Path)
    requires At(v, p + q).Some?
    ensures At(v, p).Some?
  {
    AtConcat(v, p, q);
  }

  lemma ContentThere(v: Value, m: nat, c: nat)
    ensures At(v, PathOf(Part(m, c))).Some? <==> m < Count(v, MESSAGES) && c < Count(v, ContentPath(m))
  {
    ElementThere(v, ContentPath(m), c);
    ElementThere(v, MESSAGES, m);
    if At(v, PathOf(Part(m, c))).Some? {
      PrefixThere(v, ContentPath(m), [Index(c)]);
      assert ContentPath(m) == MESSAGES + [Index(m)] + [Key("content")];
      PrefixThere(v, MESSAGES + [Index(m)], [Key("content")]);
    }
  }

  lemma ToolResultSays(v: Value, m: nat, c: nat)
    ensures IsToolResult(v, m, c) <==>
      Says(v, [Key("messages"), Index(m), Key("content"), Index(c), Key("type")], "tool_result")
  {
    PathSegments(Part(m, c));
    assert TypePath(PathOf(Part(m, c))) ==
      [Key("messages"), Index(m), Key("content"), Index(c), Key("type")];
  }

  lemma NestedThere(v: Value, m: nat, c: nat, n: nat)
    requires At(v, PathOf(Nested(m, c, n))).Some?
    ensures At(v, PathOf(Part(m, c))).Some?
  {
    assert PathOf(Nested(m, c, n)) == PathOf(Part(m, c)) + ([Key("content")] + [Index(n)]);
    PrefixThere(v, PathOf(Part(m, c)), [Key("content")] + [Index(n)]);
  }

  lemma NestedStands(v: Value, m: nat, c: nat, n: nat)
    ensures IsWalked(v, true, Nested(m, c, n)) <==> exists part :: StandsAt(v, Nested(m, c, n), part)
  {
    var p := Nested(m, c, n);
    PathSegments(p);
    ContentThere(v, m, c);
    ToolResultSays(v, m, c);
    ElementThere(v, NestedPath(m, c), n);
    if At(v, PathOf(p)).Some? { NestedThere(v, m, c, n); }
    if IsWalked(v, true, p) { assert StandsAt(v, p, At(v, PathOf(p)).value); }
  }

  lemma PartStands(v: Value, nested: bool, p: Position)
    requires !p.Nested?
    ensures IsWalked(v, nested, p) <==> exists part :: StandsAt(v, p, part)
  {
    PathSegments(p);
    match p {
      case SystemPart(i) => ElementThere(v, SYSTEM, i);
      case Part(m, c) => ContentThere(v, m, c);
    }
    if IsWalked(v, nested, p) { assert StandsAt(v, p, At(v, PathOf(p)).value); }
  }

  /** The positions that are walked are those at which a part stands. */
  lemma WalkedIff(v: Value, nested: bool, p: Position)
    ensures IsWalked(v, nested, p) <==> (nested || !p.Nested?) && exists part :: StandsAt(v, p, part)
  {
    match p
    case Nested(m, c, n) => NestedStands(v, m, c, n);
    case _ => PartStands(v, nested, p);
  }

  // ---- In which order ----------------------------------------------------------------

  /** Before in the payload: the system first, then message by message, each part before what is nested in it. */
  predicate Before(p: Position, q: Position) {
    match (p, q)
    case (SystemPart(i), SystemPart(j)) => i < j
    case (SystemPart(_), _) => true
    case (_, SystemPart(_)) => false
    case (Part(m, c), Part(k, d)) => m < k || (m == k && c < d)
    case (Part(m, c), Nested(k, d, _)) => m < k || (m == k && c <= d)
    case (Nested(m, c, _), Part(k, d)) => m < k || (m == k && c < d)
    case (Nested(m, c, n), Nested(k, d, o)) => m < k || (m == k && (c < d || (c == d && n < o)))
  }

  predicate InOrder(s: seq<Position>) {
    forall i, j | 0 <= i < j < |s| :: Before(s[i], s[j])
  }

  lemma InOrderConcat(a: seq<Position>, b: seq<Position>)
    requires InOrder(a) && InOrder(b) && forall p, q | p in a && q in b :: Before(p, q)
    ensures InOrder(a + b)
  {
    forall i, j | 0 <= i < j < |a + b| ensures Before((a + b)[i], (a + b)[j]) {
      if i < |a| <= j { assert a[i] in a && b[j - |a|] in b; }
    }
  }

  lemma {:induction false} SystemInOrder(n: nat)
    ensures InOrder(SystemWalk(n))
  {
    if n > 0 {
      SystemForm(n - 1);
      SystemInOrder(n - 1);
      InOrderConcat(SystemWalk(n - 1), [SystemPart(n - 1)]);
    }
  }

  lemma {:induction false} NestedInOrder(m: nat, c: nat, n: nat)
    ensures InOrder(NestedWalk(m, c, n))
  {
    if n > 0 {
      NestedForm(m, c, n - 1);
      NestedInOrder(m, c, n - 1);
      InOrderConcat(NestedWalk(m, c, n - 1), [Nested(m, c, n - 1)]);
    }
  }

  lemma ContentGrows(v: Value, nested: bool, m: nat, c: nat, front: seq<Position>, below: seq<Position>)
    requires InOrder(front) && forall p | p in front :: InContent(v, nested, m, c, p)
    requires InOrder(below) && forall p | p in below :: p.Nested? && p.m == m && p.c == c
    ensures InOrder(front + [Part(m, c)] + below)
  {
    InOrderConcat(front, [Part(m, c)]);
    InOrderConcat(front + [Part(m, c)], below);
  }

  lemma {:induction false} ContentInOrder(v: Value, nested: bool, m: nat, n: nat)
    ensures InOrder(ContentWalk(v, nested, m, n))
  {
    if n > 0 {
      var k := NestedCount(v, nested, m, n - 1);
      ContentForm(v, nested, m, n - 1);
      ContentInOrder(v, nested, m, n - 1);
      NestedForm(m, n - 1, k);
      NestedInOrder(m, n - 1, k);
      ContentGrows(v, nested, m, n - 1, ContentWalk(v, nested, m, n - 1), NestedWalk(m, n - 1, k));
    }
  }

  lemma {:induction false} MessagesInOrder(v: Value, nested: bool, n: nat)
    ensures InOrder(MessagesWalk(v, nested, n))
  {
    if n > 0 {
      MessagesMembers(v, nested, n - 1);
      MessagesInOrder(v, nested, n - 1);
      ContentForm(v, nested, n - 1, Count(v, ContentPath(n - 1)));
      ContentInOrder(v, nested, n - 1, Count(v, ContentPath(n - 1)));
      InOrderConcat(MessagesWalk(v, nested, n - 1), ContentWalk(v, nested, n - 1, Count(v, ContentPath(n - 1))));
    }
  }

  /** The walk goes through the payload from front to back. */
  lemma WalkIsInOrder(v: Value, nested: bool)
    ensures InOrder(Walk(v, nested))
  {
    SystemForm(Count(v, SYSTEM));
    SystemInOrder(Count(v, SYSTEM));
    MessagesMembers(v, nested, Count(v, MESSAGES));
    MessagesInOrder(v, nested, Count(v, MESSAGES));
    InOrderConcat(SystemWalk(Count(v, SYSTEM)), MessagesWalk(v, nested, Count(v, MESSAGES)));
  }

  lemma InOrderFront(front: seq<Position>, last: Position)
    requires InOrder(front + [last])
    ensures InOrder(front) && forall p | p in front :: Before(p, last)
  {
    var s := front + [last];
    assert forall i | 0 <= i < |front| :: s[i] == front[i];
    forall p | p in front ensures Before(p, last) {
      var i :| 0 <= i < |front| && front[i] == p;
      assert s[i] == p && s[|front|] == last;
    }
  }

  /** So are the positions selected from it. */
  lemma {:induction false} SelectedInOrder(v: Value, test: Value -> bool, walk: seq<Position>)
    requires InOrder(walk)
    ensures InOrder(Selected(v, test, walk))
  {
    if walk != [] {
      var front, last := walk[..|walk|-1], walk[|walk|-1];
      assert walk == front + [last];
      InOrderFront(front, last);
      SelectedInOrder(v, test, front);
      InOrderConcat(Selected(v, test, front), [last]);
    }
  }

  /** The images of a payload, found by whatever test, are counted from front to back. */
  lemma ImagesAreInOrder(v: Value, test: Value -> bool, nested: bool)
    ensures InOrder(Selected(v, test, Walk(v, nested)))
  {
    WalkIsInOrder(v, nested);
    SelectedInOrder(v, test, Walk(v, nested));
  }
}
