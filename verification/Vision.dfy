/**
 The vision handoff of `src/vision.rs`: every image part is described and
 replaced by text. The analysis of an image is a parameter.
 */
module Vision {
  import opened Common
  import opened Json
  import opened JsonPointer
  import opened ImageParts
  import opened ImageShapes

  /** A reference to an image part: where it is, as a JSON pointer, and what it shows. */
  datatype ImageRef = ImageRef(path: string, dataUri: string)

  // ---- Collecting -----------------------------------------------------------------

  function RefAt(v: Value, p: Position): seq<ImageRef> {
    match At(v, PathOf(p))
    case None => []
    case Some(part) =>
      match ExtractImageUri(part)
      case Some(uri) => [ImageRef(PrintPath(PathOf(p)), uri)]
      case None => []
  }

  function Finder(v: Value): Position -> seq<ImageRef> {
    p => RefAt(v, p)
  }

  function Refs(v: Value, walk: seq<Position>): seq<ImageRef> {
    Gathered(Finder(v), walk)
  }

  /** The positions of the image parts, in walk order. */
  function Images(v: Value): seq<Position> {
    Selected(v, HasImageUri, Walk(v, true))
  }

  lemma RefsAppend(v: Value, walk: seq<Position>, p: Position)
    ensures Refs(v, walk + [p]) == Refs(v, walk) + RefAt(v, p)
  {
    GatheredAppend(Finder(v), walk, p);
  }

  lemma RefsConcat(v: Value, a: seq<Position>, b: seq<Position>)
    ensures Refs(v, a + b) == Refs(v, a) + Refs(v, b)
  {
    GatheredConcat(Finder(v), a, b);
  }

  /** Each reference is the printed path and the URI of the image part at its position. */
  lemma RefsOfImages(v: Value, walk: seq<Position>)
    ensures var at, refs := Selected(v, HasImageUri, walk), Refs(v, walk);
      && |refs| == |at|
      && forall i | 0 <= i < |refs| :: RefAt(v, at[i]) == [refs[i]]
  {
    GatheredSelected(v, HasImageUri, Finder(v), walk);
  }

  method CollectPart(v: Value, part: Value, ghost p: Position, path: string) returns (refs: seq<ImageRef>)
    requires At(v, PathOf(p)) == Some(part) && path == PrintPath(PathOf(p))
    ensures refs == RefAt(v, p)
  {
    var uri := ExtractImageUri(part);
    refs := if uri.Some? then [ImageRef(path, uri.value)] else [];
  }

  method CollectSystem(v: Value) returns (refs: seq<ImageRef>)
    ensures refs == Refs(v, SystemWalk(Count(v, SYSTEM)))
  {
    refs := [];
    MemberAt(v, [], v, "system");
    assert [] + [Key("system")] == SYSTEM;
    var system := GetArray(v, "system");
    if system.None? { return; }
    for i := 0 to |system.value|
      invariant refs == Refs(v, SystemWalk(i))
    {
      ElementsAt(v, SYSTEM, system.value, i);
      var found := CollectPart(v, system.value[i], SystemPart(i), PrintPath(PathOf(SystemPart(i))));
      RefsAppend(v, SystemWalk(i), SystemPart(i));
      refs := refs + found;
    }
  }

  /** The nested loop over the content of a tool result. */
  method CollectNested(v: Value, m: nat, c: nat, part: Value) returns (refs: seq<ImageRef>)
    requires At(v, PathOf(Part(m, c))) == Some(part)
    ensures refs == Refs(v, NestedWalk(m, c, NestedCount(v, true, m, c)))
  {
    refs := [];
    TypeOfPart(v, m, c);
    MemberAt(v, PathOf(Part(m, c)), part, "content");
    assert PathOf(Part(m, c)) + [Key("content")] == NestedPath(m, c);
    if GetStr(part, "type") != Some("tool_result") { return; }
    var nested := GetArray(part, "content");
    if nested.None? { return; }
    for n := 0 to |nested.value|
      invariant refs == Refs(v, NestedWalk(m, c, n))
    {
      ElementsAt(v, NestedPath(m, c), nested.value, n);
      var found := CollectPart(v, nested.value[n], Nested(m, c, n), PrintPath(PathOf(Nested(m, c, n))));
      RefsAppend(v, NestedWalk(m, c, n), Nested(m, c, n));
      refs := refs + found;
    }
  }

  lemma ContentStep(v: Value, m: nat, c: nat, refs: seq<ImageRef>, found: seq<ImageRef>, below: seq<ImageRef>)
    requires refs == Refs(v, ContentWalk(v, true, m, c)) && found == RefAt(v, Part(m, c))
    requires below == Refs(v, NestedWalk(m, c, NestedCount(v, true, m, c)))
    ensures refs + found + below == Refs(v, ContentWalk(v, true, m, c + 1))
  {
    RefsAppend(v, ContentWalk(v, true, m, c), Part(m, c));
    RefsConcat(v, ContentWalk(v, true, m, c) + [Part(m, c)], NestedWalk(m, c, NestedCount(v, true, m, c)));
  }

  method CollectContent(v: Value, m: nat, content: seq<Value>) returns (refs: seq<ImageRef>)
    requires At(v, ContentPath(m)) == Some(Array(content))
    ensures refs == Refs(v, ContentWalk(v, true, m, |content|))
  {
    refs := [];
    for c := 0 to |content|
      invariant refs == Refs(v, ContentWalk(v, true, m, c))
    {
      ElementsAt(v, ContentPath(m), content, c);
      var found := CollectPart(v, content[c], Part(m, c), PrintPath(PathOf(Part(m, c))));
      var below := CollectNested(v, m, c, content[c]);
      ContentStep(v, m, c, refs, found, below);
      refs := refs + found + below;
    }
  }

  method CollectImageParts(v: Value) returns (refs: seq<ImageRef>)
    ensures refs == Refs(v, Walk(v, true))
  {
    refs := CollectSystem(v);
    MemberAt(v, [], v, "messages");
    assert [] + [Key("messages")] == MESSAGES;
    RefsConcat(v, SystemWalk(Count(v, SYSTEM)), MessagesWalk(v, true, Count(v, MESSAGES)));
    var messages := GetArray(v, "messages");
    if messages.None? { return; }
    var found := CollectMessages(v, messages.value);
    refs := refs + found;
  }

  method CollectMessage(v: Value, m: nat, message: Value) returns (refs: seq<ImageRef>)
    requires At(v, ContentPath(m)) == Get(message, "content")
    ensures refs == Refs(v, ContentWalk(v, true, m, Count(v, ContentPath(m))))
  {
    refs := [];
    var content := GetArray(message, "content");
    if content.Some? { refs := CollectContent(v, m, content.value); }
  }

  method CollectMessages(v: Value, messages: seq<Value>) returns (refs: seq<ImageRef>)
    requires At(v, MESSAGES) == Some(Array(messages))
    ensures refs == Refs(v, MessagesWalk(v, true, |messages|))
  {
    refs := [];
    for m := 0 to |messages|
      invariant refs == Refs(v, MessagesWalk(v, true, m))
    {
      ContentOfMessage(v, messages, m);
      var found := CollectMessage(v, m, messages[m]);
      RefsConcat(v, MessagesWalk(v, true, m), ContentWalk(v, true, m, Count(v, ContentPath(m))));
      refs := refs + found;
    }
  }

  // ---- Replacing --------------------------------------------------------------------

  const CAPTION: string :=
    " content — analyzed by vision module, shown as text because the active model cannot see images:]\n"

  /** The text that stands in for image `i` of `count`. */
  function LabelText(i: nat, count: nat, description: string): string {
    if count > 1 then "[Image " + Decimal(i + 1) + CAPTION + description
    else "[Image" + CAPTION + description
  }

  /** The part standing in for an image, from its number, the number of images and its URI. */
  type Captioning = (nat, nat, string) -> Value

  /** The parts for the first `n` images. */
  function Labels(refs: seq<ImageRef>, n: nat, caption: Captioning): (xs: seq<Value>)
    requires n <= |refs|
    ensures |xs| == n && forall i | 0 <= i < n :: xs[i] == caption(i, |refs|, refs[i].dataUri)
  {
    if n == 0 then [] else Labels(refs, n - 1, caption) + [caption(n - 1, |refs|, refs[n - 1].dataUri)]
  }

  function HandedOff(v: Value, caption: Captioning): Value {
    RefsOfImages(v, Walk(v, true));
    var refs := Refs(v, Walk(v, true));
    Replaced(v, Images(v), Labels(refs, |refs|, caption))
  }

  /** Each reference's path reads back as the path of its image. */
  ghost predicate Addresses(refs: seq<ImageRef>, images: seq<Position>) {
    |refs| == |images| && forall i | 0 <= i < |refs| :: ParsePath(refs[i].path) == PathOf(images[i])
  }

  lemma ReferencesAddressImages(v: Value)
    requires Addressable(v)
    ensures Addresses(Refs(v, Walk(v, true)), Images(v))
  {
    var refs, images := Refs(v, Walk(v, true)), Images(v);
    RefsOfImages(v, Walk(v, true));
    WalkMembers(v, true);
    forall i | 0 <= i < |refs| ensures ParsePath(refs[i].path) == PathOf(images[i]) {
      assert images[i] in images && RefAt(v, images[i]) == [refs[i]];
      PositionPrints(v, true, images[i]);
    }
  }

  method ReplaceImages(payload: Value, refs: seq<ImageRef>, ghost images: seq<Position>, caption: Captioning)
    returns (out: Value)
    requires Addresses(refs, images)
    ensures out == Replaced(payload, images, Labels(refs, |refs|, caption))
  {
    out := payload;
    ghost var xs: seq<Value> := [];
    for i := 0 to |refs|
      invariant xs == Labels(refs, i, caption) && out == Replaced(payload, images[..i], xs)
    {
      var part := caption(i, |refs|, refs[i].dataUri);
      ReplacementStep(payload, images, i, xs, part);
      out := ReplaceAt(out, refs[i].path, part);
      xs := xs + [part];
    }
    assert images[..|refs|] == images;
  }

  function Captions(describe: (nat, string) -> string): Captioning {
    (i: nat, count: nat, uri: string) => TextPart(LabelText(i, count, describe(i, uri)))
  }

  /** `describe` gives what the analysis of an image made of its URI. */
  method PerformVisionHandoff(payload: Value, needed: bool, describe: (nat, string) -> string)
    returns (out: Value, count: nat)
    requires Addressable(payload)
    ensures !needed ==> out == payload && count == 0
    ensures needed ==>
      out == HandedOff(payload, Captions(describe)) && count == |Images(payload)|
  {
    if !needed { return payload, 0; }
    var refs := CollectImageParts(payload);
    ReferencesAddressImages(payload);
    count := |refs|;
    out := ReplaceImages(payload, refs, Images(payload), Captions(describe));
  }

  // ---- What the handoff does ------------------------------------------------------------

  lemma LabelsAreTexts(refs: seq<ImageRef>, describe: (nat, string) -> string)
    ensures AllTexts(Labels(refs, |refs|, Captions(describe)))
  {
    var xs := Labels(refs, |refs|, Captions(describe));
    forall x | x in xs ensures IsText(x) {
      var i :| 0 <= i < |xs| && xs[i] == x;
      TextPartIsText(LabelText(i, |refs|, describe(i, refs[i].dataUri)));
    }
  }

  /** A part that was not replaced and passes no test before passes none after. */
  lemma NoNewImages(v: Value, xs: seq<Value>, p: Position)
    requires |Images(v)| == |xs| && IsWalked(v, true, p) && p !in Images(v)
    ensures !Passes(Replaced(v, Images(v), xs), HasImageUri, p)
  {
    var at := Images(v);
    BothTestImages();
    SelectedImagesAreApart(v, HasImageUri, true);
    WalkMembers(v, true);
    if s :| s in at && (PathOf(s) <= PathOf(p) || PathOf(p) <= PathOf(s)) {
      if PathOf(s) <= PathOf(p) { PathsApart(s, p); } else { PathsApart(p, s); }
      UnreplacedPart(v, at, xs, p.m, p.c);
      if Passes(Replaced(v, at, xs), HasImageUri, p) {
        ImageIsNoToolResult(Replaced(v, at, xs), HasImageUri, p.m, p.c);
      }
    } else {
      ReplacedClear(v, at, xs, PathOf(p));
    }
  }

  lemma TextIsNoImage(v: Value, xs: seq<Value>, i: nat)
    requires |Images(v)| == |xs| && AllTexts(xs) && i < |xs|
    ensures !Passes(Replaced(v, Images(v), xs), HasImageUri, Images(v)[i])
  {
    BothTestImages();
    SelectedImagesAreApart(v, HasImageUri, true);
    ReplacedThere(v, Images(v), xs, i);
    assert xs[i] in xs;
  }

  lemma TextsLeaveNoImage(v: Value, xs: seq<Value>)
    requires |Images(v)| == |xs| && AllTexts(xs)
    ensures Walk(Replaced(v, Images(v), xs), true) == Walk(v, true)
    ensures Images(Replaced(v, Images(v), xs)) == []
  {
    var at := Images(v);
    var after := Replaced(v, at, xs);
    BothTestImages();
    SelectedImagesAreApart(v, HasImageUri, true);
    ReplacedKeepsWalk(v, at, xs, true);
    WalkMembers(v, true);
    forall p | p in Walk(v, true) ensures !Passes(after, HasImageUri, p) {
      if p in at {
        var i :| 0 <= i < |at| && at[i] == p;
        TextIsNoImage(v, xs, i);
      } else {
        NoNewImages(v, xs, p);
      }
    }
    FirstIsMember(Images(after));
  }

  /** No image is left after the handoff, in a payload walked as before. */
  lemma HandoffLeavesNoImage(v: Value, describe: (nat, string) -> string)
    ensures var w := HandedOff(v, Captions(describe));
      Walk(w, true) == Walk(v, true) && Images(w) == [] && Refs(w, Walk(w, true)) == []
  {
    var refs := Refs(v, Walk(v, true));
    RefsOfImages(v, Walk(v, true));
    LabelsAreTexts(refs, describe);
    TextsLeaveNoImage(v, Labels(refs, |refs|, Captions(describe)));
    RefsOfImages(HandedOff(v, Captions(describe)), Walk(v, true));
  }

  lemma HandoffPlace(v: Value, caption: Captioning, i: nat)
    requires i < |Images(v)|
    ensures var refs := Refs(v, Walk(v, true));
      && |refs| == |Images(v)|
      && At(HandedOff(v, caption), PathOf(Images(v)[i])) == Some(caption(i, |refs|, refs[i].dataUri))
  {
    var refs := Refs(v, Walk(v, true));
    RefsOfImages(v, Walk(v, true));
    BothTestImages();
    SelectedImagesAreApart(v, HasImageUri, true);
    ReplacedThere(v, Images(v), Labels(refs, |refs|, caption), i);
  }

  lemma HandoffElsewhere(v: Value, caption: Captioning, q: Path)
    ensures Outside(Images(v), q) ==> ShapeAt(HandedOff(v, caption), q) == ShapeAt(v, q)
    ensures Clear(Images(v), q) ==> At(HandedOff(v, caption), q) == At(v, q)
  {
    var refs := Refs(v, Walk(v, true));
    RefsOfImages(v, Walk(v, true));
    BothTestImages();
    SelectedImagesAreApart(v, HasImageUri, true);
    ReplacedAt(v, Images(v), Labels(refs, |refs|, caption), q);
  }

  /**
   The handoff replaces each image by its own numbered description and nothing
   else: every node outside the replaced parts keeps its shape, and its content
   if it holds none of them.
   */
  lemma HandoffReplacesEachImage(v: Value, caption: Captioning, q: Path)
    ensures var at, refs := Images(v), Refs(v, Walk(v, true));
      |refs| == |at| && forall i | 0 <= i < |at| && PathOf(at[i]) == q ::
        At(HandedOff(v, caption), q) == Some(caption(i, |at|, refs[i].dataUri))
    ensures Outside(Images(v), q) ==> ShapeAt(HandedOff(v, caption), q) == ShapeAt(v, q)
    ensures Clear(Images(v), q) ==> At(HandedOff(v, caption), q) == At(v, q)
  {
    RefsOfImages(v, Walk(v, true));
    forall i | 0 <= i < |Images(v)| && PathOf(Images(v)[i]) == q {
      HandoffPlace(v, caption, i);
    }
    HandoffElsewhere(v, caption, q);
  }

  // ---- The same on the wire -----------------------------------------------------------------

  /** An image is walked where a part that shows one stands. */
  lemma ImageIff(v: Value, p: Position)
    ensures p in Images(v) <==> exists part, uri :: StandsAt(v, p, part) && Shows(part, uri)
  {
    WalkMembers(v, true);
    WalkedIff(v, true, p);
    if p in Images(v) {
      var part :| StandsAt(v, p, part);
      StandsAtPath(v, p, part);
      ReadsIff(part, ExtractImageUri(part).value);
    }
    if part, uri :| StandsAt(v, p, part) && Shows(part, uri) {
      StandsAtPath(v, p, part);
      ReadsIff(part, uri);
    }
  }

  ghost predicate IsCollected(v: Value, ref: ImageRef) {
    exists p, part :: StandsAt(v, p, part) && Shows(part, ref.dataUri) && ref.path == Printed(p)
  }

  lemma RefAtPosition(v: Value, p: Position, part: Value, ref: ImageRef)
    requires StandsAt(v, p, part)
    ensures RefAt(v, p) == [ref] <==> Shows(part, ref.dataUri) && ref.path == Printed(p)
  {
    StandsAtPath(v, p, part);
    PositionIsPrinted(p);
    ReadsIff(part, ref.dataUri);
  }

  lemma CollectedShows(v: Value, i: nat)
    requires i < |Refs(v, Walk(v, true))|
    ensures IsCollected(v, Refs(v, Walk(v, true))[i])
  {
    var ref := Refs(v, Walk(v, true))[i];
    RefsOfImages(v, Walk(v, true));
    var p := Images(v)[i];
    assert p in Images(v);
    WalkMembers(v, true);
    WalkedIff(v, true, p);
    var part :| StandsAt(v, p, part);
    RefAtPosition(v, p, part, ref);
  }

  lemma ShownIsCollected(v: Value, ref: ImageRef, p: Position, part: Value)
    requires StandsAt(v, p, part) && Shows(part, ref.dataUri) && ref.path == Printed(p)
    ensures ref in Refs(v, Walk(v, true))
  {
    ImageIff(v, p);
    RefsOfImages(v, Walk(v, true));
    var i :| 0 <= i < |Images(v)| && Images(v)[i] == p;
    RefAtPosition(v, p, part, ref);
    assert Refs(v, Walk(v, true))[i] == ref;
  }

  /** What is collected: the printed path and the URI of every part that shows an image, and nothing else. */
  lemma CollectedIff(v: Value, ref: ImageRef)
    ensures ref in Refs(v, Walk(v, true)) <==> IsCollected(v, ref)
  {
    if i: nat :| i < |Refs(v, Walk(v, true))| && Refs(v, Walk(v, true))[i] == ref { CollectedShows(v, i); }
    if p, part :| StandsAt(v, p, part) && Shows(part, ref.dataUri) && ref.path == Printed(p) {
      ShownIsCollected(v, ref, p, part);
    }
  }

  /** After the handoff no part shows an image any more. */
  lemma NothingShowsAfterwards(v: Value, describe: (nat, string) -> string, p: Position, part: Value, uri: string)
    requires StandsAt(HandedOff(v, Captions(describe)), p, part)
    ensures !Shows(part, uri)
  {
    HandoffLeavesNoImage(v, describe);
    ImageIff(HandedOff(v, Captions(describe)), p);
  }

  /** The text part that stands in for an image: its number if there are several, and what it was described as. */
  ghost predicate IsCaption(part: Value, i: nat, count: nat, description: string) {
    && part.Object? && part.fields.Keys == {"type", "text"}
    && Says(part, [Key("type")], "text")
    && Says(part, [Key("text")], (if count == 1 then "[Image" else "[Image " + Decimal(i + 1)) +
         " content — analyzed by vision module, shown as text because the active model cannot see images:]\n" +
         description)
  }

  lemma CaptionIsText(i: nat, count: nat, description: string)
    requires i < count
    ensures IsCaption(TextPart(LabelText(i, count, description)), i, count, description)
  {
    var part := TextPart(LabelText(i, count, description));
    AtKey(part, "type");
    AtKey(part, "text");
    assert "type"[1] != "text"[1];
  }

  /** In its place each image has its own caption, with the description of its own URI. */
  lemma EachImageIsCaptioned(v: Value, describe: (nat, string) -> string, i: nat)
    requires i < |Images(v)|
    ensures exists before, uri, after ::
      && StandsAt(v, Images(v)[i], before) && Shows(before, uri)
      && At(HandedOff(v, Captions(describe)), PathOf(Images(v)[i])) == Some(after)
      && IsCaption(after, i, |Images(v)|, describe(i, uri))
  {
    var p, refs := Images(v)[i], Refs(v, Walk(v, true));
    assert p in Images(v);
    WalkMembers(v, true);
    WalkedIff(v, true, p);
    var before :| StandsAt(v, p, before);
    HandoffPlace(v, Captions(describe), i);
    RefsOfImages(v, Walk(v, true));
    RefAtPosition(v, p, before, refs[i]);
    CaptionIsText(i, |Images(v)|, describe(i, refs[i].dataUri));
  }
}
