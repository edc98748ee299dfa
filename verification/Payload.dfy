/** The image cap of `src/payload.rs`: the oldest image parts are replaced by a note. */
module Payload {
  import opened Common
  import opened Json
  import opened JsonPointer
  import opened ImageParts
  import opened ImageShapes
  import opened Sorting

  datatype ImagePos = ImagePos(path: string, msgIndex: int)

  // ---- Collecting ----------------------------------------------------------------

  function FoundAt(v: Value, p: Position): seq<ImagePos> {
    if Passes(v, IsImagePart, p) then [ImagePos(PrintPath(PathOf(p)), MessageOf(p))] else []
  }

  function Finder(v: Value): Position -> seq<ImagePos> {
    p => FoundAt(v, p)
  }

  function Found(v: Value, walk: seq<Position>): seq<ImagePos> {
    Gathered(Finder(v), walk)
  }

  /** The positions of the image parts, in walk order; tool results are not looked into. */
  function Images(v: Value): seq<Position> {
    Selected(v, IsImagePart, Walk(v, false))
  }

  lemma FoundAppend(v: Value, walk: seq<Position>, p: Position)
    ensures Found(v, walk + [p]) == Found(v, walk) + FoundAt(v, p)
  {
    GatheredAppend(Finder(v), walk, p);
  }

  lemma FoundConcat(v: Value, a: seq<Position>, b: seq<Position>)
    ensures Found(v, a + b) == Found(v, a) + Found(v, b)
  {
    GatheredConcat(Finder(v), a, b);
  }

  lemma FoundImages(v: Value)
    ensures var found, at := Found(v, Walk(v, false)), Images(v);
      |found| == |at| && forall i | 0 <= i < |at| :: FoundAt(v, at[i]) == [found[i]]
  {
    GatheredSelected(v, IsImagePart, Finder(v), Walk(v, false));
  }

  method CollectPart(v: Value, part: Value, ghost p: Position, path: string, msgIndex: int)
    returns (found: seq<ImagePos>)
    requires At(v, PathOf(p)) == Some(part) && path == PrintPath(PathOf(p)) && msgIndex == MessageOf(p)
    ensures found == FoundAt(v, p)
  {
    found := if IsImagePart(part) then [ImagePos(path, msgIndex)] else [];
  }

  method CollectSystem(v: Value) returns (found: seq<ImagePos>)
    ensures found == Found(v, SystemWalk(Count(v, SYSTEM)))
  {
    found := [];
    MemberAt(v, [], v, "system");
    assert [] + [Key("system")] == SYSTEM;
    var system := GetArray(v, "system");
    if system.None? { return; }
    for i := 0 to |system.value|
      invariant found == Found(v, SystemWalk(i))
    {
      ElementsAt(v, SYSTEM, system.value, i);
      var more := CollectPart(v, system.value[i], SystemPart(i), PrintPath(PathOf(SystemPart(i))), -1);
      FoundAppend(v, SystemWalk(i), SystemPart(i));
      found := found + more;
    }
  }

  lemma ContentStep(v: Value, m: nat, c: nat)
    ensures Found(v, ContentWalk(v, false, m, c + 1)) == Found(v, ContentWalk(v, false, m, c)) + FoundAt(v, Part(m, c))
  {
    FoundAppend(v, ContentWalk(v, false, m, c), Part(m, c));
    assert NestedWalk(m, c, NestedCount(v, false, m, c)) == [];
    assert ContentWalk(v, false, m, c + 1) == ContentWalk(v, false, m, c) + [Part(m, c)];
  }

  method CollectContent(v: Value, m: nat, content: seq<Value>) returns (found: seq<ImagePos>)
    requires At(v, ContentPath(m)) == Some(Array(content))
    ensures found == Found(v, ContentWalk(v, false, m, |content|))
  {
    found := [];
    for c := 0 to |content|
      invariant found == Found(v, ContentWalk(v, false, m, c))
    {
      ElementsAt(v, ContentPath(m), content, c);
      var more := CollectPart(v, content[c], Part(m, c), PrintPath(PathOf(Part(m, c))), m);
      ContentStep(v, m, c);
      found := found + more;
    }
  }

  method CollectMessage(v: Value, m: nat, message: Value) returns (found: seq<ImagePos>)
    requires At(v, ContentPath(m)) == Get(message, "content")
    ensures found == Found(v, ContentWalk(v, false, m, Count(v, ContentPath(m))))
  {
    found := [];
    var content := GetArray(message, "content");
    if content.Some? { found := CollectContent(v, m, content.value); }
  }

  method CollectMessages(v: Value, messages: seq<Value>) returns (found: seq<ImagePos>)
    requires At(v, MESSAGES) == Some(Array(messages))
    ensures found == Found(v, MessagesWalk(v, false, |messages|))
  {
    found := [];
    for m := 0 to |messages|
      invariant found == Found(v, MessagesWalk(v, false, m))
    {
      ContentOfMessage(v, messages, m);
      var more := CollectMessage(v, m, messages[m]);
      FoundConcat(v, MessagesWalk(v, false, m), ContentWalk(v, false, m, Count(v, ContentPath(m))));
      found := found + more;
    }
  }

  method CollectPositions(v: Value) returns (found: seq<ImagePos>)
    ensures found == Found(v, Walk(v, false))
  {
    found := CollectSystem(v);
    MemberAt(v, [], v, "messages");
    assert [] + [Key("messages")] == MESSAGES;
    FoundConcat(v, SystemWalk(Count(v, SYSTEM)), MessagesWalk(v, false, Count(v, MESSAGES)));
    var messages := GetArray(v, "messages");
    if messages.None? { return; }
    var more := CollectMessages(v, messages.value);
    found := found + more;
  }

  // ---- The sort -------------------------------------------------------------

  function IndexOfMessage(p: ImagePos): int {
    p.msgIndex
  }

  /** `sort_by_key` on the message index. */
  function ByMessage(positions: seq<ImagePos>): seq<ImagePos> {
    Sorted(IndexOfMessage, positions)
  }

  /** The positions are collected in message order: sorting them changes nothing. */
  lemma SortChangesNothing(v: Value)
    ensures ByMessage(Found(v, Walk(v, false))) == Found(v, Walk(v, false))
  {
    var found, at := Found(v, Walk(v, false)), Images(v);
    FoundImages(v);
    WalkOrder(v, false);
    SelectedKeepsOrder(v, IsImagePart, Walk(v, false));
    forall i, j | 0 <= i < j < |found| ensures found[i].msgIndex <= found[j].msgIndex {
      assert FoundAt(v, at[i]) == [found[i]] && FoundAt(v, at[j]) == [found[j]];
    }
    SortKeepsAscending(IndexOfMessage, found);
  }

  // ---- The cap ------------------------------------------------------------------------

  function Notes(n: nat, note: Value): (r: seq<Value>)
    ensures |r| == n && forall x | x in r :: x == note
  {
    if n == 0 then [] else Notes(n - 1, note) + [note]
  }

  function Excess(count: nat, max: nat): nat {
    if max == 0 || count <= max then 0 else count - max
  }

  /** The payload with `note` in place of all but the last `max` images. */
  function Limited(v: Value, max: nat, note: Value): Value {
    var k := Excess(|Images(v)|, max);
    Replaced(v, Images(v)[..k], Notes(k, note))
  }

  ghost predicate Addresses(found: seq<ImagePos>, images: seq<Position>) {
    |found| == |images| && forall i | 0 <= i < |found| :: ParsePath(found[i].path) == PathOf(images[i])
  }

  lemma PositionsAddressImages(v: Value)
    requires Addressable(v)
    ensures Addresses(Found(v, Walk(v, false)), Images(v))
  {
    var found, images := Found(v, Walk(v, false)), Images(v);
    FoundImages(v);
    WalkMembers(v, false);
    forall i | 0 <= i < |found| ensures ParsePath(found[i].path) == PathOf(images[i]) {
      assert images[i] in images && FoundAt(v, images[i]) == [found[i]];
      PositionPrints(v, false, images[i]);
    }
  }

  method ReplaceOldest(payload: Value, found: seq<ImagePos>, ghost images: seq<Position>, n: nat, note: Value)
    returns (out: Value)
    requires Addresses(found, images) && n <= |found|
    ensures out == Replaced(payload, images[..n], Notes(n, note))
  {
    out := payload;
    ghost var xs: seq<Value> := [];
    for i := 0 to n
      invariant xs == Notes(i, note) && out == Replaced(payload, images[..i], xs)
    {
      ReplacementStep(payload, images, i, xs, note);
      out := ReplaceAt(out, found[i].path, note);
      xs := xs + [note];
    }
  }

  /** What is left are the last `max` of them, or all if there are no more. */
  ghost predicate AreLast(all: seq<Position>, max: nat, left: seq<Position>) {
    |left| == (if |all| < max then |all| else max) && exists gone :: all == gone + left
  }

  function SharedNote(): Value {
    TextPart("(Image previously shared)")
  }

  lemma NothingToReplace(v: Value, max: nat, note: Value)
    ensures Excess(|Images(v)|, max) == 0 ==> Limited(v, max, note) == v
  {
  }

  lemma OldestReplaced(v: Value, max: nat, note: Value, n: nat)
    requires 0 < max < |Images(v)| && n == |Images(v)| - max
    ensures Limited(v, max, note) == Replaced(v, Images(v)[..n], Notes(n, note))
  {
    assert Excess(|Images(v)|, max) == n;
  }

  lemma AsManyAsImages(v: Value)
    ensures |Found(v, Walk(v, false))| == |Images(v)|
  {
    FoundImages(v);
  }

  method ReplaceAllBut(payload: Value, positions: seq<ImagePos>, max: nat, note: Value) returns (out: Value)
    requires Addresses(positions, Images(payload)) && 0 < max < |positions|
    ensures out == Limited(payload, max, note)
  {
    OldestReplaced(payload, max, note, |positions| - max);
    out := ReplaceOldest(payload, positions, Images(payload), |positions| - max, note);
  }

  method LimitImages(payload: Value, maxImages: nat, note: Value) returns (out: Value)
    requires Addressable(payload)
    ensures out == Limited(payload, maxImages, note)
  {
    NothingToReplace(payload, maxImages, note);
    if maxImages == 0 { return payload; }
    var positions := CollectPositions(payload);
    AsManyAsImages(payload);
    var count := |positions|;
    if count <= maxImages { return payload; }
    SortChangesNothing(payload);
    positions := ByMessage(positions);
    PositionsAddressImages(payload);
    out := ReplaceAllBut(payload, positions, maxImages, note);
  }

  method LimitImagesInMessages(payload: Value, maxImages: nat) returns (out: Value)
    requires Addressable(payload)
    ensures out == Limited(payload, maxImages, SharedNote())
    ensures maxImages == 0 ==> out == payload
    ensures maxImages > 0 ==>
      AreLast(Images(payload), maxImages, Images(out)) && Walk(out, false) == Walk(payload, false)
    ensures Limited(out, maxImages, SharedNote()) == out
  {
    out := LimitImages(payload, maxImages, SharedNote());
    SharedNoteIsText();
    CapTwice(payload, maxImages, SharedNote());
    if maxImages > 0 { CapIsExact(payload, maxImages, SharedNote()); }
  }

  // ---- What the cap does -----------------------------------------------------------------

  lemma SharedNoteIsText()
    ensures IsText(SharedNote())
  {
    TextPartIsText("(Image previously shared)");
  }

  lemma OldestAreApart(v: Value, k: nat)
    requires k <= |Images(v)|
    ensures var at := Images(v)[..k]; Apart(at) && AllThere(v, at) && NoToolResults(v, at)
  {
    BothTestImages();
    SelectedImagesAreApart(v, IsImagePart, false);
    FirstAreApart(v, Images(v), k);
  }

  lemma WalkKept(v: Value, k: nat, note: Value)
    requires k <= |Images(v)| && IsText(note)
    ensures Walk(Replaced(v, Images(v)[..k], Notes(k, note)), false) == Walk(v, false)
  {
    OldestAreApart(v, k);
    ReplacedKeepsWalk(v, Images(v)[..k], Notes(k, note), false);
  }

  /** A walked part is not touched by the replacement of others. */
  lemma OthersPassAsBefore(v: Value, k: nat, note: Value, p: Position)
    requires k <= |Images(v)| && IsWalked(v, false, p) && p !in Images(v)[..k]
    ensures Passes(Replaced(v, Images(v)[..k], Notes(k, note)), IsImagePart, p) == Passes(v, IsImagePart, p)
  {
    var at := Images(v)[..k];
    OldestAreApart(v, k);
    WalkMembers(v, false);
    forall s | s in at ensures !(PathOf(s) <= PathOf(p)) && !(PathOf(p) <= PathOf(s)) {
      assert s in Images(v) && IsWalked(v, false, s);
      if PathOf(s) <= PathOf(p) { PathsApart(s, p); }
      if PathOf(p) <= PathOf(s) { PathsApart(p, s); }
    }
    ReplacedClear(v, at, Notes(k, note), PathOf(p));
  }

  lemma NoteIsNoImage(v: Value, k: nat, note: Value, i: nat)
    requires i < k <= |Images(v)| && IsText(note)
    ensures !Passes(Replaced(v, Images(v)[..k], Notes(k, note)), IsImagePart, Images(v)[i])
  {
    OldestAreApart(v, k);
    ReplacedThere(v, Images(v)[..k], Notes(k, note), i);
    assert Notes(k, note)[i] in Notes(k, note);
  }

  lemma NoneSelected(w: Value, test: Value -> bool, walk: seq<Position>)
    requires forall p | p in walk :: !Passes(w, test, p)
    ensures Selected(w, test, walk) == []
  {
    FirstIsMember(Selected(w, test, walk));
  }

  /** Of the selected positions just those from `k` on pass in the other payload. */
  ghost predicate PassFrom(v: Value, w: Value, test: Value -> bool, walk: seq<Position>, k: nat) {
    k <= |Selected(v, test, walk)| &&
    forall p | p in walk :: Passes(w, test, p) <==> p in Selected(v, test, walk)[k..]
  }

  /** Those are what is selected there. */
  ghost predicate SelectedFrom(v: Value, w: Value, test: Value -> bool, walk: seq<Position>, k: nat) {
    k <= |Selected(v, test, walk)| && Selected(w, test, walk) == Selected(v, test, walk)[k..]
  }

  lemma NonePass(v: Value, w: Value, test: Value -> bool, walk: seq<Position>, k: nat)
    requires PassFrom(v, w, test, walk, k) && k == |Selected(v, test, walk)|
    ensures SelectedFrom(v, w, test, walk, k)
  {
    NoneSelected(w, test, walk);
  }

  lemma LastIsNew(front: seq<Position>, last: Position)
    requires NoRepeats(front + [last])
    ensures NoRepeats(front) && last !in front
  {
    var walk := front + [last];
    assert forall i | 0 <= i < |front| :: walk[i] == front[i] && walk[i] != walk[|front|];
  }

  lemma {:induction false} SelectedSuffix(v: Value, w: Value, test: Value -> bool, walk: seq<Position>, k: nat)
    requires NoRepeats(walk) && PassFrom(v, w, test, walk, k)
    ensures SelectedFrom(v, w, test, walk, k)
  {
    if k == |Selected(v, test, walk)| {
      NonePass(v, w, test, walk, k);
    } else {
      var front, last := walk[..|walk|-1], walk[|walk|-1];
      assert walk == front + [last];
      LastIsNew(front, last);
      FrontSelected(v, w, test, front, last, k);
      SelectedSuffix(v, w, test, front, k);
      SuffixAppend(v, w, test, front, last, k);
    }
  }

  lemma SelectedAppend(v: Value, test: Value -> bool, front: seq<Position>, last: Position)
    ensures Selected(v, test, front + [last]) == Selected(v, test, front) + if Passes(v, test, last) then [last] else []
  {
    assert (front + [last])[..|front|] == front;
  }

  lemma SuffixAppend(v: Value, w: Value, test: Value -> bool, front: seq<Position>, last: Position, k: nat)
    requires SelectedFrom(v, w, test, front, k)
    requires Passes(w, test, last) <==> Passes(v, test, last)
    ensures SelectedFrom(v, w, test, front + [last], k)
  {
    SelectedAppend(v, test, front, last);
    SelectedAppend(w, test, front, last);
  }

  lemma SuffixOfConcatenation(s: seq<Position>, more: seq<Position>, k: nat, p: Position)
    requires k <= |s|
    ensures p in (s + more)[k..] <==> p in s[k..] || p in more
  {
    assert (s + more)[k..] == s[k..] + more;
  }

  lemma InSuffix(s: seq<Position>, k: nat, p: Position)
    requires k <= |s| && p in s[k..]
    ensures p in s
  {
  }

  lemma FrontSelected(v: Value, w: Value, test: Value -> bool, front: seq<Position>, last: Position, k: nat)
    requires last !in front && k < |Selected(v, test, front + [last])|
    requires PassFrom(v, w, test, front + [last], k)
    ensures PassFrom(v, w, test, front, k)
    ensures Passes(w, test, last) <==> Passes(v, test, last)
  {
    var s := Selected(v, test, front);
    var more: seq<Position> := if Passes(v, test, last) then [last] else [];
    SelectedAppend(v, test, front, last);
    forall p | p in front + [last] ensures Passes(w, test, p) <==> p in s[k..] || p in more {
      SuffixOfConcatenation(s, more, k, p);
    }
    assert last in front + [last];
    if last in s[k..] { InSuffix(s, k, last); }
  }

  lemma OldestDoNotPass(v: Value, k: nat, note: Value, p: Position)
    requires k <= |Images(v)| && IsText(note) && p in Images(v)[..k]
    ensures !Passes(Replaced(v, Images(v)[..k], Notes(k, note)), IsImagePart, p)
  {
    var i :| 0 <= i < k && Images(v)[..k][i] == p;
    NoteIsNoImage(v, k, note, i);
  }

  /** A position is among the oldest images or the others, not both. */
  lemma OldestOrNot(v: Value, k: nat, p: Position)
    requires k <= |Images(v)|
    ensures p in Images(v)[k..] <==> p in Images(v) && p !in Images(v)[..k]
  {
    WalkOrder(v, false);
    SelectedKeepsOrder(v, IsImagePart, Walk(v, false));
    SplitApart(Images(v), k, p);
  }

  lemma SplitApart(s: seq<Position>, k: nat, p: Position)
    requires k <= |s| && NoRepeats(s)
    ensures p in s[k..] <==> p in s && p !in s[..k]
  {
    assert s == s[..k] + s[k..];
  }

  lemma PassingAfter(v: Value, k: nat, note: Value, p: Position)
    requires k <= |Images(v)| && IsText(note) && p in Walk(v, false)
    ensures Passes(Replaced(v, Images(v)[..k], Notes(k, note)), IsImagePart, p) <==> p in Images(v)[k..]
  {
    OldestOrNot(v, k, p);
    if p in Images(v)[..k] {
      OldestDoNotPass(v, k, note, p);
    } else {
      WalkMembers(v, false);
      OthersPassAsBefore(v, k, note, p);
    }
  }

  lemma ImagesLeft(v: Value, k: nat, note: Value)
    requires k <= |Images(v)| && IsText(note)
    ensures Images(Replaced(v, Images(v)[..k], Notes(k, note))) == Images(v)[k..]
  {
    var w := Replaced(v, Images(v)[..k], Notes(k, note));
    WalkOrder(v, false);
    WalkKept(v, k, note);
    forall p | p in Walk(v, false) ensures Passes(w, IsImagePart, p) <==> p in Images(v)[k..] {
      PassingAfter(v, k, note, p);
    }
    SelectedSuffix(v, w, IsImagePart, Walk(v, false), k);
  }

  /**
   The cap is exact: the walk stays as it was, and the image parts that are left
   are the last `max` in walk order, or all of them if there are no more.
   */
  lemma CapIsExact(v: Value, max: nat, note: Value)
    requires max > 0 && IsText(note)
    ensures Walk(Limited(v, max, note), false) == Walk(v, false)
    ensures AreLast(Images(v), max, Images(Limited(v, max, note)))
  {
    var k := Excess(|Images(v)|, max);
    assert Images(v) == Images(v)[..k] + Images(v)[k..];
    WalkKept(v, Excess(|Images(v)|, max), note);
    ImagesLeft(v, Excess(|Images(v)|, max), note);
  }

  /** The replaced parts hold the note; other nodes keep their shape, or their content if no replaced part is in it. */
  lemma CapChangesOnlyTheOldest(v: Value, max: nat, note: Value, q: Path)
    ensures var k, w := Excess(|Images(v)|, max), Limited(v, max, note);
      && (forall i | 0 <= i < k :: PathOf(Images(v)[i]) == q ==> At(w, q) == Some(note))
      && (Outside(Images(v)[..k], q) ==> ShapeAt(w, q) == ShapeAt(v, q))
      && (Clear(Images(v)[..k], q) ==> At(w, q) == At(v, q))
  {
    var k := Excess(|Images(v)|, max);
    OldestAreApart(v, k);
    ReplacedAt(v, Images(v)[..k], Notes(k, note), q);
    forall i | 0 <= i < k && PathOf(Images(v)[i]) == q ensures At(Limited(v, max, note), q) == Some(note) {
      assert Images(v)[..k][i] == Images(v)[i] && Notes(k, note)[i] in Notes(k, note);
    }
  }

  /** Capping a capped payload changes nothing. */
  lemma CapTwice(v: Value, max: nat, note: Value)
    requires IsText(note)
    ensures Limited(Limited(v, max, note), max, note) == Limited(v, max, note)
  {
    if max > 0 { CapIsExact(v, max, note); }
  }

  // ---- The same on the wire -----------------------------------------------------------------

  /** The images are the parts of an image type in the system array or in a message, not those in tool results. */
  lemma ImageIff(v: Value, p: Position)
    ensures p in Images(v) <==> !p.Nested? && exists part ::
      && StandsAt(v, p, part)
      && (Says(part, [Key("type")], "image_url") || Says(part, [Key("type")], "image"))
  {
    WalkMembers(v, false);
    WalkedIff(v, false, p);
    if part :| StandsAt(v, p, part) {
      StandsAtPath(v, p, part);
      TypeDecides(part);
    }
  }

  /** A text part with just this text. */
  predicate IsSharedNote(part: Value) {
    && part.Object? && part.fields.Keys == {"type", "text"}
    && Says(part, [Key("type")], "text") && Says(part, [Key("text")], "(Image previously shared)")
  }

  lemma NoteIsShared()
    ensures IsSharedNote(SharedNote())
  {
    AtKey(SharedNote(), "type");
    AtKey(SharedNote(), "text");
    assert "type"[1] != "text"[1];
  }

  /** Where the oldest images were stands the note. */
  lemma OldestAreNotes(v: Value, max: nat, i: nat)
    requires max > 0 && i + max < |Images(v)|
    ensures var after := At(Limited(v, max, SharedNote()), PathOf(Images(v)[i]));
      after.Some? && IsSharedNote(after.value)
  {
    CapChangesOnlyTheOldest(v, max, SharedNote(), PathOf(Images(v)[i]));
    NoteIsShared();
  }
}
