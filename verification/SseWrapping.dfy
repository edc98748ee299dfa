/**
 A JSON body sent to a streaming client: `wrap_json_as_sse` of
 `src/routes/chat.rs`, read back by the accumulator of `src/usage_parse.rs`.
 */
module SseWrapping {
  import opened Common
  import opened Json
  import opened UsageParse

  predicate IsAscii(s: string) {
    forall i | 0 <= i < |s| :: s[i] as int < 128
  }

  function Ascii(s: string): seq<byte>
    requires IsAscii(s)
  {
    seq(|s|, i requires 0 <= i < |s| => s[i] as int)
  }

  /** What the decoder is assumed to satisfy: the laws of UTF-8. */
  ghost predicate DecodesUtf8(d: Decoder) {
    && (forall s: string | IsAscii(s) :: d.utf8(Ascii(s)) == Some(s))
    && (forall a, b | d.utf8(a).Some? && d.utf8(b).Some? ::
          d.utf8(a + b) == Some(d.utf8(a).value + d.utf8(b).value))
  }

  /** What the parser is assumed to satisfy: the laws of JSON text. */
  ghost predicate ParsesJson(d: Decoder) {
    && (forall s :: d.json(TrimWith(IsJsonBlank, s)) == d.json(s))
    && (forall s | d.json(s).Some? :: Trim(s) == TrimWith(IsJsonBlank, s))
    && d.json("") == None
    && d.json("[DONE]") == None
  }

  const DATA := "data: "
  const DONE := "data: [DONE]"

  /** An empty line, one last line, and an empty line. */
  function Closing(last: seq<byte>): seq<byte> {
    [NEWLINE] + (last + [NEWLINE] + [NEWLINE])
  }

  /** The wrapped body; `from_utf8_lossy` keeps a body that is UTF-8 as it is. */
  function WrappedAsSse(body: seq<byte>): seq<byte> {
    Ascii(DATA) + body + [NEWLINE] + Closing(Ascii(DONE))
  }

  method WrapJsonAsSse(body: seq<byte>) returns (sse: seq<byte>)
    ensures sse == WrappedAsSse(body)
  {
    sse := Ascii("data: ");
    sse := sse + body;
    sse := sse + Ascii("\n\n");
    sse := sse + Ascii("data: [DONE]\n\n");
    assert Ascii("\n\n") == [NEWLINE, NEWLINE];
    assert Ascii("data: [DONE]\n\n") == Ascii(DONE) + [NEWLINE] + [NEWLINE];
  }

  // ---- Trimming ----------------------------------------------------------------

  lemma {:induction false} TrimEndConcat(ws: char -> bool, a: string, b: string)
    ensures TrimEnd(ws, a + b) == if TrimEnd(ws, b) == "" then TrimEnd(ws, a) else a + TrimEnd(ws, b)
  {
    if b == "" {
      assert a + b == a;
    } else if ws(b[|b|-1]) {
      assert (a + b)[..|a + b|-1] == a + b[..|b|-1];
      TrimEndConcat(ws, a, b[..|b|-1]);
    }
  }

  lemma {:induction false} TrimsCommute(ws: char -> bool, s: string)
    ensures TrimStart(ws, TrimEnd(ws, s)) == TrimEnd(ws, TrimStart(ws, s))
  {
    if s != "" {
      var head, tail := s[..1], s[1..];
      assert s == head + tail;
      assert head[..0] == "";
      TrimEndConcat(ws, head, tail);
      if ws(s[0]) { TrimsCommute(ws, tail); }
    }
  }

  lemma {:induction false} TrimEndTwice(ws: char -> bool, s: string)
    ensures TrimEnd(ws, TrimEnd(ws, s)) == TrimEnd(ws, s)
  {
    if s != "" && ws(s[|s|-1]) { TrimEndTwice(ws, s[..|s|-1]); }
  }

  /** Blanks around a text, and a second trim of its end, change nothing. */
  lemma TrimAbsorbs(s: string)
    ensures Trim(TrimEnd(IsWhitespace, " " + s + "\n")) == Trim(s)
  {
    var ws := IsWhitespace;
    var t := " " + s + "\n";
    calc {
      Trim(TrimEnd(ws, t));
      { TrimsCommute(ws, t); TrimEndTwice(ws, TrimStart(ws, t)); }
      Trim(t);
      { assert t[1..] == s + "\n"; }
      TrimEnd(ws, TrimStart(ws, s + "\n"));
      { TrimsCommute(ws, s + "\n"); assert (s + "\n")[..|s|] == s; }
      TrimStart(ws, TrimEnd(ws, s));
      { TrimsCommute(ws, s); }
      Trim(s);
    }
  }

  // ---- Lines --------------------------------------------------------------------

  lemma FirstLine(line: seq<byte>, rest: seq<byte>)
    requires NEWLINE !in line
    ensures CompleteLines(line + [NEWLINE] + rest) == [line + [NEWLINE]] + CompleteLines(rest)
    ensures Unfinished(line + [NEWLINE] + rest) == Unfinished(rest)
  {
    assert (line + [NEWLINE])[..|line|] == line;
    LineInFront(line + [NEWLINE], rest);
  }

  /** The text of a data line, trimmed, still starts with its field name. */
  lemma TrimDataText(s: string)
    ensures Trim(DATA + s + "\n") == "data:" + TrimEnd(IsWhitespace, " " + s + "\n")
  {
    var tail := " " + s + "\n";
    var text := DATA + s + "\n";
    assert text == "data:" + tail;
    assert text[0] == 'd' && "data:"[4] == ':';
    TrimEndConcat(IsWhitespace, "data:", tail);
  }

  lemma PayloadOfText(d: Decoder, line: seq<byte>, text: string, r: string)
    requires d.utf8(line) == Some(text) && Trim(text) == "data:" + r
    ensures DataPayload(d, line) == Some(Trim(r))
  {
    assert ("data:" + r)[|"data:"|..] == r;
  }

  /** A data line contributes the usage of its trimmed content. */
  lemma DataLine(d: Decoder, body: seq<byte>)
    requires DecodesUtf8(d) && d.utf8(body).Some?
    ensures LineUsage(d, Ascii(DATA) + body + [NEWLINE]) == PayloadUsage(d, Trim(d.utf8(body).value))
  {
    var s, line := d.utf8(body).value, Ascii(DATA) + body + [NEWLINE];
    var r := TrimEnd(IsWhitespace, " " + s + "\n");
    TrimDataText(s);
    DecodedLine(d, body);
    PayloadOfText(d, line, DATA + s + "\n", r);
    TrimAbsorbs(s);
  }

  lemma DecodedLine(d: Decoder, body: seq<byte>)
    requires DecodesUtf8(d) && d.utf8(body).Some?
    ensures d.utf8(Ascii(DATA) + body + [NEWLINE]) == Some(DATA + d.utf8(body).value + "\n")
  {
    assert Ascii("\n") == [NEWLINE];
    assert d.utf8(Ascii(DATA)) == Some(DATA);
    assert d.utf8(Ascii("\n")) == Some("\n");
  }

  lemma EmptyLine(d: Decoder)
    requires DecodesUtf8(d)
    ensures LineUsage(d, [NEWLINE]) == ZERO
  {
    assert Ascii("\n") == [NEWLINE];
    assert d.utf8(Ascii("\n")) == Some("\n");
    assert Trim("\n") == "";
  }

  lemma DoneLine(d: Decoder)
    requires DecodesUtf8(d)
    ensures LineUsage(d, Ascii(DONE) + [NEWLINE]) == ZERO
  {
    var done := "[DONE]";
    assert Ascii(DONE) == Ascii(DATA) + Ascii(done);
    assert d.utf8(Ascii(done)) == Some(done);
    DataLine(d, Ascii(done));
    assert done[0] == '[' && done[5] == ']';
    assert Trim(done) == done;
  }

  // ---- The round trip --------------------------------------------------------------

  /** One line off the front of a stream. */
  lemma NextLine(d: Decoder, u: Usage, line: seq<byte>, rest: seq<byte>)
    requires NEWLINE !in line
    ensures MergedLines(d, u, CompleteLines(line + [NEWLINE] + rest)) ==
              MergedLines(d, Merge(u, LineUsage(d, line + [NEWLINE])), CompleteLines(rest))
    ensures Unfinished(line + [NEWLINE] + rest) == Unfinished(rest)
  {
    FirstLine(line, rest);
    assert ([line + [NEWLINE]] + CompleteLines(rest))[1..] == CompleteLines(rest);
  }

  /** An empty line at the front contributes nothing. */
  lemma SkipEmptyLine(d: Decoder, u: Usage, rest: seq<byte>)
    requires DecodesUtf8(d)
    ensures MergedLines(d, u, CompleteLines([NEWLINE] + rest)) == MergedLines(d, u, CompleteLines(rest))
    ensures Unfinished([NEWLINE] + rest) == Unfinished(rest)
  {
    EmptyLine(d);
    assert [] + [NEWLINE] == [NEWLINE];
    NextLine(d, u, [], rest);
  }

  /** Closing a stream with a line that contributes nothing adds nothing. */
  lemma ClosingAddsNothing(d: Decoder, u: Usage, last: seq<byte>)
    requires DecodesUtf8(d) && NEWLINE !in last && LineUsage(d, last + [NEWLINE]) == ZERO
    ensures MergedLines(d, u, CompleteLines(Closing(last))) == u && Unfinished(Closing(last)) == []
  {
    SkipEmptyLine(d, u, last + [NEWLINE] + [NEWLINE]);
    NextLine(d, u, last, [NEWLINE]);
    SkipEmptyLine(d, u, []);
    assert [NEWLINE] + [] == [NEWLINE];
  }

  /** One line and a closing: the line decides. */
  lemma OneLineDecides(d: Decoder, line: seq<byte>, last: seq<byte>)
    requires DecodesUtf8(d) && NEWLINE !in line && NEWLINE !in last && LineUsage(d, last + [NEWLINE]) == ZERO
    ensures StreamUsage(d, line + [NEWLINE] + Closing(last)) == LineUsage(d, line + [NEWLINE])
  {
    NextLine(d, ZERO, line, Closing(last));
    ClosingAddsNothing(d, LineUsage(d, line + [NEWLINE]), last);
  }

  /** Two lines and a closing: the first decides if the second contributes nothing. */
  lemma FirstLineDecides(d: Decoder, line: seq<byte>, second: seq<byte>, last: seq<byte>)
    requires DecodesUtf8(d) && NEWLINE !in line && NEWLINE !in second && NEWLINE !in last
    requires LineUsage(d, second + [NEWLINE]) == ZERO && LineUsage(d, last + [NEWLINE]) == ZERO
    ensures StreamUsage(d, line + [NEWLINE] + (second + [NEWLINE] + Closing(last))) == LineUsage(d, line + [NEWLINE])
  {
    var u := LineUsage(d, line + [NEWLINE]);
    NextLine(d, ZERO, line, second + [NEWLINE] + Closing(last));
    NextLine(d, u, second, Closing(last));
    ClosingAddsNothing(d, u, last);
  }

  lemma Regroup(field: seq<byte>, first: seq<byte>, second: seq<byte>, rest: seq<byte>)
    ensures field + (first + [NEWLINE] + second) + [NEWLINE] + rest
         == field + first + [NEWLINE] + (second + [NEWLINE] + rest)
  {
  }

  /** A wrapped one-line body is read back as its trimmed text. */
  lemma WrappedUsage(d: Decoder, body: seq<byte>)
    requires DecodesUtf8(d) && d.utf8(body).Some? && NEWLINE !in body
    ensures StreamUsage(d, WrappedAsSse(body)) == PayloadUsage(d, Trim(d.utf8(body).value))
  {
    DoneLine(d);
    DataLine(d, body);
    OneLineDecides(d, Ascii(DATA) + body, Ascii(DONE));
  }

  /**
   A body with a newline is not one event: if what follows its first line holds
   no data field, only the first line is read back.
   */
  lemma WrappedTwoLines(d: Decoder, first: seq<byte>, second: seq<byte>)
    requires DecodesUtf8(d) && d.utf8(first).Some? && NEWLINE !in first && NEWLINE !in second
    requires DataPayload(d, second + [NEWLINE]) == None
    ensures StreamUsage(d, WrappedAsSse(first + [NEWLINE] + second)) == PayloadUsage(d, Trim(d.utf8(first).value))
  {
    DoneLine(d);
    DataLine(d, first);
    FirstLineDecides(d, Ascii(DATA) + first, second, Ascii(DONE));
    Regroup(Ascii(DATA), first, second, Closing(Ascii(DONE)));
  }

  /** Nothing is trimmed from the ends of the text but what JSON allows there. */
  predicate EndsAreJson(text: string) {
    Trim(text) == TrimWith(IsJsonBlank, text)
  }

  /** Only if JSON does not allow a blank at its ends, and it is JSON with some usage without it, is a text misread. */
  predicate ReadsBack(d: Decoder, text: string) {
    || EndsAreJson(text)
    || d.json(Trim(text)).None?
    || ExtractUsageFromValue(d.json(Trim(text)).value) == ZERO
  }

  /**
   Round trip: a streaming client that accumulates the wrapped body of one UTF-8
   line reads the usage of the body itself if and only if the text reads back.
   */
  lemma WrappingRoundTrip(d: Decoder, body: seq<byte>)
    requires DecodesUtf8(d) && ParsesJson(d)
    requires d.utf8(body).Some? && NEWLINE !in body
    ensures StreamUsage(d, WrappedAsSse(body)) == ExtractUsage(d, body) <==> ReadsBack(d, d.utf8(body).value)
  {
    WrappedUsage(d, body);
    TextReadsBack(d, d.utf8(body).value);
  }

  lemma TextReadsBack(d: Decoder, text: string)
    requires ParsesJson(d)
    ensures PayloadUsage(d, Trim(text)) == ParsedUsage(d, text) <==> ReadsBack(d, text)
  {
    assert d.json(TrimWith(IsJsonBlank, text)) == d.json(text);
  }

  /** The client sees the wrapped body in chunks, cut anywhere. */
  method ReadWrapped(d: Decoder, body: seq<byte>, chunks: seq<seq<byte>>) returns (total: Usage)
    requires DecodesUtf8(d) && ParsesJson(d)
    requires d.utf8(body).Some? && NEWLINE !in body && Flatten(chunks) == WrappedAsSse(body)
    ensures total == ExtractUsage(d, body) <==> ReadsBack(d, d.utf8(body).value)
  {
    total := AccumulateChunks(d, chunks);
    WrappingRoundTrip(d, body);
  }

  // ---- A body that does not read back ----------------------------------------------

  lemma {:induction false} TrimmedStart(ws: char -> bool, s: string)
    ensures TrimStart(ws, s) != "" ==> !ws(TrimStart(ws, s)[0])
  {
    if s != "" && ws(s[0]) { TrimmedStart(ws, s[1..]); }
  }

  lemma TrimsFirst(c: char, s: string)
    requires IsWhitespace(c) && !IsJsonBlank(c)
    ensures Trim([c] + s) == Trim(s) && !EndsAreJson([c] + s)
  {
    assert ([c] + s)[1..] == s;
    TrimEndConcat(IsJsonBlank, [c], s);
    assert [c][..0] == "";
    assert TrimWith(IsJsonBlank, [c] + s)[0] == c;
    TrimmedStart(IsWhitespace, s);
  }

  /** The client reads some usage where the body has none. */
  predicate Misread(d: Decoder, body: seq<byte>) {
    StreamUsage(d, WrappedAsSse(body)) != ZERO && ExtractUsage(d, body) == ZERO
  }

  /** A blank that is not JSON's in front of a JSON text with some usage is misread. */
  lemma BlankInFront(d: Decoder, body: seq<byte>, c: char, doc: string)
    requires DecodesUtf8(d) && ParsesJson(d)
    requires d.utf8(body) == Some([c] + doc) && NEWLINE !in body
    requires IsWhitespace(c) && !IsJsonBlank(c)
    requires d.json(doc).Some? && ExtractUsageFromValue(d.json(doc).value) != ZERO
    ensures Misread(d, body)
  {
    BlankText(d, c, doc);
    WrappedUsage(d, body);
  }

  lemma BlankText(d: Decoder, c: char, doc: string)
    requires ParsesJson(d) && IsWhitespace(c) && !IsJsonBlank(c) && d.json(doc).Some?
    ensures PayloadUsage(d, Trim([c] + doc)) == ExtractUsageFromValue(d.json(doc).value)
    ensures ParsedUsage(d, [c] + doc) == ZERO
  {
    TrimsFirst(c, doc);
    assert d.json(TrimWith(IsJsonBlank, doc)) == d.json(doc);
  }

  // ---- A decoder that obeys the laws ---------------------------------------------------

  function Latin1(bytes: seq<byte>): string {
    seq(|bytes|, i requires 0 <= i < |bytes| => bytes[i] as char)
  }

  /** One byte for a character, and one text that is JSON, with blanks around it or not. */
  function Sample(doc: string, v: Value): Decoder {
    Decoder(bytes => Some(Latin1(bytes)), s => if TrimWith(IsJsonBlank, s) == doc then Some(v) else None)
  }

  lemma {:induction false} TrimStartTwice(narrow: char -> bool, wide: char -> bool, s: string)
    requires forall c | narrow(c) :: wide(c)
    ensures TrimStart(wide, TrimStart(narrow, s)) == TrimStart(wide, s)
  {
    if s != "" && narrow(s[0]) { TrimStartTwice(narrow, wide, s[1..]); }
  }

  lemma {:induction false} TrimEndAfter(narrow: char -> bool, wide: char -> bool, s: string)
    requires forall c | narrow(c) :: wide(c)
    ensures TrimEnd(wide, TrimEnd(narrow, s)) == TrimEnd(wide, s)
  {
    if s != "" && narrow(s[|s|-1]) { TrimEndAfter(narrow, wide, s[..|s|-1]); }
  }

  /** Trimming fewer blanks first makes no difference. */
  lemma TrimAfter(narrow: char -> bool, wide: char -> bool, s: string)
    requires forall c | narrow(c) :: wide(c)
    ensures TrimWith(wide, TrimWith(narrow, s)) == TrimWith(wide, s)
  {
    var t := TrimStart(narrow, s);
    calc {
      TrimWith(wide, TrimEnd(narrow, t));
      { TrimsCommute(wide, TrimEnd(narrow, t)); TrimEndAfter(narrow, wide, t); }
      TrimStart(wide, TrimEnd(wide, t));
      { TrimsCommute(wide, t); TrimStartTwice(narrow, wide, s); }
      TrimWith(wide, s);
    }
  }

  lemma LatinDecodes(doc: string, v: Value)
    ensures DecodesUtf8(Sample(doc, v))
  {
    forall s: string | IsAscii(s) ensures Latin1(Ascii(s)) == s { }
    forall a: seq<byte>, b: seq<byte> ensures Latin1(a + b) == Latin1(a) + Latin1(b) { }
  }

  /** The text is trimmed, and neither empty nor the end marker. */
  predicate IsDocument(doc: string) {
    doc != "" && doc != "[DONE]" && Trim(doc) == doc
  }

  lemma NoDocument(doc: string)
    requires IsDocument(doc)
    ensures TrimWith(IsJsonBlank, "") != doc && TrimWith(IsJsonBlank, "[DONE]") != doc
  {
  }

  /** So some decoder obeys the laws, whatever document it knows. */
  lemma LawsCanBeMet(doc: string, v: Value)
    requires IsDocument(doc)
    ensures DecodesUtf8(Sample(doc, v)) && ParsesJson(Sample(doc, v))
  {
    LatinDecodes(doc, v);
    NoDocument(doc);
    forall s: string
      ensures TrimWith(IsJsonBlank, TrimWith(IsJsonBlank, s)) == TrimWith(IsJsonBlank, s)
      ensures TrimWith(IsJsonBlank, s) == doc ==> Trim(s) == TrimWith(IsJsonBlank, s)
    {
      TrimAfter(IsJsonBlank, IsJsonBlank, s);
      TrimAfter(IsJsonBlank, IsWhitespace, s);
    }
  }

  /** A blank of one byte that JSON does not allow: the no-break space 0xA0, for one. */
  predicate IsForeignBlank(c: char) {
    IsWhitespace(c) && !IsJsonBlank(c) && c as int < 256
  }

  lemma SampleBody(doc: string, v: Value, c: char) returns (body: seq<byte>)
    requires IsForeignBlank(c) && IsAscii(doc) && '\n' !in doc
    ensures Sample(doc, v).utf8(body) == Some([c] + doc) && NEWLINE !in body
  {
    body := [c as int] + Ascii(doc);
    NewlineFree(doc);
    assert Latin1(body) == [c] + doc;
  }

  lemma SampleParses(doc: string, v: Value)
    requires IsDocument(doc)
    ensures Sample(doc, v).json(doc) == Some(v)
  {
    DocumentIsTrimmed(doc);
  }

  lemma SampleCase(doc: string, v: Value, c: char) returns (d: Decoder, body: seq<byte>)
    requires IsDocument(doc) && IsAscii(doc) && '\n' !in doc && IsForeignBlank(c)
    ensures DecodesUtf8(d) && ParsesJson(d)
    ensures d.utf8(body) == Some([c] + doc) && NEWLINE !in body && d.json(doc) == Some(v)
  {
    d := Sample(doc, v);
    LawsCanBeMet(doc, v);
    SampleParses(doc, v);
    body := SampleBody(doc, v, c);
  }

  /** With some decoder a foreign blank in front of a document with some usage is misread. */
  lemma RoundTripCanFail(doc: string, v: Value, c: char) returns (d: Decoder, body: seq<byte>)
    requires IsDocument(doc) && IsAscii(doc) && '\n' !in doc && IsForeignBlank(c)
    requires ExtractUsageFromValue(v) != ZERO
    ensures DecodesUtf8(d) && ParsesJson(d) && Misread(d, body)
  {
    d, body := SampleCase(doc, v, c);
    BlankInFront(d, body, c, doc);
  }

  lemma NewlineFree(doc: string)
    requires IsAscii(doc) && '\n' !in doc
    ensures NEWLINE !in Ascii(doc)
  {
  }

  lemma {:induction false} TrimmedEnd(ws: char -> bool, s: string)
    ensures TrimEnd(ws, s) != "" ==> !ws(TrimEnd(ws, s)[|TrimEnd(ws, s)| - 1])
  {
    if s != "" && ws(s[|s|-1]) { TrimmedEnd(ws, s[..|s|-1]); }
  }

  lemma DocumentIsTrimmed(doc: string)
    requires IsDocument(doc)
    ensures TrimWith(IsJsonBlank, doc) == doc
  {
    TrimmedEnd(IsWhitespace, TrimStart(IsWhitespace, doc));
    TrimmedStart(IsWhitespace, doc);
  }
}
