/**
 What is read from the wire: each shape of a usage block, whatever else is in it,
 and each kind of line of an event stream.
 */
module UsageShapes {
  import opened Common
  import opened Json
  import opened UsageParse
  import opened SseWrapping

  // ---- Usage blocks -----------------------------------------------------------------

  /** The member is an unsigned number, or there is no such number and it counts as zero. */
  ghost predicate CountIs(o: Value, key: string, n: u64) {
    || Get(o, key) == Some(Num(PosInt(n)))
    || (n == 0 && forall k: u64 :: Get(o, key) != Some(Num(PosInt(k))))
  }

  ghost predicate DetailsAre(u: Value, cached: u64, creation: u64) {
    match Get(u, "prompt_tokens_details")
    case Some(d) => CountIs(d, "cached_tokens", cached) && CountIs(d, "cache_creation_tokens", creation)
    case None => cached == 0 && creation == 0
  }

  lemma CountIsField(o: Value, key: string, n: u64)
    requires CountIs(o, key, n)
    ensures Field(o, key) == n
  {
  }

  /** A top-level block with prompt or completion tokens: the prompt is the total, caches included. */
  lemma OpenAiUsage(v: Value, u: Value, prompt: u64, completion: u64, cached: u64, creation: u64)
    requires !HasNestedUsage(v) && Get(v, "usage") == Some(u) && NamesPromptOrCompletion(u)
    requires CountIs(u, "prompt_tokens", prompt) && CountIs(u, "completion_tokens", completion)
    requires DetailsAre(u, cached, creation)
    ensures ExtractUsageFromValue(v) == Usage(prompt, completion, cached, creation)
  {
    CountIsField(u, "prompt_tokens", prompt);
    CountIsField(u, "completion_tokens", completion);
    if Get(u, "prompt_tokens_details").Some? {
      CountIsField(Get(u, "prompt_tokens_details").value, "cached_tokens", cached);
      CountIsField(Get(u, "prompt_tokens_details").value, "cache_creation_tokens", creation);
    }
  }

  /** The block that is read as Anthropic's: nested in a message, or at the top without the other's names. */
  predicate IsAnthropicBlock(v: Value, u: Value) {
    if HasNestedUsage(v) then Get(Get(v, "message").value, "usage") == Some(u)
    else Get(v, "usage") == Some(u) && !NamesPromptOrCompletion(u)
  }

  /** An Anthropic block: cache reads and writes are added to the input, wrapping at 64 bits. */
  lemma AnthropicUsage(v: Value, u: Value, input: u64, output: u64, read: u64, written: u64)
    requires IsAnthropicBlock(v, u)
    requires CountIs(u, "input_tokens", input) && CountIs(u, "output_tokens", output)
    requires CountIs(u, "cache_read_input_tokens", read) && CountIs(u, "cache_creation_input_tokens", written)
    ensures ExtractUsageFromValue(v) ==
      Usage((input + read + written) % 0x1_0000_0000_0000_0000, output, read, written)
  {
    CountIsField(u, "input_tokens", input);
    CountIsField(u, "output_tokens", output);
    CountIsField(u, "cache_read_input_tokens", read);
    CountIsField(u, "cache_creation_input_tokens", written);
  }

  lemma NoUsage(v: Value)
    requires !HasNestedUsage(v) && Get(v, "usage") == None
    ensures ExtractUsageFromValue(v) == Usage(0, 0, 0, 0)
  {
  }

  // ---- Lines of an event stream -------------------------------------------------------

  /** The white space of Unicode. */
  lemma WhitespaceTable(c: char)
    ensures IsWhitespace(c) <==>
      || c in "\t\n\U{000B}\U{000C}\r \U{0085}\U{00A0}\U{1680}\U{2028}\U{2029}\U{202F}\U{205F}\U{3000}"
      || c in "\U{2000}\U{2001}\U{2002}\U{2003}\U{2004}\U{2005}\U{2006}\U{2007}\U{2008}\U{2009}\U{200A}"
  {
  }

  predicate Blank(s: string) {
    forall c | c in s :: IsWhitespace(c)
  }

  /** Empty, or without a blank at either end. */
  predicate Tight(s: string) {
    s != "" ==> !IsWhitespace(s[0]) && !IsWhitespace(s[|s|-1])
  }

  lemma {:induction false} StartTrimmed(a: string, s: string)
    requires Blank(a) && (s == "" || !IsWhitespace(s[0]))
    ensures TrimStart(IsWhitespace, a + s) == s
  {
    if a == "" {
      assert a + s == s;
    } else {
      assert (a + s)[1..] == a[1..] + s && a[0] in a;
      StartTrimmed(a[1..], s);
    }
  }

  lemma {:induction false} EndTrimmed(s: string, c: string)
    requires Blank(c) && (s == "" || !IsWhitespace(s[|s|-1]))
    ensures TrimEnd(IsWhitespace, s + c) == s
  {
    if c == "" {
      assert s + c == s;
    } else {
      assert (s + c)[..|s + c|-1] == s + c[..|c|-1] && c[|c|-1] in c;
      EndTrimmed(s, c[..|c|-1]);
    }
  }

  /** Trimming leaves what is between the blanks at the ends. */
  lemma TrimSurrounded(a: string, s: string, c: string)
    requires Blank(a) && Tight(s) && Blank(c)
    ensures Trim(a + s + c) == s
  {
    if s == "" {
      assert a + s + c == (a + c) + "";
      StartTrimmed(a + c, "");
    } else {
      assert a + s + c == a + (s + c);
      StartTrimmed(a, s + c);
      EndTrimmed(s, c);
    }
  }

  lemma DataText(b: string, payload: string)
    requires Blank(b) && Tight(payload) && payload != ""
    ensures Tight("data:" + b + payload)
    ensures "data:" <= "data:" + b + payload && ("data:" + b + payload)[|"data:"|..] == b + payload
  {
    assert ("data:" + b + payload)[0] == 'd';
  }

  /** The text of a data line, with blanks wherever they are trimmed. */
  ghost predicate IsDataLine(d: Decoder, line: seq<byte>, payload: string) {
    exists a, b, c :: Blank(a) && Blank(b) && Blank(c) && d.utf8(line) == Some(a + ("data:" + b + payload) + c)
  }

  lemma DataLinePayload(d: Decoder, line: seq<byte>, payload: string)
    requires Tight(payload) && payload != "" && IsDataLine(d, line, payload)
    ensures DataPayload(d, line) == Some(payload)
  {
    var a, b, c :| Blank(a) && Blank(b) && Blank(c) && d.utf8(line) == Some(a + ("data:" + b + payload) + c);
    DataText(b, payload);
    TrimSurrounded(a, "data:" + b + payload, c);
    TrimSurrounded(b, payload, "");
    assert b + payload + "" == b + payload;
  }

  /** An event with a JSON payload contributes its usage; one that is no JSON, and the end marker, nothing. */
  lemma DataEvent(d: Decoder, line: seq<byte>, payload: string)
    requires Tight(payload) && payload != "" && IsDataLine(d, line, payload)
    ensures LineUsage(d, line) ==
      if payload == "[DONE]" || d.json(payload).None? then Usage(0, 0, 0, 0)
      else ExtractUsageFromValue(d.json(payload).value)
  {
    DataLinePayload(d, line, payload);
  }

  /** A line that is no text, or starts with anything but the data field, contributes nothing. */
  lemma OtherLine(d: Decoder, line: seq<byte>, a: string, s: string)
    requires d.utf8(line) == None || (d.utf8(line) == Some(a + s) && Blank(a) && Tight(s) && !("data:" <= s))
    ensures LineUsage(d, line) == Usage(0, 0, 0, 0)
  {
    if d.utf8(line).Some? {
      TrimSurrounded(a, s, "");
      assert a + s + "" == a + s;
    }
  }

  /** The lines of a stream, the last one with or without its newline. */
  predicate IsPiece(stream: seq<byte>, line: seq<byte>) {
    line in CompleteLines(stream) || (line == Unfinished(stream) && line != [])
  }

  /** A stream's usage is the least that is at least that of every line, the unfinished one included. */
  lemma StreamIsLeastBound(d: Decoder, stream: seq<byte>, bound: Usage)
    ensures forall l | IsPiece(stream, l) :: AtMost(LineUsage(d, l), StreamUsage(d, stream))
    ensures (forall l | IsPiece(stream, l) :: AtMost(LineUsage(d, l), bound)) ==> AtMost(StreamUsage(d, stream), bound)
  {
    var lines, last := CompleteLines(stream), Unfinished(stream);
    var all := if last == [] then lines else lines + [last];
    forall l ensures IsPiece(stream, l) <==> l in all { }
    MergedIsLeastBound(d, ZERO, all, bound);
  }

  const CLOSING: string := "\n\ndata: [DONE]\n\n"

  lemma WrappedBytes(body: seq<byte>)
    ensures IsAscii("data: ") && IsAscii(CLOSING)
    ensures WrappedAsSse(body) == Ascii("data: ") + body + Ascii(CLOSING)
  {
    assert Ascii(CLOSING) == [NEWLINE] + Closing(Ascii(DONE));
  }

  /** What a streaming client receives. */
  lemma WrappedText(d: Decoder, body: seq<byte>)
    requires DecodesUtf8(d) && d.utf8(body).Some?
    ensures d.utf8(WrappedAsSse(body)) == Some("data: " + d.utf8(body).value + "\n\ndata: [DONE]\n\n")
  {
    WrappedBytes(body);
    assert d.utf8(Ascii("data: ")) == Some("data: ") && d.utf8(Ascii(CLOSING)) == Some(CLOSING);
    assert d.utf8(Ascii("data: ") + body) == Some("data: " + d.utf8(body).value);
  }
}
