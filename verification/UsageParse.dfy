/**
 Token usage from upstream responses: `src/usage_parse.rs`.

 UTF-8 decoding and JSON parsing are parameters of the model (`Decoder`); the
 `u64` additions wrap, as they do in a release build.
 */
module UsageParse {
  import opened Common
  import opened Json

  type byte = b: int | 0 <= b < 256

  const NEWLINE: byte := 10

  /** Normalized usage: `tokensIn` is the total prompt, cache reads and writes included. */
  datatype Usage = Usage(tokensIn: u64, tokensOut: u64, cached: u64, creation: u64)

  const ZERO := Usage(0, 0, 0, 0)

  function Merge(a: Usage, b: Usage): Usage {
    Usage(
      Max(a.tokensIn, b.tokensIn), Max(a.tokensOut, b.tokensOut),
      Max(a.cached, b.cached), Max(a.creation, b.creation))
  }

  // ---- Extraction from one JSON value ---------------------------------------

  function Field(u: Value, key: string): u64 {
    match Get(u, key)
    case Some(Num(PosInt(n))) => n
    case _ => 0
  }

  function FromOpenAi(u: Value): Usage {
    var details := FromDetails(u);
    Usage(Field(u, "prompt_tokens"), Field(u, "completion_tokens"),
          Field(details, "cached_tokens"), Field(details, "cache_creation_tokens"))
  }

  function FromAnthropic(u: Value): Usage {
    var cached, creation := Field(u, "cache_read_input_tokens"), Field(u, "cache_creation_input_tokens");
    Usage(Wrap(Field(u, "input_tokens") + cached + creation), Field(u, "output_tokens"), cached, creation)
  }

  /** The value's usage block, and whether it is read the OpenAI way. */
  function UsageBlock(v: Value): Option<(Value, bool)> {
    match Get(v, "message")
    case Some(m) =>
      (match Get(m, "usage")
       case Some(u) => Some((u, false))
       case None => TopLevelBlock(v))
    case None => TopLevelBlock(v)
  }

  function TopLevelBlock(v: Value): Option<(Value, bool)> {
    match Get(v, "usage")
    case Some(u) => Some((u, Get(u, "prompt_tokens").Some? || Get(u, "completion_tokens").Some?))
    case None => None
  }

  function ExtractUsageFromValue(v: Value): Usage {
    match UsageBlock(v)
    case None => ZERO
    case Some((u, openAi)) => if openAi then FromOpenAi(u) else FromAnthropic(u)
  }

  // ---- Extraction from text --------------------------------------------------

  datatype Decoder = Decoder(utf8: seq<byte> -> Option<string>, json: string -> Option<Value>)

  /** Rust's `char::is_whitespace`: the Unicode property White_Space. */
  predicate IsWhitespace(c: char) {
    var n := c as int;
    || 9 <= n <= 13 || n == 0x20 || n == 0x85 || n == 0xA0 || n == 0x1680
    || 0x2000 <= n <= 0x200A || n == 0x2028 || n == 0x2029 || n == 0x202F || n == 0x205F || n == 0x3000
  }

  /** The blanks JSON allows around a value (RFC 8259, section 2). */
  predicate IsJsonBlank(c: char) {
    c == ' ' || c == '\t' || c == '\n' || c == '\r'
  }

  function TrimStart(ws: char -> bool, s: string): (r: string)
    ensures |r| <= |s|
  {
    if s != "" && ws(s[0]) then TrimStart(ws, s[1..]) else s
  }

  function TrimEnd(ws: char -> bool, s: string): (r: string)
    ensures r <= s
  {
    if s != "" && ws(s[|s|-1]) then TrimEnd(ws, s[..|s|-1]) else s
  }

  function TrimWith(ws: char -> bool, s: string): string {
    TrimEnd(ws, TrimStart(ws, s))
  }

  /** `str::trim`. */
  function Trim(s: string): string {
    TrimWith(IsWhitespace, s)
  }

  function ParsedUsage(d: Decoder, text: string): Usage {
    match d.json(text)
    case Some(v) => ExtractUsageFromValue(v)
    case None => ZERO
  }

  /** A non-streaming body. */
  function ExtractUsage(d: Decoder, body: seq<byte>): Usage {
    match d.utf8(body)
    case Some(text) => ParsedUsage(d, text)
    case None => ZERO
  }

  /** The trimmed text after `data:`, when the line has one. */
  function DataPayload(d: Decoder, line: seq<byte>): Option<string> {
    match d.utf8(line)
    case None => None
    case Some(text) =>
      var s := Trim(text);
      if "data:" <= s then Some(Trim(s[|"data:"|..])) else None
  }

  function PayloadUsage(d: Decoder, payload: string): Usage {
    if payload == "" || payload == "[DONE]" then ZERO else ParsedUsage(d, payload)
  }

  /** What one line of the stream contributes. */
  function LineUsage(d: Decoder, line: seq<byte>): Usage {
    match DataPayload(d, line)
    case Some(p) => PayloadUsage(d, p)
    case None => ZERO
  }

  // ---- Lines of a stream -------------------------------------------------------

  /** The length of the first line, its newline included; 0 if no newline is left. */
  function LineLength(s: seq<byte>): (n: nat)
    ensures n <= |s|
  {
    if s == [] then 0
    else if s[0] == NEWLINE then 1
    else
      var n := LineLength(s[1..]);
      if n == 0 then 0 else n + 1
  }

  predicate IsLine(l: seq<byte>) {
    l != [] && l[|l|-1] == NEWLINE && NEWLINE !in l[..|l|-1]
  }

  /** The first newline ends the first line. */
  lemma {:induction false} FirstLineIsLine(s: seq<byte>)
    ensures LineLength(s) == 0 <==> NEWLINE !in s
    ensures LineLength(s) > 0 ==> IsLine(s[..LineLength(s)])
  {
    if s != [] && s[0] != NEWLINE {
      var n := LineLength(s[1..]);
      FirstLineIsLine(s[1..]);
      assert s == [s[0]] + s[1..];
      if n > 0 { assert s[..n] == [s[0]] + s[1..][..n - 1] && s[..n + 1] == [s[0]] + s[1..][..n]; }
    }
  }

  function CompleteLines(s: seq<byte>): seq<seq<byte>>
    decreases |s|
  {
    var n := LineLength(s);
    if n == 0 then [] else [s[..n]] + CompleteLines(s[n..])
  }

  /** Everything after the last newline. */
  function Unfinished(s: seq<byte>): seq<byte>
    decreases |s|
  {
    var n := LineLength(s);
    if n == 0 then s else Unfinished(s[n..])
  }

  /** `u` merged with each line in turn. */
  function MergedLines(d: Decoder, u: Usage, lines: seq<seq<byte>>): Usage
    decreases |lines|
  {
    if lines == [] then u
    else MergedLines(d, Merge(u, LineUsage(d, lines[0])), lines[1..])
  }

  /** The usage of a whole stream: merged over its newline-separated lines. */
  function StreamUsage(d: Decoder, stream: seq<byte>): Usage {
    var lines := CompleteLines(stream);
    var last := Unfinished(stream);
    MergedLines(d, ZERO, if last == [] then lines else lines + [last])
  }

  function Flatten<T>(chunks: seq<seq<T>>): seq<T> {
    if chunks == [] then [] else chunks[0] + Flatten(chunks[1..])
  }

  /** The pieces are lines: each ends in its only newline, and the unfinished one has none. */
  lemma {:induction false} PiecesAreLines(s: seq<byte>)
    ensures NEWLINE !in Unfinished(s)
    ensures forall l | l in CompleteLines(s) :: IsLine(l)
    decreases |s|
  {
    FirstLineIsLine(s);
    if LineLength(s) > 0 { PiecesAreLines(s[LineLength(s)..]); }
  }

  lemma {:induction false} LineLengthOfLine(line: seq<byte>, rest: seq<byte>)
    requires IsLine(line)
    ensures LineLength(line + rest) == |line|
    decreases |line|
  {
    if line[0] != NEWLINE {
      assert (line + rest)[1..] == line[1..] + rest;
      assert line[1..][..|line| - 2] == line[1..|line| - 1];
      LineLengthOfLine(line[1..], rest);
    }
  }

  /** A line in front of a stream is its first line and changes nothing else. */
  lemma LineInFront(line: seq<byte>, rest: seq<byte>)
    requires IsLine(line)
    ensures CompleteLines(line + rest) == [line] + CompleteLines(rest)
    ensures Unfinished(line + rest) == Unfinished(rest)
  {
    LineLengthOfLine(line, rest);
    assert (line + rest)[..|line|] == line && (line + rest)[|line|..] == rest;
  }

  lemma FlattenInFront<T>(first: seq<T>, rest: seq<seq<T>>)
    ensures Flatten([first] + rest) == first + Flatten(rest)
  {
    assert ([first] + rest)[1..] == rest;
  }

  lemma Associates<T>(a: seq<T>, b: seq<T>, c: seq<T>)
    ensures (a + b) + c == a + (b + c)
  {
  }

  lemma FirstLineAndRest(s: seq<byte>)
    requires LineLength(s) > 0
    ensures var n := LineLength(s); IsLine(s[..n]) && s == s[..n] + s[n..]
  {
    FirstLineIsLine(s);
  }

  ghost predicate MadeUp(s: seq<byte>) {
    s == Flatten(CompleteLines(s)) + Unfinished(s)
  }

  /** The pieces make up the stream. */
  lemma {:induction false} PiecesMakeUpStream(s: seq<byte>)
    ensures MadeUp(s)
    decreases |s|
  {
    var n := LineLength(s);
    if n > 0 {
      FirstLineAndRest(s);
      PiecesMakeUpStream(s[n..]);
      PieceInFront(s[..n], s[n..]);
    }
  }

  lemma PieceInFront(line: seq<byte>, rest: seq<byte>)
    requires IsLine(line) && MadeUp(rest)
    ensures MadeUp(line + rest)
  {
    LineInFront(line, rest);
    FlattenInFront(line, CompleteLines(rest));
    Associates(line, Flatten(CompleteLines(rest)), Unfinished(rest));
  }

  /** A longer stream adds lines at the end; only the unfinished line is read again. */
  ghost predicate Continues(a: seq<byte>, b: seq<byte>) {
    && CompleteLines(a + b) == CompleteLines(a) + CompleteLines(Unfinished(a) + b)
    && Unfinished(a + b) == Unfinished(Unfinished(a) + b)
  }

  lemma {:induction false} LinesOfConcatenation(a: seq<byte>, b: seq<byte>)
    ensures Continues(a, b)
    decreases |a|
  {
    var n := LineLength(a);
    if n > 0 {
      FirstLineAndRest(a);
      LinesOfConcatenation(a[n..], b);
      LineContinues(a[..n], a[n..], b);
    }
  }

  lemma LineContinues(line: seq<byte>, rest: seq<byte>, b: seq<byte>)
    requires IsLine(line) && Continues(rest, b)
    ensures Continues(line + rest, b)
  {
    LineInFront(line, rest);
    LineInFront(line, rest + b);
    Associates(line, rest, b);
    Associates([line], CompleteLines(rest), CompleteLines(Unfinished(rest) + b));
  }

  lemma {:induction false} MergedConcatenation(d: Decoder, u: Usage, a: seq<seq<byte>>, b: seq<seq<byte>>)
    ensures MergedLines(d, u, a + b) == MergedLines(d, MergedLines(d, u, a), b)
    decreases |a|
  {
    if a == [] {
      assert a + b == b;
    } else {
      assert (a + b)[1..] == a[1..] + b;
      MergedConcatenation(d, Merge(u, LineUsage(d, a[0])), a[1..], b);
    }
  }

  // ---- The accumulator ---------------------------------------------------------

  class SseUsageAccumulator {
    var lineBuf: seq<byte>
    var usage: Usage
    const decoder: Decoder
    /** Every byte fed so far. */
    ghost var fed: seq<byte>

    /** Between calls the buffer is the unfinished line, and all others are merged. */
    ghost predicate Valid()
      reads this
    {
      lineBuf == Unfinished(fed) && usage == MergedLines(decoder, ZERO, CompleteLines(fed))
    }

    constructor (decoder: Decoder)
      ensures Valid() && fed == [] && this.decoder == decoder
    {
      this.lineBuf, this.usage, this.decoder, this.fed := [], ZERO, decoder, [];
    }

    method ProcessLine(line: seq<byte>)
      modifies this`usage
      ensures usage == Merge(old(usage), LineUsage(decoder, line))
    {
      var text := decoder.utf8(line);
      if text.None? { return; }
      var s := Trim(text.value);
      if !("data:" <= s) { return; }
      var payload := Trim(s[|"data:"|..]);
      if payload == "" || payload == "[DONE]" { return; }
      var v := decoder.json(payload);
      if v.Some? { usage := Merge(usage, ExtractUsageFromValue(v.value)); }
    }

    /** The loop that takes lines off the buffer while a newline is left in it. */
    method DrainLines()
      modifies this`lineBuf, this`usage
      ensures lineBuf == Unfinished(old(lineBuf))
      ensures usage == MergedLines(decoder, old(usage), CompleteLines(old(lineBuf)))
    {
      var n := LineLength(lineBuf);
      while n > 0
        invariant n == LineLength(lineBuf)
        invariant Unfinished(lineBuf) == Unfinished(old(lineBuf))
        invariant MergedLines(decoder, usage, CompleteLines(lineBuf))
               == MergedLines(decoder, old(usage), CompleteLines(old(lineBuf)))
        decreases |lineBuf|
      {
        ghost var rest := CompleteLines(lineBuf[n..]);
        assert CompleteLines(lineBuf)[1..] == rest;
        var line := lineBuf[..n];
        lineBuf := lineBuf[n..];
        ProcessLine(line);
        n := LineLength(lineBuf);
      }
    }

    method Ingest(chunk: seq<byte>)
      requires Valid()
      modifies this
      ensures Valid() && fed == old(fed) + chunk
    {
      LinesOfConcatenation(fed, chunk);
      MergedConcatenation(decoder, ZERO, CompleteLines(fed), CompleteLines(lineBuf + chunk));
      fed := fed + chunk;
      lineBuf := lineBuf + chunk;
      DrainLines();
    }

    method IngestAll(chunks: seq<seq<byte>>)
      requires Valid()
      modifies this
      ensures Valid() && fed == old(fed) + Flatten(chunks)
    {
      for i := 0 to |chunks|
        invariant Valid() && fed + Flatten(chunks[i..]) == old(fed) + Flatten(chunks)
      {
        FlattenInFront(chunks[i], chunks[i+1..]);
        assert chunks[i..] == [chunks[i]] + chunks[i+1..];
        Ingest(chunks[i]);
      }
    }

    method Finish() returns (total: Usage)
      requires Valid()
      modifies this`lineBuf, this`usage
      ensures total == usage == StreamUsage(decoder, fed) && lineBuf == []
    {
      if lineBuf != [] {
        var rem := lineBuf;
        lineBuf := [];
        ProcessLine(rem);
        MergedConcatenation(decoder, ZERO, CompleteLines(fed), [rem]);
      }
      total := usage;
    }
  }

  /**
   Chunking invariance: whatever the chunks, the accumulator reports the usage
   of the stream they make up.
   */
  method AccumulateChunks(d: Decoder, chunks: seq<seq<byte>>) returns (total: Usage)
    ensures total == StreamUsage(d, Flatten(chunks))
  {
    var acc := new SseUsageAccumulator(d);
    acc.IngestAll(chunks);
    assert [] + Flatten(chunks) == Flatten(chunks);
    total := acc.Finish();
  }

  // ---- Merging is a join ---------------------------------------------------------

  /** Field by field. */
  predicate AtMost(a: Usage, b: Usage) {
    a.tokensIn <= b.tokensIn && a.tokensOut <= b.tokensOut && a.cached <= b.cached && a.creation <= b.creation
  }

  /** A merged usage bounds every sample, and is below every usage that does. */
  lemma {:induction false} MergedIsLeastBound(d: Decoder, u: Usage, lines: seq<seq<byte>>, bound: Usage)
    ensures AtMost(u, MergedLines(d, u, lines))
    ensures forall l | l in lines :: AtMost(LineUsage(d, l), MergedLines(d, u, lines))
    ensures AtMost(u, bound) && (forall l | l in lines :: AtMost(LineUsage(d, l), bound)) ==>
              AtMost(MergedLines(d, u, lines), bound)
    decreases |lines|
  {
    if lines != [] {
      MergedIsLeastBound(d, Merge(u, LineUsage(d, lines[0])), lines[1..], bound);
      assert lines == [lines[0]] + lines[1..];
    }
  }

  /** Neither the order of the events nor their repetition matters. */
  lemma EventOrderIrrelevant(d: Decoder, a: seq<seq<byte>>, b: seq<seq<byte>>)
    requires forall l :: l in a <==> l in b
    ensures MergedLines(d, ZERO, a) == MergedLines(d, ZERO, b)
  {
    var ua, ub := MergedLines(d, ZERO, a), MergedLines(d, ZERO, b);
    MergedIsLeastBound(d, ZERO, a, ub);
    MergedIsLeastBound(d, ZERO, b, ua);
  }

  // ---- Cached tokens are part of the prompt ------------------------------------------

  predicate Sound(u: Usage) {
    u.cached <= u.tokensIn
  }

  predicate HasNestedUsage(v: Value) {
    Get(v, "message").Some? && Get(Get(v, "message").value, "usage").Some?
  }

  predicate NamesPromptOrCompletion(u: Value) {
    Get(u, "prompt_tokens").Some? || Get(u, "completion_tokens").Some?
  }

  /** The sum of the input and the cache tokens does not wrap, or wraps once without the reads. */
  predicate SumIsSound(u: Value) {
    var plain, read, written :=
      Field(u, "input_tokens"), Field(u, "cache_read_input_tokens"), Field(u, "cache_creation_input_tokens");
    || plain + read + written < U64_MODULUS
    || (U64_MODULUS <= plain + written && plain + read + written < 2 * U64_MODULUS)
  }

  /** Exactly when one value yields no more cached tokens than prompt tokens. */
  predicate SoundBlock(v: Value) {
    if HasNestedUsage(v) then SumIsSound(Get(Get(v, "message").value, "usage").value)
    else
      match Get(v, "usage")
      case None => true
      case Some(u) =>
        if NamesPromptOrCompletion(u) then Field(FromDetails(u), "cached_tokens") <= Field(u, "prompt_tokens")
        else SumIsSound(u)
  }

  function FromDetails(u: Value): Value {
    match Get(u, "prompt_tokens_details") case Some(d) => d case None => Null
  }

  /**
   An OpenAI-shaped sample is sound iff it reports no more cached than prompt
   tokens; an Anthropic-shaped one iff its sum does not wrap, or wraps once
   without the cache reads.
   */
  lemma SampleSoundness(v: Value)
    ensures Sound(ExtractUsageFromValue(v)) <==> SoundBlock(v)
  {
    match UsageBlock(v)
    case None =>
    case Some((u, openAi)) =>
      if !openAi {
        WrappedSum(
          Field(u, "cache_read_input_tokens"),
          Field(u, "input_tokens") + Field(u, "cache_creation_input_tokens"));
      }
  }

  lemma WrappedSum(a: u64, b: nat)
    requires b < 2 * U64_MODULUS
    ensures a <= Wrap(a + b) <==>
              a + b < U64_MODULUS || (U64_MODULUS <= b && a + b < 2 * U64_MODULUS)
  {
  }

  /** Sound samples merge to a sound usage, in any order. */
  lemma {:induction false} SoundStream(d: Decoder, u: Usage, lines: seq<seq<byte>>)
    requires Sound(u) && forall l | l in lines :: Sound(LineUsage(d, l))
    ensures Sound(MergedLines(d, u, lines))
    decreases |lines|
  {
    if lines != [] {
      SoundStream(d, Merge(u, LineUsage(d, lines[0])), lines[1..]);
    }
  }
}
