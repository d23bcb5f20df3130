/**
 The encoding that SseFraming assumes can be met.  JSON does it for the program; here a
 plain text form does it, each part of which says where it ends.
 */
module ChunkCodec {
  import opened Wrappers
  import opened EventCollector
  import opened SseFraming

  /** A character as text on one line. */
  function Mark(c: char): string {
    if c == '\n' then "n" else if c == '\r' then "r" else ['c', c]
  }

  function Quote(s: string): string {
    if s == "" then "." else Mark(s[0]) + Quote(s[1..])
  }

  function Unary(n: nat): string {
    if n == 0 then "." else "1" + Unary(n - 1)
  }

  function Signed(i: int): string {
    if i < 0 then "-" + Unary(-i) else "+" + Unary(i)
  }

  function EnvelopeText(e: Envelope): string {
    Quote(e.id) + (Signed(e.created) + Quote(e.model))
  }

  function ExtensionText(e: Extension): string {
    match e
    case EventExtension(payload) => "e" + Quote(payload.json)
    case TruncationExtension(n) => "t" + Unary(n)
  }

  function Encode(chunk: Chunk): string {
    match chunk
    case ExtensionChunk(e, extension) => "x" + (EnvelopeText(e) + ExtensionText(extension))
    case DeltaChunk(e, hasRole, content) => (if hasRole then "r" else "d") + (EnvelopeText(e) + Quote(content))
    case StopChunk(e) => "s" + EnvelopeText(e)
  }

  // ---------------------------------------------------------------- no two chunks have one text

  lemma Tail(a: string, x: string, y: string)
    requires a + x == a + y
    ensures x == y
  {
    assert (a + x)[|a|..] == x && (a + y)[|a|..] == y;
  }

  /** A text starting with one mark tells the character and the rest. */
  lemma MarkInjective(c: char, x: string, d: char, y: string)
    requires Mark(c) + x == Mark(d) + y
    ensures c == d && x == y
  {
    var s := Mark(c) + x;
    assert s[0] == Mark(c)[0] == Mark(d)[0];
    if s[0] == 'c' {
      assert s[1] == Mark(c)[1] == Mark(d)[1];
    }
    Tail(Mark(c), x, y);
  }

  lemma QuoteStart(s: string)
    ensures Quote(s) != "" && (Quote(s)[0] == '.' <==> s == "")
  {
  }

  lemma {:induction false} QuoteInjective(a: string, x: string, b: string, y: string)
    requires Quote(a) + x == Quote(b) + y
    ensures a == b && x == y
  {
    QuoteStart(a);
    QuoteStart(b);
    assert Quote(a)[0] == (Quote(a) + x)[0] == (Quote(b) + y)[0] == Quote(b)[0];
    if a == "" {
      Tail(".", x, y);
    } else {
      Associate(Mark(a[0]), Quote(a[1..]), x);
      Associate(Mark(b[0]), Quote(b[1..]), y);
      MarkInjective(a[0], Quote(a[1..]) + x, b[0], Quote(b[1..]) + y);
      QuoteInjective(a[1..], x, b[1..], y);
      assert a == [a[0]] + a[1..] && b == [b[0]] + b[1..];
    }
  }

  lemma Associate(a: string, b: string, c: string)
    ensures (a + b) + c == a + (b + c)
  {
  }

  lemma {:induction false} UnaryInjective(m: nat, x: string, n: nat, y: string)
    requires Unary(m) + x == Unary(n) + y
    ensures m == n && x == y
  {
    var s := Unary(m) + x;
    assert s[0] == Unary(m)[0] == Unary(n)[0];
    if m == 0 || n == 0 {
      Tail(".", x, y);
    } else {
      Associate("1", Unary(m - 1), x);
      Associate("1", Unary(n - 1), y);
      Tail("1", Unary(m - 1) + x, Unary(n - 1) + y);
      UnaryInjective(m - 1, x, n - 1, y);
    }
  }

  lemma SignedInjective(i: int, x: string, j: int, y: string)
    requires Signed(i) + x == Signed(j) + y
    ensures i == j && x == y
  {
    var s, m, n := Signed(i) + x, if i < 0 then -i else i, if j < 0 then -j else j;
    assert s[0] == Signed(i)[0] == Signed(j)[0];
    Associate([s[0]], Unary(m), x);
    Associate([s[0]], Unary(n), y);
    Tail([s[0]], Unary(m) + x, Unary(n) + y);
    UnaryInjective(m, x, n, y);
  }

  lemma EnvelopeInjective(a: Envelope, x: string, b: Envelope, y: string)
    requires EnvelopeText(a) + x == EnvelopeText(b) + y
    ensures a == b && x == y
  {
    Associate(Quote(a.id), Signed(a.created) + Quote(a.model), x);
    Associate(Quote(b.id), Signed(b.created) + Quote(b.model), y);
    Associate(Signed(a.created), Quote(a.model), x);
    Associate(Signed(b.created), Quote(b.model), y);
    QuoteInjective(a.id, Signed(a.created) + (Quote(a.model) + x), b.id, Signed(b.created) + (Quote(b.model) + y));
    SignedInjective(a.created, Quote(a.model) + x, b.created, Quote(b.model) + y);
    QuoteInjective(a.model, x, b.model, y);
  }

  lemma QuoteAlone(a: string, b: string)
    requires Quote(a) == Quote(b)
    ensures a == b
  {
    assert Quote(a) + "" == Quote(b) + "";
    QuoteInjective(a, "", b, "");
  }

  lemma ExtensionInjective(a: Extension, b: Extension)
    requires ExtensionText(a) == ExtensionText(b)
    ensures a == b
  {
    var s := ExtensionText(a);
    assert s[0] == (if a.EventExtension? then 'e' else 't') == (if b.EventExtension? then 'e' else 't');
    if a.EventExtension? {
      Tail("e", Quote(a.payload.json), Quote(b.payload.json));
      QuoteAlone(a.payload.json, b.payload.json);
    } else {
      Tail("t", Unary(a.droppedCount), Unary(b.droppedCount));
      assert Unary(a.droppedCount) + "" == Unary(b.droppedCount) + "";
      UnaryInjective(a.droppedCount, "", b.droppedCount, "");
    }
  }

  function Tag(chunk: Chunk): char {
    match chunk
    case ExtensionChunk(_, _) => 'x'
    case DeltaChunk(_, hasRole, _) => if hasRole then 'r' else 'd'
    case StopChunk(_) => 's'
  }

  function Body(chunk: Chunk): string {
    match chunk
    case ExtensionChunk(_, extension) => ExtensionText(extension)
    case DeltaChunk(_, _, content) => Quote(content)
    case StopChunk(_) => ""
  }

  lemma EncodeForm(chunk: Chunk)
    ensures Encode(chunk) == [Tag(chunk)] + (EnvelopeText(chunk.envelope) + Body(chunk))
  {
    assert EnvelopeText(chunk.envelope) + "" == EnvelopeText(chunk.envelope);
  }

  lemma EncodeInjective(a: Chunk, b: Chunk)
    requires Encode(a) == Encode(b)
    ensures a == b
  {
    EncodeForm(a);
    EncodeForm(b);
    assert Tag(a) == Encode(a)[0] == Tag(b);
    Tail([Tag(a)], EnvelopeText(a.envelope) + Body(a), EnvelopeText(b.envelope) + Body(b));
    EnvelopeInjective(a.envelope, Body(a), b.envelope, Body(b));
    if a.ExtensionChunk? {
      ExtensionInjective(a.extension, b.extension);
    } else if a.DeltaChunk? {
      QuoteAlone(a.content, b.content);
    }
  }

  // ---------------------------------------------------------------- one line

  lemma {:induction false} QuoteOneLine(s: string)
    ensures OneLine(Quote(s))
  {
    if s != "" {
      QuoteOneLine(s[1..]);
    }
  }

  lemma {:induction false} UnaryOneLine(n: nat)
    ensures OneLine(Unary(n))
  {
    if n != 0 {
      UnaryOneLine(n - 1);
    }
  }

  lemma OneLineConcat(a: string, b: string)
    ensures OneLine(a) && OneLine(b) ==> OneLine(a + b)
  {
  }

  lemma EnvelopeOneLine(e: Envelope)
    ensures OneLine(EnvelopeText(e))
  {
    var n := if e.created < 0 then -e.created else e.created;
    QuoteOneLine(e.id);
    UnaryOneLine(n);
    QuoteOneLine(e.model);
    OneLineConcat(if e.created < 0 then "-" else "+", Unary(n));
    OneLineConcat(Signed(e.created), Quote(e.model));
    OneLineConcat(Quote(e.id), Signed(e.created) + Quote(e.model));
  }

  lemma BodyOneLine(chunk: Chunk)
    ensures OneLine(Body(chunk))
  {
    match chunk {
      case ExtensionChunk(_, EventExtension(payload)) =>
        QuoteOneLine(payload.json);
        OneLineConcat("e", Quote(payload.json));
      case ExtensionChunk(_, TruncationExtension(n)) =>
        UnaryOneLine(n);
        OneLineConcat("t", Unary(n));
      case DeltaChunk(_, _, content) => QuoteOneLine(content);
      case StopChunk(_) =>
    }
  }

  lemma EncodeOneLine(chunk: Chunk)
    ensures OneLine(Encode(chunk)) && Encode(chunk) != DONE
  {
    var envelope, body := EnvelopeText(chunk.envelope), Body(chunk);
    EnvelopeOneLine(chunk.envelope);
    BodyOneLine(chunk);
    EncodeForm(chunk);
    OneLineConcat(envelope, body);
    OneLineConcat([Tag(chunk)], envelope + body);
    assert Encode(chunk)[0] == Tag(chunk);
  }

  ghost function Decode(s: string): Option<Chunk> {
    if chunk :| Encode(chunk) == s then Some(chunk) else None
  }

  /** There are an encoding and a decoding as the framing lemmas require them. */
  lemma CodecExists() returns (encode: Chunk -> string, decode: string -> Option<Chunk>)
    ensures Codec(encode, decode)
  {
    encode, decode := Encode, s => Decode(s);
    forall chunk: Chunk
      ensures OneLine(encode(chunk)) && encode(chunk) != DONE && decode(encode(chunk)) == Some(chunk)
    {
      EncodeOneLine(chunk);
      var found := Decode(Encode(chunk)).value;
      EncodeInjective(chunk, found);
    }
  }
}
