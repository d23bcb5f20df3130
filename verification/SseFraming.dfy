/**
 The server-sent event framing of a streamed completion (_sse in
 app/routers/completion_router.py), against a receiver that follows section 9.2.6 of the
 WHATWG HTML Living Standard.

 JSON encoding is a parameter: encode maps a chunk to text without line breaks, and
 decode undoes it and does not read [DONE] as a chunk.
 */
module SseFraming {
  import opened Wrappers
  import opened EventCollector
  import opened AgentStream

  const DONE: string := "[DONE]"

  /** The fields every chunk of one response shares. */
  datatype Envelope = Envelope(id: string, created: int, model: string)

  datatype Extension = EventExtension(payload: Payload) | TruncationExtension(droppedCount: nat)

  /** choices and extensions of a chat.completion.chunk. */
  datatype Chunk =
    | ExtensionChunk(envelope: Envelope, extension: Extension)
    | DeltaChunk(envelope: Envelope, hasRole: bool, content: string)
    | StopChunk(envelope: Envelope)

  // ---------------------------------------------------------------- the sender

  function Frame(data: string): string {
    "data: " + data + "\n\n"
  }

  function ExtensionOf(item: Item): Extension
    requires !item.Text?
  {
    if item.StreamedEvent? then EventExtension(item.payload) else TruncationExtension(item.droppedCount)
  }

  /** The chunks of a list of items; first says whether no text was sent before. */
  function Chunks(envelope: Envelope, items: seq<Item>, first: bool): seq<Chunk> {
    if items == [] then []
    else if items[0].Text? then
      [DeltaChunk(envelope, first, items[0].text)] + Chunks(envelope, items[1..], false)
    else
      [ExtensionChunk(envelope, ExtensionOf(items[0]))] + Chunks(envelope, items[1..], first)
  }

  /** What ends the body of a response. */
  function Ends(envelope: Envelope, completed: bool, encode: Chunk -> string): seq<string> {
    if completed then [encode(StopChunk(envelope)), DONE] else []
  }

  /** The data of every frame of a response. */
  function Datas(envelope: Envelope, items: seq<Item>, completed: bool, encode: Chunk -> string): seq<string> {
    Encoded(Chunks(envelope, items, true), encode) + Ends(envelope, completed, encode)
  }

  function Encoded(chunks: seq<Chunk>, encode: Chunk -> string): seq<string> {
    if chunks == [] then [] else [encode(chunks[0])] + Encoded(chunks[1..], encode)
  }

  function Frames(datas: seq<string>): string {
    if datas == [] then "" else Frame(datas[0]) + Frames(datas[1..])
  }

  /** The generator: items arrive one by one; an error or a cancellation ends it after them. */
  method Sse(envelope: Envelope, items: seq<Item>, ending: Ending, encode: Chunk -> string) returns (body: string)
    ensures body == Frames(Datas(envelope, items, ending == Completed, encode))
  {
    body := "";
    var first := true;
    ghost var sent: seq<string> := [];
    for i := 0 to |items|
      invariant body == Frames(sent)
      invariant sent + Encoded(Chunks(envelope, items[i..], first), encode)
                == Encoded(Chunks(envelope, items, true), encode)
    {
      var delta := items[i];
      NextChunk(envelope, items, i, first, encode);
      var data;
      if !delta.Text? {
        data := encode(ExtensionChunk(envelope, ExtensionOf(delta)));
      } else {
        data := encode(DeltaChunk(envelope, first, delta.text));
        first := false;
      }
      FramesLast(sent, data);
      Associate(sent, [data], Encoded(Chunks(envelope, items[i + 1..], first), encode));
      sent := sent + [data];
      body := body + Frame(data);
    }
    assert items[|items|..] == [] && sent + [] == sent;
    if ending == Completed {
      var final := encode(StopChunk(envelope));
      FramesLast(sent, final);
      FramesLast(sent + [final], DONE);
      Associate(sent, [final], [DONE]);
      body := body + Frame(final);
      body := body + Frame(DONE);
      assert [final] + [DONE] == [final, DONE];
    }
  }

  lemma NextChunk(envelope: Envelope, items: seq<Item>, i: nat, first: bool, encode: Chunk -> string)
    requires i < |items|
    ensures var item := items[i];
            Encoded(Chunks(envelope, items[i..], first), encode)
            == if item.Text?
               then [encode(DeltaChunk(envelope, first, item.text))]
                    + Encoded(Chunks(envelope, items[i + 1..], false), encode)
               else [encode(ExtensionChunk(envelope, ExtensionOf(item)))]
                    + Encoded(Chunks(envelope, items[i + 1..], first), encode)
  {
    assert items[i..][1..] == items[i + 1..];
  }

  lemma {:induction false} FramesLast(datas: seq<string>, data: string)
    ensures Frames(datas + [data]) == Frames(datas) + Frame(data)
  {
    if datas == [] {
      assert datas + [data] == [data];
      assert Frames([data]) == Frame(data) + "";
    } else {
      assert (datas + [data])[1..] == datas[1..] + [data];
      FramesLast(datas[1..], data);
    }
  }

  // ---------------------------------------------------------------- the receiver

  predicate LineBreak(c: char) {
    c == '\n' || c == '\r'
  }

  predicate OneLine(s: string) {
    forall i :: 0 <= i < |s| ==> !LineBreak(s[i])
  }

  /** The length of the first line, or None when the input has no line break. */
  function LineEnd(s: string): (n: Option<nat>)
    ensures n.Some? ==> n.value < |s| && LineBreak(s[n.value]) && OneLine(s[..n.value])
  {
    if s == "" then None
    else if LineBreak(s[0]) then Some(0)
    else
      var rest := LineEnd(s[1..]);
      if rest.None? then None else Some(rest.value + 1)
  }

  /** The lines of a stream; CR LF is one break, and an unfinished last line is dropped. */
  function Lines(s: string): seq<string>
    decreases |s|
  {
    var n := LineEnd(s);
    if n.None? then []
    else
      var width := if s[n.value] == '\r' && n.value + 1 < |s| && s[n.value + 1] == '\n' then 2 else 1;
      [s[..n.value]] + Lines(s[n.value + width..])
  }

  /** The value a line adds to the data buffer: None for comments and for every other field. */
  function DataField(line: string): Option<string> {
    if line == "data" then Some("")
    else if "data:" <= line then
      Some(if |line| > 5 && line[5] == ' ' then line[6..] else line[5..])
    else None
  }

  /** The messages dispatched by the lines, with what the data buffer holds. */
  function Dispatch(lines: seq<string>, buffer: string): seq<string> {
    if lines == [] then []
    else if lines[0] == "" then
      (if buffer == "" then [] else [buffer[..|buffer| - 1]]) + Dispatch(lines[1..], "")
    else
      var value := DataField(lines[0]);
      Dispatch(lines[1..], if value.Some? then buffer + value.value + "\n" else buffer)
  }

  function Messages(stream: string): seq<string> {
    Dispatch(Lines(stream), "")
  }

  /** What a client keeps of one response. */
  datatype Transcript = Transcript(items: seq<Item>, roles: seq<bool>, stops: nat, dones: nat)

  function ItemOf(extension: Extension): Item {
    match extension
    case EventExtension(payload) => StreamedEvent(payload)
    case TruncationExtension(n) => StreamedTruncation(n)
  }

  /** Reading the messages in order; text that is not a chunk and not [DONE] is skipped. */
  function Read(messages: seq<string>, decode: string -> Option<Chunk>): Transcript {
    if messages == [] then Transcript([], [], 0, 0)
    else
      var rest := Read(messages[1..], decode);
      if messages[0] == DONE then rest.(dones := rest.dones + 1)
      else
        var chunk := decode(messages[0]);
        if chunk.None? then rest
        else match chunk.value
          case ExtensionChunk(_, extension) => rest.(items := [ItemOf(extension)] + rest.items)
          case DeltaChunk(_, hasRole, content) =>
            rest.(items := [Text(content)] + rest.items, roles := [hasRole] + rest.roles)
          case StopChunk(_) => rest.(stops := rest.stops + 1)
  }

  // ---------------------------------------------------------------- decoding undoes framing

  ghost predicate Codec(encode: Chunk -> string, decode: string -> Option<Chunk>) {
    && (forall chunk :: OneLine(encode(chunk)))
    && (forall chunk :: decode(encode(chunk)) == Some(chunk))
    && (forall chunk :: encode(chunk) != DONE)
  }

  lemma {:induction false} LineEndAt(line: string, rest: string)
    requires OneLine(line)
    ensures LineEnd(line + "\n" + rest) == Some(|line|)
  {
    var s := line + "\n" + rest;
    if line != "" {
      assert s[1..] == line[1..] + "\n" + rest;
      LineEndAt(line[1..], rest);
    }
  }

  lemma FirstLine(line: string, rest: string)
    requires OneLine(line)
    ensures Lines(line + "\n" + rest) == [line] + Lines(rest)
  {
    var s := line + "\n" + rest;
    LineEndAt(line, rest);
    assert s[..|line|] == line;
    assert s[|line| + 1..] == rest;
  }

  lemma FrameSplit(data: string, rest: string)
    ensures Frame(data) + rest == ("data: " + data) + "\n" + ("" + "\n" + rest)
  {
    var line := "data: " + data;
    assert "\n\n" == "\n" + "\n";
    assert "" + "\n" + rest == "\n" + rest;
    Associate(line, "\n", "\n");
    Associate(line + "\n", "\n", rest);
  }

  lemma FrameLines(data: string, rest: string)
    requires OneLine(data)
    ensures Lines(Frame(data) + rest) == ["data: " + data] + ([""] + Lines(rest))
  {
    FrameSplit(data, rest);
    FirstLine("data: " + data, "" + "\n" + rest);
    FirstLine("", rest);
  }

  /** One frame is one message, whatever follows it. */
  lemma FrameIsMessage(data: string, rest: string)
    requires OneLine(data)
    ensures Frame(data) == "data: " + data + "\n\n"
    ensures Messages("data: " + data + "\n\n" + rest) == [data] + Messages(rest)
  {
    FrameLines(data, rest);
    var lines := Lines(Frame(data) + rest);
    assert lines[0] == "data: " + data && lines[1..][0] == "" && lines[1..][1..] == Lines(rest);
    assert lines[0][5] == ' ' && lines[0][6..] == data;
    assert "data:" <= lines[0];
    assert DataField(lines[0]) == Some(data);
    var buffer := "" + data + "\n";
    assert buffer[..|buffer| - 1] == data;
    assert Dispatch(lines, "") == Dispatch(lines[1..], buffer);
  }

  lemma {:induction false} FramesAreMessages(datas: seq<string>)
    requires forall i :: 0 <= i < |datas| ==> OneLine(datas[i])
    ensures Messages(Frames(datas)) == datas
  {
    if datas != [] {
      FramesAreMessages(datas[1..]);
      FrameIsMessage(datas[0], Frames(datas[1..]));
    }
  }

  lemma {:induction false} EncodedOneLine(chunks: seq<Chunk>, encode: Chunk -> string, decode: string -> Option<Chunk>)
    requires Codec(encode, decode)
    ensures |Encoded(chunks, encode)| == |chunks|
    ensures forall i :: 0 <= i < |chunks| ==> OneLine(Encoded(chunks, encode)[i])
  {
    if chunks != [] {
      EncodedOneLine(chunks[1..], encode, decode);
    }
  }

  /** Whether the role flags of the texts are: true for the very first text of the response, false after. */
  function RoleFlags(n: nat, first: bool): seq<bool> {
    seq(n, i => first && i == 0)
  }

  /** The chunk of one item. */
  function ChunkOf(envelope: Envelope, item: Item, first: bool): Chunk {
    if item.Text? then DeltaChunk(envelope, first, item.text) else ExtensionChunk(envelope, ExtensionOf(item))
  }

  /** What the reader adds for one item in front of other messages. */
  lemma ReadOne(
      envelope: Envelope, item: Item, first: bool, others: seq<string>,
      encode: Chunk -> string, decode: string -> Option<Chunk>)
    requires Codec(encode, decode)
    ensures var rest := Read(others, decode);
            Read([encode(ChunkOf(envelope, item, first))] + others, decode)
            == Transcript([item] + rest.items, (if item.Text? then [first] else []) + rest.roles,
                          rest.stops, rest.dones)
  {
    var chunk := ChunkOf(envelope, item, first);
    var messages := [encode(chunk)] + others;
    assert messages[0] == encode(chunk) && messages[1..] == others;
    assert decode(encode(chunk)) == Some(chunk);
    assert [] + Read(others, decode).roles == Read(others, decode).roles;
  }

  lemma EncodedCons(envelope: Envelope, items: seq<Item>, first: bool, tail: seq<string>, encode: Chunk -> string)
    requires items != []
    ensures var others := Encoded(Chunks(envelope, items[1..], first && !items[0].Text?), encode) + tail;
            Encoded(Chunks(envelope, items, first), encode) + tail
            == [encode(ChunkOf(envelope, items[0], first))] + others
  {
    assert items[0..] == items;
    NextChunk(envelope, items, 0, first, encode);
    Associate([encode(ChunkOf(envelope, items[0], first))],
              Encoded(Chunks(envelope, items[1..], first && !items[0].Text?), encode), tail);
  }

  lemma ConsItems(items: seq<Item>, more: seq<Item>)
    requires items != []
    ensures [items[0]] + (items[1..] + more) == items + more
  {
  }

  lemma ConsTexts(items: seq<Item>)
    requires items != []
    ensures |TextsIn(items)| == |TextsIn(items[1..])| + if items[0].Text? then 1 else 0
  {
  }

  lemma ConsFlags(text: bool, n: nat, first: bool, roles: seq<bool>)
    ensures (if text then [first] else []) + (RoleFlags(n, first && !text) + roles)
            == RoleFlags(n + if text then 1 else 0, first) + roles
  {
  }

  lemma {:induction false} ReadEncoded(
      envelope: Envelope, items: seq<Item>, first: bool, tail: seq<string>,
      encode: Chunk -> string, decode: string -> Option<Chunk>)
    requires Codec(encode, decode)
    ensures var rest := Read(tail, decode);
            Read(Encoded(Chunks(envelope, items, first), encode) + tail, decode)
            == Transcript(items + rest.items, RoleFlags(|TextsIn(items)|, first) + rest.roles, rest.stops, rest.dones)
    decreases |items|
  {
    var rest := Read(tail, decode);
    if items == [] {
      assert [] + tail == tail && RoleFlags(0, first) == [];
      assert [] + rest.items == rest.items && [] + rest.roles == rest.roles;
    } else {
      var next := first && !items[0].Text?;
      EncodedCons(envelope, items, first, tail, encode);
      ReadOne(envelope, items[0], first, Encoded(Chunks(envelope, items[1..], next), encode) + tail, encode, decode);
      ReadEncoded(envelope, items[1..], next, tail, encode, decode);
      ConsItems(items, rest.items);
      ConsTexts(items);
      ConsFlags(items[0].Text?, |TextsIn(items[1..])|, first, rest.roles);
    }
  }

  lemma EndsRead(envelope: Envelope, completed: bool, encode: Chunk -> string, decode: string -> Option<Chunk>)
    requires Codec(encode, decode)
    ensures var n := if completed then 1 else 0;
            Read(Ends(envelope, completed, encode), decode) == Transcript([], [], n, n)
    ensures forall i :: 0 <= i < |Ends(envelope, completed, encode)| ==> OneLine(Ends(envelope, completed, encode)[i])
  {
    if completed {
      var stop, tail := StopChunk(envelope), Ends(envelope, completed, encode);
      assert tail[0] == encode(stop) && tail[1..] == [DONE] && tail[1..][1..] == [];
      assert decode(encode(stop)) == Some(stop);
      assert Read(tail[1..], decode) == Transcript([], [], 0, 1);
    }
  }

  lemma {:induction false} EncodedShareEnvelope(
      envelope: Envelope, items: seq<Item>, first: bool, encode: Chunk -> string, decode: string -> Option<Chunk>)
    requires Codec(encode, decode)
    ensures forall data :: data in Encoded(Chunks(envelope, items, first), encode) ==>
                             decode(data).Some? && decode(data).value.envelope == envelope
  {
    if items != [] {
      var next := first && !items[0].Text?;
      var chunk := ChunkOf(envelope, items[0], first);
      EncodedShareEnvelope(envelope, items[1..], next, encode, decode);
      EncodedCons(envelope, items, first, [], encode);
      var all := Encoded(Chunks(envelope, items, first), encode);
      var rest := Encoded(Chunks(envelope, items[1..], next), encode);
      assert all + [] == all && rest + [] == rest;
      assert decode(encode(chunk)) == Some(chunk);
    }
  }

  /** Every chunk of a response carries the same id, time and model. */
  lemma DatasShareEnvelope(
      envelope: Envelope, items: seq<Item>, completed: bool, encode: Chunk -> string, decode: string -> Option<Chunk>)
    requires Codec(encode, decode)
    ensures var datas := Datas(envelope, items, completed, encode);
            forall i :: 0 <= i < |datas| && decode(datas[i]).Some? && datas[i] != DONE ==>
                          decode(datas[i]).value.envelope == envelope
  {
    EncodedShareEnvelope(envelope, items, true, encode, decode);
    var encoded := Encoded(Chunks(envelope, items, true), encode);
    assert forall i :: 0 <= i < |encoded| ==> encoded[i] in encoded;
    assert decode(encode(StopChunk(envelope))) == Some(StopChunk(envelope));
  }

  lemma DatasAreMessages(
      envelope: Envelope, items: seq<Item>, completed: bool,
      encode: Chunk -> string, decode: string -> Option<Chunk>)
    requires Codec(encode, decode)
    ensures Messages(Frames(Datas(envelope, items, completed, encode))) == Datas(envelope, items, completed, encode)
  {
    EncodedOneLine(Chunks(envelope, items, true), encode, decode);
    EndsRead(envelope, completed, encode, decode);
    FramesAreMessages(Datas(envelope, items, completed, encode));
  }

  /**
   Decoding the body of any response gives back its items in order, a role on the first
   text and on no other, and one stop chunk followed by [DONE] exactly when the run
   completed.
   */
  lemma FramingInvertible(
      envelope: Envelope, items: seq<Item>, completed: bool,
      encode: Chunk -> string, decode: string -> Option<Chunk>)
    requires Codec(encode, decode)
    ensures var datas := Datas(envelope, items, completed, encode);
            && Messages(Frames(datas)) == datas
            && Read(Messages(Frames(datas)), decode)
               == Transcript(items, RoleFlags(|TextsIn(items)|, true),
                             if completed then 1 else 0, if completed then 1 else 0)
            && (completed ==> |datas| >= 2 && datas[|datas| - 2..] == [encode(StopChunk(envelope)), "[DONE]"])
            && forall i :: 0 <= i < |datas| && decode(datas[i]).Some? && datas[i] != "[DONE]" ==>
                             decode(datas[i]).value.envelope == envelope
  {
    var tail := Ends(envelope, completed, encode);
    DatasAreMessages(envelope, items, completed, encode, decode);
    EndsRead(envelope, completed, encode, decode);
    ReadEncoded(envelope, items, true, tail, encode, decode);
    DatasShareEnvelope(envelope, items, completed, encode, decode);
    assert items + [] == items;
    var roles := RoleFlags(|TextsIn(items)|, true);
    assert roles + [] == roles;
  }

  /**
   End to end: what a client reads from the body of a finished run is the text of the
   agent's events in order, the retained events and, last, the marker; and all of it is
   what a non-streaming caller of the same run is given.
   */
  lemma ClientSeesTheRun(
      actions: seq<Action>, ending: Ending, limits: Limits, envelope: Envelope,
      encode: Chunk -> string, decode: string -> Option<Chunk>)
    requires Codec(encode, decode) && ending != Cancelled
    ensures var body := Frames(Datas(envelope, Finished(actions, limits), ending == Completed, encode));
            var seen := Read(Messages(body), decode);
            && TextsIn(seen.items) == Spoken(actions)
            && (forall i :: 0 <= i < |seen.items| && seen.items[i].StreamedTruncation? ==> i == |seen.items| - 1)
            && Extensions(EventsIn(seen.items), MarkersIn(seen.items)) == NonStreaming(actions, limits)
            && |seen.roles| == |Spoken(actions)|
            && (forall i :: 0 <= i < |seen.roles| ==> (seen.roles[i] <==> i == 0))
            && seen.stops == seen.dones == if ending == Completed then 1 else 0
  {
    FramingInvertible(envelope, Finished(actions, limits), ending == Completed, encode, decode);
    StreamMatchesBody(actions, limits);
  }

  // ---------------------------------------------------------------- a connection that is cut

  lemma {:induction false} LineEndOfCut(s: string, k: nat)
    requires k <= |s|
    ensures LineEnd(s[..k]).Some? ==> LineEnd(s[..k]) == LineEnd(s)
  {
    if k > 0 && !LineBreak(s[0]) {
      assert s[..k][1..] == s[1..][..k - 1];
      LineEndOfCut(s[1..], k - 1);
    }
  }

  /** The rest after the first line, or None when there is no whole line. */
  function AfterLine(s: string): (rest: Option<string>)
    ensures rest.Some? <==> LineEnd(s).Some?
    ensures rest.Some? ==> |rest.value| < |s| && Lines(s) == [s[..LineEnd(s).value]] + Lines(rest.value)
  {
    var n := LineEnd(s);
    if n.None? then None
    else
      var width := if s[n.value] == '\r' && n.value + 1 < |s| && s[n.value + 1] == '\n' then 2 else 1;
      Some(s[n.value + width..])
  }

  /** Cutting keeps the first line, and cuts the rest; a cut between CR and LF ends the line just as well. */
  lemma CutAfterLine(s: string, k: nat) returns (j: nat)
    requires k <= |s| && LineEnd(s[..k]).Some?
    ensures AfterLine(s).Some? && j <= |AfterLine(s).value|
    ensures s[..k][..LineEnd(s[..k]).value] == s[..LineEnd(s).value]
    ensures AfterLine(s[..k]).value == AfterLine(s).value[..j]
  {
    LineEndOfCut(s, k);
    var n, rest := LineEnd(s).value, AfterLine(s).value;
    var width := |s| - n - |rest|;
    j := if n + width <= k then k - n - width else 0;
    assert rest == s[n + width..];
  }

  lemma {:induction false} LinesOfCut(s: string, k: nat)
    requires k <= |s|
    ensures Lines(s[..k]) <= Lines(s)
    decreases |s|
  {
    if LineEnd(s[..k]).Some? {
      var j := CutAfterLine(s, k);
      LinesOfCut(AfterLine(s).value, j);
    }
  }

  lemma {:induction false} DispatchConcat(a: seq<string>, b: seq<string>, buffer: string)
    ensures Dispatch(a, buffer) <= Dispatch(a + b, buffer)
    decreases |a|
  {
    if a != [] {
      assert (a + b)[0] == a[0] && (a + b)[1..] == a[1..] + b;
      var value := DataField(a[0]);
      DispatchConcat(a[1..], b, if a[0] == "" then "" else if value.Some? then buffer + value.value + "\n" else buffer);
    }
  }

  /** Wherever a stream is cut, the receiver has dispatched a prefix of its messages: none twice, none in part. */
  lemma CutIsPrefix(stream: string, k: nat)
    requires k <= |stream|
    ensures Messages(stream[..k]) <= Messages(stream)
  {
    LinesOfCut(stream, k);
    var rest := Suffix(Lines(stream[..k]), Lines(stream));
    DispatchConcat(Lines(stream[..k]), rest, "");
  }

  ghost predicate PrefixOf(a: Transcript, b: Transcript) {
    a.items <= b.items && a.roles <= b.roles && a.stops <= b.stops && a.dones <= b.dones
  }

  lemma {:induction false} ReadConcat(a: seq<string>, b: seq<string>, decode: string -> Option<Chunk>)
    ensures PrefixOf(Read(a, decode), Read(a + b, decode))
  {
    if a != [] {
      assert (a + b)[0] == a[0] && (a + b)[1..] == a[1..] + b;
      ReadConcat(a[1..], b, decode);
    }
  }

  lemma {:induction false} NoDoneRead(messages: seq<string>, decode: string -> Option<Chunk>)
    requires DONE !in messages
    ensures Read(messages, decode).dones == 0
  {
    if messages != [] {
      NoDoneRead(messages[1..], decode);
    }
  }

  lemma {:induction false} NoDoneEncoded(chunks: seq<Chunk>, encode: Chunk -> string, decode: string -> Option<Chunk>)
    requires Codec(encode, decode)
    ensures DONE !in Encoded(chunks, encode)
  {
    if chunks != [] {
      NoDoneEncoded(chunks[1..], encode, decode);
    }
  }

  /** [DONE] is the very last message of a response, if it is there at all. */
  lemma DoneIsLast(
      envelope: Envelope, items: seq<Item>, completed: bool,
      encode: Chunk -> string, decode: string -> Option<Chunk>)
    requires Codec(encode, decode)
    ensures var datas := Datas(envelope, items, completed, encode);
            forall i :: 0 <= i < |datas| && datas[i] == DONE ==> completed && i == |datas| - 1
  {
    NoDoneEncoded(Chunks(envelope, items, true), encode, decode);
    var encoded := Encoded(Chunks(envelope, items, true), encode);
    assert forall i :: 0 <= i < |encoded| ==> encoded[i] in encoded;
    assert encode(StopChunk(envelope)) != DONE;
  }

  /**
   A client whose connection is cut after any number of characters of a response has read a
   prefix of it; and if it has read [DONE], it has read all of it.
   */
  lemma CutResponse(
      envelope: Envelope, items: seq<Item>, completed: bool, k: nat,
      encode: Chunk -> string, decode: string -> Option<Chunk>)
    requires Codec(encode, decode)
    requires k <= |Frames(Datas(envelope, items, completed, encode))|
    ensures var body := Frames(Datas(envelope, items, completed, encode));
            var seen, whole := Read(Messages(body[..k]), decode), Read(Messages(body), decode);
            && PrefixOf(seen, whole) && seen.items <= items
            && (seen.dones > 0 ==> completed && seen == whole && seen.items == items)
  {
    var datas := Datas(envelope, items, completed, encode);
    var cut := Messages(Frames(datas)[..k]);
    FramingInvertible(envelope, items, completed, encode, decode);
    CutIsPrefix(Frames(datas), k);
    var rest := Suffix(cut, datas);
    ReadConcat(cut, rest, decode);
    if DONE in cut {
      DoneIsLast(envelope, items, completed, encode, decode);
      var i :| 0 <= i < |cut| && cut[i] == DONE;
      assert datas[i] == DONE;
      assert cut == datas;
    } else {
      NoDoneRead(cut, decode);
    }
  }

  /** End to end with a cut connection: a prefix of the text, of the events, and at most the one marker. */
  lemma CutClientSeesPrefix(
      actions: seq<Action>, ending: Ending, limits: Limits, envelope: Envelope, k: nat,
      encode: Chunk -> string, decode: string -> Option<Chunk>)
    requires Codec(encode, decode) && ending != Cancelled
    requires k <= |Frames(Datas(envelope, Finished(actions, limits), ending == Completed, encode))|
    ensures var body := Frames(Datas(envelope, Finished(actions, limits), ending == Completed, encode));
            var seen := Read(Messages(body[..k]), decode);
            && TextsIn(seen.items) <= Spoken(actions)
            && EventsIn(seen.items) <= NonStreaming(actions, limits).events
            && MarkersIn(seen.items) <= NonStreaming(actions, limits).truncations
            && (seen.dones > 0 ==>
                  TextsIn(seen.items) == Spoken(actions)
                  && Extensions(EventsIn(seen.items), MarkersIn(seen.items)) == NonStreaming(actions, limits))
  {
    CutResponse(envelope, Finished(actions, limits), ending == Completed, k, encode, decode);
    var body := Frames(Datas(envelope, Finished(actions, limits), ending == Completed, encode));
    StreamMatchesBody(actions, limits);
    PrefixCarries(Read(Messages(body[..k]), decode).items, Finished(actions, limits));
  }
}
