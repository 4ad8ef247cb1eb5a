/** The reader of streamed model responses: lines into frames, frames into an
    accumulated response. */
module EventStream {
  import opened Models
  import opened Collections
  import opened Text

  // ---------------------------------------------------------------------
  // Lines
  // ---------------------------------------------------------------------

  function WithoutCr(s: string): string {
    if s != [] && s[|s| - 1] == '\r' then s[..|s| - 1] else s
  }

  function UpToNewline(s: string): (n: nat)
    ensures n <= |s|
    ensures n < |s| ==> s[n] == '\n'
    ensures forall i :: 0 <= i < n ==> s[i] != '\n'
  {
    if s == [] || s[0] == '\n' then 0 else 1 + UpToNewline(s[1..])
  }

  /** bufio.ScanLines: the text between newlines, without one trailing carriage
      return; a last line without newline counts unless it is empty. */
  function Lines(s: string): seq<string>
    decreases |s|
  {
    if s == [] then []
    else
      var n := UpToNewline(s);
      [WithoutCr(s[..n])] + (if n < |s| then Lines(s[n + 1..]) else [])
  }

  function Unlines(lines: seq<string>, cr: bool): string {
    if lines == [] then "" else lines[0] + (if cr then "\r\n" else "\n") + Unlines(lines[1..], cr)
  }

  predicate OneLine(s: string) {
    '\n' !in s && (s != [] ==> s[|s| - 1] != '\r')
  }

  lemma NewlineAfter(line: string, rest: string)
    requires '\n' !in line
    ensures UpToNewline(line + "\n" + rest) == |line|
  {
    var s := line + "\n" + rest;
    var n := UpToNewline(s);
    assert s[|line|] == '\n';
    assert forall i :: 0 <= i < |line| ==> s[i] == line[i];
  }

  lemma LinesCons(line: string, rest: string)
    requires '\n' !in line
    ensures Lines(line + "\n" + rest) == [WithoutCr(line)] + Lines(rest)
  {
    NewlineAfter(line, rest);
    var s := line + "\n" + rest;
    assert s[..|line|] == line && s[|line| + 1..] == rest;
  }

  lemma {:induction false} LinesOfUnlines(lines: seq<string>, cr: bool)
    requires forall i :: 0 <= i < |lines| ==> OneLine(lines[i])
    ensures Lines(Unlines(lines, cr)) == lines
  {
    if lines != [] {
      LinesOfUnlines(lines[1..], cr);
      var line := if cr then lines[0] + "\r" else lines[0];
      assert Unlines(lines, cr) == line + "\n" + Unlines(lines[1..], cr);
      LinesCons(line, Unlines(lines[1..], cr));
      assert cr ==> (lines[0] + "\r")[..|lines[0]|] == lines[0];
      assert WithoutCr(line) == lines[0];
    }
  }

  // ---------------------------------------------------------------------
  // Frames
  // ---------------------------------------------------------------------

  datatype Frame = Frame(event: string, payload: string)

  function Join(parts: seq<string>): string {
    if parts == [] then "" else if |parts| == 1 then parts[0] else parts[0] + "\n" + Join(parts[1..])
  }

  /** An event's payload is the text of its data lines, but for the newline at its end. */
  lemma {:induction false} PayloadIsLines(data: seq<string>)
    requires data != []
    ensures Join(data) + "\n" == Unlines(data, false)
    decreases |data|
  {
    if |data| > 1 {
      PayloadIsLines(data[1..]);
      assert Join(data) + "\n" == data[0] + "\n" + (Join(data[1..]) + "\n");
    } else {
      assert Unlines(data[1..], false) == "";
    }
  }

  predicate HasPrefix(s: string, p: string) {
    |p| <= |s| && s[..|p|] == p
  }

  /** What a blank line or the end of the stream hands on. */
  function Flushed(name: string, data: seq<string>): seq<Frame> {
    var payload := TrimSpace(Join(data));
    if data == [] || payload == "" || payload == "[DONE]" then [] else [Frame(name, payload)]
  }

  /** What the reader takes a line for. Comments, which start with a colon, and
      unknown fields are passed over. */
  datatype Line = Blank | EventLine(name: string) | DataLine(text: string) | PassedOver

  function FieldOf(line: string): Line {
    if HasPrefix(line, "event:") then EventLine(TrimSpace(line[6..]))
    else if HasPrefix(line, "data:") then DataLine(TrimSpace(line[5..]))
    else PassedOver
  }

  function Classify(raw: string): Line {
    if WithoutCr(raw) == "" then Blank else FieldOf(WithoutCr(raw))
  }

  function ClassifyAll(lines: seq<string>): (r: seq<Line>)
    ensures |r| == |lines|
    ensures forall i :: 0 <= i < |lines| ==> r[i] == Classify(lines[i])
  {
    seq(|lines|, i requires 0 <= i < |lines| => Classify(lines[i]))
  }

  /** The reader's loop, from a pending event name and pending data lines. */
  function Frames(lines: seq<Line>, name: string, data: seq<string>): seq<Frame>
    decreases |lines|
  {
    if lines == [] then Flushed(name, data)
    else
      match lines[0]
      case Blank => Flushed(name, data) + Frames(lines[1..], "", [])
      case EventLine(n) => Frames(lines[1..], n, data)
      case DataLine(t) => Frames(lines[1..], name, data + [t])
      case PassedOver => Frames(lines[1..], name, data)
  }

  lemma CommentsArePassedOver(text: string)
    requires OneLine(text)
    ensures Classify(":" + text) == PassedOver
  {
    assert (":" + text)[0] == ':';
    assert "event:"[0] == 'e' && "data:"[0] == 'd';
    assert text != "" ==> (":" + text)[|text|] == text[|text| - 1];
  }

  /** Lines passed over change nothing, wherever they stand ... */
  lemma {:induction false} PassedOverChangesNothing(a: seq<Line>, b: seq<Line>, name: string, data: seq<string>)
    ensures Frames(a + [PassedOver] + b, name, data) == Frames(a + b, name, data)
    decreases |a|
  {
    if a == [] {
      assert a + [PassedOver] + b == [PassedOver] + b && ([PassedOver] + b)[1..] == b;
      assert a + b == b;
    } else {
      TailOfConcat(a, b);
      Associative(a, [PassedOver], b);
      TailOfConcat(a, [PassedOver] + b);
      Associative(a[1..], [PassedOver], b);
      match a[0]
      case Blank => PassedOverChangesNothing(a[1..], b, "", []);
      case EventLine(n) => PassedOverChangesNothing(a[1..], b, n, data);
      case DataLine(t) => PassedOverChangesNothing(a[1..], b, name, data + [t]);
      case PassedOver => PassedOverChangesNothing(a[1..], b, name, data);
    }
  }

  lemma FirstBlank(b: seq<Line>, name: string, data: seq<string>)
    ensures Frames([Blank] + b, name, data) == Flushed(name, data) + Frames(b, "", [])
    ensures Frames([Blank] + b, "", []) == Frames(b, "", [])
  {
    assert ([Blank] + b)[1..] == b;
    assert [] + Frames(b, "", []) == Frames(b, "", []);
  }

  /** ... nor does a second blank line ... */
  lemma {:induction false} SecondBlankChangesNothing(a: seq<Line>, b: seq<Line>, name: string, data: seq<string>)
    ensures Frames(a + ([Blank, Blank] + b), name, data) == Frames(a + ([Blank] + b), name, data)
    decreases |a|
  {
    if a == [] {
      assert a + ([Blank, Blank] + b) == [Blank] + ([Blank] + b) && a + ([Blank] + b) == [Blank] + b;
      FirstBlank([Blank] + b, name, data);
      FirstBlank(b, name, data);
      FirstBlank(b, "", []);
    } else {
      TailOfConcat(a, [Blank, Blank] + b);
      TailOfConcat(a, [Blank] + b);
      match a[0]
      case Blank => SecondBlankChangesNothing(a[1..], b, "", []);
      case EventLine(n) => SecondBlankChangesNothing(a[1..], b, n, data);
      case DataLine(t) => SecondBlankChangesNothing(a[1..], b, name, data + [t]);
      case PassedOver => SecondBlankChangesNothing(a[1..], b, name, data);
    }
  }

  /** ... nor leaving out the last one. */
  lemma {:induction false} FinalBlankChangesNothing(a: seq<Line>, name: string, data: seq<string>)
    ensures Frames(a + [Blank], name, data) == Frames(a, name, data)
    decreases |a|
  {
    if a == [] {
      assert a + [Blank] == [Blank] && [Blank][1..] == [];
      assert Flushed(name, data) + [] == Flushed(name, data);
    } else {
      TailOfConcat(a, [Blank]);
      match a[0]
      case Blank => FinalBlankChangesNothing(a[1..], "", []);
      case EventLine(n) => FinalBlankChangesNothing(a[1..], n, data);
      case DataLine(t) => FinalBlankChangesNothing(a[1..], name, data + [t]);
      case PassedOver => FinalBlankChangesNothing(a[1..], name, data);
    }
  }

  // ---------------------------------------------------------------------
  // Printing, as section 9.2.6 of the WHATWG HTML Standard reads it back
  // ---------------------------------------------------------------------

  /** An event to print: a name, or none, and its data lines. */
  datatype Message = Message(name: string, data: seq<string>)

  predicate PlainLine(s: string) {
    Trimmed(s) && OneLine(s)
  }

  /** The events the reader delivers unchanged: trimmed lines, neither the first
      nor the last data line empty, and not the end marker. */
  predicate Printable(m: Message) {
    && PlainLine(m.name) && m.data != []
    && (forall i :: 0 <= i < |m.data| ==> PlainLine(m.data[i]))
    && m.data[0] != "" && m.data[|m.data| - 1] != ""
    && Join(m.data) != "[DONE]"
  }

  /** The space after the colon is optional. */
  function Field(name: string, value: string, spaced: bool): string {
    name + (if spaced then " " else "") + value
  }

  function DataLines(data: seq<string>, spaced: bool): seq<string> {
    if data == [] then [] else [Field("data:", data[0], spaced)] + DataLines(data[1..], spaced)
  }

  function NameLine(name: string, spaced: bool): seq<string> {
    if name == "" then [] else [Field("event:", name, spaced)]
  }

  function Print(messages: seq<Message>, spaced: bool): seq<string> {
    if messages == [] then []
    else
      var m := messages[0];
      NameLine(m.name, spaced) + (DataLines(m.data, spaced) + ([""] + Print(messages[1..], spaced)))
  }

  function FramesOf(messages: seq<Message>): seq<Frame> {
    if messages == [] then []
    else [Frame(messages[0].name, Join(messages[0].data))] + FramesOf(messages[1..])
  }

  lemma FieldIsOneLine(name: string, value: string, spaced: bool)
    requires PlainLine(value) && (name == "event:" || name == "data:")
    ensures OneLine(Field(name, value, spaced)) && WithoutCr(Field(name, value, spaced)) == Field(name, value, spaced)
  {
    var f := Field(name, value, spaced);
    if value != "" {
      assert f[|f| - 1] == value[|value| - 1];
    }
  }

  lemma FieldValueReadsBack(name: string, value: string, spaced: bool)
    requires PlainLine(value)
    ensures TrimSpace(Field(name, value, spaced)[|name|..]) == value
  {
    TrimmedIsFixed(value);
    if spaced {
      assert Field(name, value, spaced)[|name|..] == " " + value && (" " + value)[1..] == value;
    } else {
      assert Field(name, value, spaced)[|name|..] == value;
    }
  }

  lemma EventFieldClassified(value: string, spaced: bool)
    requires PlainLine(value)
    ensures Classify(Field("event:", value, spaced)) == EventLine(value)
  {
    FieldIsOneLine("event:", value, spaced);
    FieldValueReadsBack("event:", value, spaced);
    assert Field("event:", value, spaced)[..6] == "event:";
  }

  lemma DataFieldClassified(value: string, spaced: bool)
    requires PlainLine(value)
    ensures Classify(Field("data:", value, spaced)) == DataLine(value)
  {
    FieldIsOneLine("data:", value, spaced);
    FieldValueReadsBack("data:", value, spaced);
    var line := Field("data:", value, spaced);
    assert line[..5] == "data:";
    assert line[0] == 'd' && "event:"[0] == 'e';
  }

  lemma {:induction false} JoinEnds(data: seq<string>)
    requires data != [] && data[|data| - 1] != ""
    ensures Join(data) != "" && Join(data)[|Join(data)| - 1] == data[|data| - 1][|data[|data| - 1]| - 1]
    ensures data[0] != "" ==> Join(data)[0] == data[0][0]
  {
    if |data| > 1 {
      JoinEnds(data[1..]);
    }
  }

  lemma MessageFlushes(m: Message)
    requires Printable(m)
    ensures Flushed(m.name, m.data) == [Frame(m.name, Join(m.data))]
  {
    JoinEnds(m.data);
    assert PlainLine(m.data[0]) && PlainLine(m.data[|m.data| - 1]);
    TrimmedIsFixed(Join(m.data));
  }

  function DataOnly(data: seq<string>): (r: seq<Line>) {
    if data == [] then [] else [DataLine(data[0])] + DataOnly(data[1..])
  }

  /** What the printed lines are taken for. */
  function Taken(messages: seq<Message>): seq<Line> {
    if messages == [] then []
    else
      var m := messages[0];
      (if m.name == "" then [] else [EventLine(m.name)]) + (DataOnly(m.data) + ([Blank] + Taken(messages[1..])))
  }

  lemma ClassifyConcat(a: seq<string>, b: seq<string>)
    ensures ClassifyAll(a + b) == ClassifyAll(a) + ClassifyAll(b)
  {
  }

  lemma {:induction false} DataLinesTaken(data: seq<string>, spaced: bool)
    requires forall i :: 0 <= i < |data| ==> PlainLine(data[i])
    ensures ClassifyAll(DataLines(data, spaced)) == DataOnly(data)
  {
    if data != [] {
      DataLinesTaken(data[1..], spaced);
      DataFieldClassified(data[0], spaced);
      ClassifyConcat([Field("data:", data[0], spaced)], DataLines(data[1..], spaced));
      assert ClassifyAll([Field("data:", data[0], spaced)]) == [DataLine(data[0])];
    }
  }

  lemma NameLineTaken(name: string, spaced: bool)
    requires PlainLine(name)
    ensures ClassifyAll(NameLine(name, spaced)) == if name == "" then [] else [EventLine(name)]
  {
    EventFieldClassified(name, spaced);
  }

  lemma {:induction false} PrintedTaken(messages: seq<Message>, spaced: bool)
    requires forall i :: 0 <= i < |messages| ==> Printable(messages[i])
    ensures ClassifyAll(Print(messages, spaced)) == Taken(messages)
  {
    if messages != [] {
      var m := messages[0];
      var rest := Print(messages[1..], spaced);
      PrintedTaken(messages[1..], spaced);
      DataLinesTaken(m.data, spaced);
      NameLineTaken(m.name, spaced);
      ClassifyConcat(NameLine(m.name, spaced), DataLines(m.data, spaced) + ([""] + rest));
      ClassifyConcat(DataLines(m.data, spaced), [""] + rest);
      ClassifyConcat([""], rest);
      assert ClassifyAll([""]) == [Blank];
    }
  }

  lemma {:induction false} DataLinesRead(data: seq<string>, rest: seq<Line>, name: string, pending: seq<string>)
    ensures Frames(DataOnly(data) + rest, name, pending) == Frames(rest, name, pending + data)
    decreases |data|
  {
    if data == [] {
      assert DataOnly(data) + rest == rest && pending + data == pending;
    } else {
      Associative([DataLine(data[0])], DataOnly(data[1..]), rest);
      TailOfConcat([DataLine(data[0])], DataOnly(data[1..]) + rest);
      assert [DataLine(data[0])][1..] + (DataOnly(data[1..]) + rest) == DataOnly(data[1..]) + rest;
      DataLinesRead(data[1..], rest, name, pending + [data[0]]);
      assert pending + [data[0]] + data[1..] == pending + data;
    }
  }

  lemma OneMessageReads(m: Message, rest: seq<Line>)
    requires Printable(m)
    ensures Frames((if m.name == "" then [] else [EventLine(m.name)]) + (DataOnly(m.data) + ([Blank] + rest)), "", [])
      == [Frame(m.name, Join(m.data))] + Frames(rest, "", [])
  {
    var body := DataOnly(m.data) + ([Blank] + rest);
    DataLinesRead(m.data, [Blank] + rest, m.name, []);
    assert [] + m.data == m.data;
    MessageFlushes(m);
    assert ([Blank] + rest)[1..] == rest;
    if m.name == "" {
      assert [] + body == body;
    } else {
      assert ([EventLine(m.name)] + body)[1..] == body;
    }
  }

  /** Printed events come back as exactly their names and payloads, in order. */
  lemma {:induction false} PrintedFramesRead(messages: seq<Message>)
    requires forall i :: 0 <= i < |messages| ==> Printable(messages[i])
    ensures Frames(Taken(messages), "", []) == FramesOf(messages)
  {
    if messages != [] {
      PrintedFramesRead(messages[1..]);
      OneMessageReads(messages[0], Taken(messages[1..]));
    }
  }

  lemma {:induction false} PrintedLinesArePlain(messages: seq<Message>, spaced: bool)
    requires forall i :: 0 <= i < |messages| ==> Printable(messages[i])
    ensures forall i :: 0 <= i < |Print(messages, spaced)| ==> OneLine(Print(messages, spaced)[i])
  {
    if messages != [] {
      PrintedLinesArePlain(messages[1..], spaced);
      DataLinesArePlain(messages[0].data, spaced);
      FieldIsOneLine("event:", messages[0].name, spaced);
    }
  }

  lemma {:induction false} DataLinesArePlain(data: seq<string>, spaced: bool)
    requires forall i :: 0 <= i < |data| ==> PlainLine(data[i])
    ensures forall i :: 0 <= i < |DataLines(data, spaced)| ==> OneLine(DataLines(data, spaced)[i])
  {
    if data != [] {
      DataLinesArePlain(data[1..], spaced);
      FieldIsOneLine("data:", data[0], spaced);
    }
  }

  /** The same from the text, with either line ending. */
  lemma PrintedTextReads(messages: seq<Message>, spaced: bool, cr: bool)
    requires forall i :: 0 <= i < |messages| ==> Printable(messages[i])
    ensures Frames(ClassifyAll(Lines(Unlines(Print(messages, spaced), cr))), "", []) == FramesOf(messages)
  {
    PrintedLinesArePlain(messages, spaced);
    LinesOfUnlines(Print(messages, spaced), cr);
    PrintedTaken(messages, spaced);
    PrintedFramesRead(messages);
  }

  // ---------------------------------------------------------------------
  // Accumulating the response
  // ---------------------------------------------------------------------

  datatype Response = Response(outputText: string, output: seq<string>)

  /** A decoded payload. Absent fields are None; kind is the "type" field. */
  datatype StreamEvent = StreamEvent(
    kind: Option<string>,
    hasError: bool,
    response: Option<Response>,
    delta: Option<string>,
    text: Option<string>,
    item: Option<string>)

  datatype Error = EmptyStream | BadPayload(payload: string) | ProviderError(payload: string) | NoData
  datatype Result<+T> = Ok(value: T) | Err(error: Error)

  datatype Acc = Acc(output: seq<string>, outputText: string, completed: Option<Response>)

  const NOTHING := Acc([], "", None)

  predicate Contains(s: string, part: string) {
    HasPrefix(s, part) || (s != [] && Contains(s[1..], part))
  }

  lemma {:induction false} ContainsAt(s: string, part: string, i: nat)
    requires i <= |s| && HasPrefix(s[i..], part)
    ensures Contains(s, part)
  {
    if i > 0 {
      assert s[1..][i - 1..] == s[i..];
      ContainsAt(s[1..], part, i - 1);
    } else {
      assert s[0..] == s;
    }
  }

  predicate HasSuffix(s: string, p: string) {
    |p| <= |s| && s[|s| - |p|..] == p
  }

  predicate IsFailure(kind: string) { kind == "error" || HasSuffix(kind, ".failed") }
  predicate IsTextDelta(kind: string) { Contains(kind, "output_text.delta") }
  predicate IsTextDone(kind: string) { Contains(kind, "output_text.done") }
  predicate IsItemDone(kind: string) { Contains(kind, "output_item.done") }

  /** The event's type; Go prints an absent one as "<nil>", so the name on the
      event line counts only for a type that is present and blank. */
  function TypeOf(name: string, e: StreamEvent): string {
    var kind := TrimSpace(if e.kind.Some? then e.kind.value else "<nil>");
    if kind == "" then name else kind
  }

  function Added(acc: Acc, name: string, e: StreamEvent, payload: string): Result<Acc> {
    var kind := TypeOf(name, e);
    if IsFailure(kind) || e.hasError then Err(ProviderError(payload))
    else Ok(Acc(OutputAfter(acc.output, kind, e), TextAfter(acc.outputText, kind, e),
                if e.response.Some? then e.response else acc.completed))
  }

  /** Deltas append; the finished text only fills in when no delta came. */
  function TextAfter(text: string, kind: string, e: StreamEvent): string {
    var streamed := if e.delta.Some? && IsTextDelta(kind) then text + e.delta.value else text;
    if e.text.Some? && IsTextDone(kind) && streamed == "" then e.text.value else streamed
  }

  function OutputAfter(output: seq<string>, kind: string, e: StreamEvent): seq<string> {
    if e.item.Some? && IsItemDone(kind) then output + [e.item.value] else output
  }

  type Decoder = string -> Option<StreamEvent>

  function AddedFrame(acc: Acc, f: Frame, decode: Decoder): Result<Acc> {
    var e := decode(f.payload);
    if e.None? then Err(BadPayload(f.payload)) else Added(acc, f.event, e.value, f.payload)
  }

  function AddedAll(acc: Acc, frames: seq<Frame>, decode: Decoder): Result<Acc>
    decreases |frames|
  {
    if frames == [] then Ok(acc)
    else
      var first := AddedFrame(acc, frames[0], decode);
      if first.Err? then first else AddedAll(first.value, frames[1..], decode)
  }

  /** A completed response wins, its gaps filled from what was streamed. */
  function Body(acc: Acc): Result<Response> {
    if acc.completed.Some? then
      var c := acc.completed.value;
      Ok(Response(
        if TrimSpace(c.outputText) == "" && acc.outputText != "" then acc.outputText else c.outputText,
        if c.output == [] && acc.output != [] then acc.output else c.output))
    else if acc.outputText == "" && acc.output == [] then Err(NoData)
    else Ok(Response(acc.outputText, acc.output))
  }

  /** Raw is a response that was not a stream and passes through untouched. */
  datatype Normal = Raw(text: string) | Parsed(response: Response)

  function Normalized(text: string, decode: Decoder): Result<Normal> {
    var trimmed := TrimSpace(text);
    if trimmed == "" then Err(EmptyStream)
    else if trimmed[0] == '{' || trimmed[0] == '[' then Ok(Raw(text))
    else
      var acc := AddedAll(NOTHING, Frames(ClassifyAll(Lines(text)), "", []), decode);
      if acc.Err? then Err(acc.error)
      else
        var body := Body(acc.value);
        if body.Err? then Err(body.error) else Ok(Parsed(body.value))
  }

  class StreamReader {
    var eventName: string
    var dataLines: seq<string>
    var acc: Acc

    constructor ()
      ensures eventName == "" && dataLines == [] && acc == NOTHING
    {
      eventName, dataLines, acc := "", [], NOTHING;
    }

    method Add(name: string, payload: string, decode: Decoder) returns (error: Option<Error>)
      modifies this`acc
      ensures var r := AddedFrame(old(acc), Frame(name, payload), decode);
        if r.Ok? then error == None && acc == r.value else error == Some(r.error)
    {
      var decoded := decode(payload);
      if decoded.None? {
        return Some(BadPayload(payload));
      }
      var e := decoded.value;
      var kind := TrimSpace(if e.kind.Some? then e.kind.value else "<nil>");
      if kind == "" {
        kind := name;
      }
      if IsFailure(kind) || e.hasError {
        return Some(ProviderError(payload));
      }
      AddParts(kind, e);
      error := None;
    }

    method AddParts(kind: string, e: StreamEvent)
      modifies this`acc
      ensures acc.completed == if e.response.Some? then e.response else old(acc).completed
      ensures acc.outputText == TextAfter(old(acc).outputText, kind, e)
      ensures acc.output == OutputAfter(old(acc).output, kind, e)
    {
      if e.response.Some? {
        acc := acc.(completed := e.response);
      }
      if e.delta.Some? && IsTextDelta(kind) {
        acc := acc.(outputText := acc.outputText + e.delta.value);
      }
      if e.text.Some? && IsTextDone(kind) && acc.outputText == "" {
        acc := acc.(outputText := e.text.value);
      }
      if e.item.Some? && IsItemDone(kind) {
        acc := acc.(output := acc.output + [e.item.value]);
      }
    }

    method Flush(decode: Decoder) returns (error: Option<Error>)
      modifies this
      ensures eventName == "" && dataLines == []
      ensures var r := AddedAll(old(acc), Flushed(old(eventName), old(dataLines)), decode);
        if r.Ok? then error == None && acc == r.value else error == Some(r.error)
    {
      if dataLines == [] {
        eventName := "";
        return None;
      }
      var payload := TrimSpace(Join(dataLines));
      var event := eventName;
      eventName := "";
      dataLines := [];
      if payload == "" || payload == "[DONE]" {
        return None;
      }
      assert [Frame(event, payload)][1..] == [];
      error := Add(event, payload, decode);
    }

    /** One line of the stream. */
    method Take(raw: string, decode: Decoder) returns (error: Option<Error>)
      modifies this
      ensures match Classify(raw)
        case Blank =>
          && eventName == "" && dataLines == []
          && (var r := AddedAll(old(acc), Flushed(old(eventName), old(dataLines)), decode);
              if r.Ok? then error == None && acc == r.value else error == Some(r.error))
        case EventLine(n) => error == None && acc == old(acc) && eventName == n && dataLines == old(dataLines)
        case DataLine(t) => error == None && acc == old(acc) && eventName == old(eventName) && dataLines == old(dataLines) + [t]
        case PassedOver => error == None && acc == old(acc) && eventName == old(eventName) && dataLines == old(dataLines)
    {
      var line := WithoutCr(raw);
      error := None;
      if line == "" {
        error := Flush(decode);
      } else if HasPrefix(line, "event:") {
        eventName := TrimSpace(line[6..]);
      } else if HasPrefix(line, "data:") {
        dataLines := dataLines + [TrimSpace(line[5..])];
      }
    }
  }

  lemma {:induction false} AddedAllSplit(acc: Acc, a: seq<Frame>, b: seq<Frame>, decode: Decoder)
    ensures AddedAll(acc, a + b, decode) ==
      var first := AddedAll(acc, a, decode);
      if first.Err? then first else AddedAll(first.value, b, decode)
    decreases |a|
  {
    if a == [] {
      assert a + b == b;
    } else {
      assert (a + b)[1..] == a[1..] + b;
      var first := AddedFrame(acc, a[0], decode);
      if first.Ok? {
        AddedAllSplit(first.value, a[1..], b, decode);
      }
    }
  }

  method Normalize(text: string, decode: Decoder) returns (result: Result<Normal>)
    ensures result == Normalized(text, decode)
  {
    var trimmed := TrimSpace(text);
    if trimmed == "" {
      return Err(EmptyStream);
    }
    if trimmed[0] == '{' || trimmed[0] == '[' {
      return Ok(Raw(text));
    }
    var acc := ReadAll(Lines(text), decode);
    if acc.Err? {
      return Err(acc.error);
    }
    var body := Body(acc.value);
    result := if body.Err? then Err(body.error) else Ok(Parsed(body.value));
  }

  /** The line loop with its flushes, stopping at the first error. */
  method ReadAll(lines: seq<string>, decode: Decoder) returns (result: Result<Acc>)
    ensures result == AddedAll(NOTHING, Frames(ClassifyAll(lines), "", []), decode)
  {
    var reader := new StreamReader();
    ghost var kinds := ClassifyAll(lines);
    ghost var goal := AddedAll(NOTHING, Frames(kinds, "", []), decode);
    assert kinds[0..] == kinds;
    for i := 0 to |lines|
      invariant goal == AddedAll(reader.acc, Frames(kinds[i..], reader.eventName, reader.dataLines), decode)
    {
      Uncons(kinds, i);
      AddedAllSplit(reader.acc, Flushed(reader.eventName, reader.dataLines), Frames(kinds[i + 1..], "", []), decode);
      var error := reader.Take(lines[i], decode);
      if error.Some? {
        return Err(error.value);
      }
    }
    var error := reader.Flush(decode);
    if error.Some? {
      return Err(error.value);
    }
    result := Ok(reader.acc);
  }

  // ---------------------------------------------------------------------
  // What the consumer gets
  // ---------------------------------------------------------------------

  function Concat(parts: seq<string>): string {
    if parts == [] then "" else parts[0] + Concat(parts[1..])
  }

  const DELTA_KIND := "response.output_text.delta"

  /** An event that only carries a piece of output text. */
  predicate IsDelta(e: StreamEvent, piece: string) {
    && e.kind == Some(DELTA_KIND) && !e.hasError
    && e.response.None? && e.text.None? && e.item.None? && e.delta == Some(piece)
  }

  lemma DeltaKindIsTextDelta()
    ensures IsTextDelta(DELTA_KIND)
  {
    var kind := DELTA_KIND;
    assert kind[9..] == "output_text.delta";
    ContainsAt(kind, "output_text.delta", 9);
  }

  lemma OtherLastLetter(s: string, p: string)
    requires s != "" && p != "" && s[|s| - 1] != p[|p| - 1]
    ensures !HasSuffix(s, p) && s != p
  {
    if |p| <= |s| {
      assert s[|s| - |p|..][|p| - 1] == s[|s| - 1];
    }
  }

  lemma DeltaKindIsNoFailure()
    ensures !IsFailure(DELTA_KIND) && Trimmed(DELTA_KIND) && DELTA_KIND != ""
  {
    assert DELTA_KIND[|DELTA_KIND| - 1] == 'a';
    OtherLastLetter(DELTA_KIND, ".failed");
    OtherLastLetter(DELTA_KIND, "error");
  }

  // Whole streams: what each part of the accumulated response is made of.

  /** What an event brings: a piece of text, the whole text repeated at its end,
      output items, a response object. */
  datatype Part = Rejected | Part(delta: string, finished: string, items: seq<string>, response: Option<Response>)

  function PartOf(f: Frame, decode: Decoder): Part {
    var e := decode(f.payload);
    if e.None? then Rejected
    else
      var kind := TypeOf(f.event, e.value);
      if IsFailure(kind) || e.value.hasError then Rejected
      else
        Part(if e.value.delta.Some? && IsTextDelta(kind) then e.value.delta.value else "",
             if e.value.text.Some? && IsTextDone(kind) then e.value.text.value else "",
             if e.value.item.Some? && IsItemDone(kind) then [e.value.item.value] else [],
             e.value.response)
  }

  function PartsOf(frames: seq<Frame>, decode: Decoder): (r: seq<Part>)
    ensures |r| == |frames|
  {
    if frames == [] then [] else [PartOf(frames[0], decode)] + PartsOf(frames[1..], decode)
  }

  predicate AllTaken(parts: seq<Part>) {
    parts == [] || (parts[0].Part? && AllTaken(parts[1..]))
  }

  function Grown(acc: Acc, p: Part): Acc
    requires p.Part?
  {
    var streamed := acc.outputText + p.delta;
    Acc(acc.output + p.items, if streamed == "" && p.finished != "" then p.finished else streamed,
        if p.response.Some? then p.response else acc.completed)
  }

  function GrownAll(acc: Acc, parts: seq<Part>): Acc
    requires AllTaken(parts)
    decreases |parts|
  {
    if parts == [] then acc else GrownAll(Grown(acc, parts[0]), parts[1..])
  }

  lemma AddedGrows(acc: Acc, f: Frame, decode: Decoder)
    ensures AddedFrame(acc, f, decode).Ok? <==> PartOf(f, decode).Part?
    ensures PartOf(f, decode).Part? ==> AddedFrame(acc, f, decode).value == Grown(acc, PartOf(f, decode))
  {
    assert acc.outputText + "" == acc.outputText;
    assert acc.output + [] == acc.output;
  }

  lemma {:induction false} StreamGrows(acc: Acc, frames: seq<Frame>, decode: Decoder)
    ensures AddedAll(acc, frames, decode).Ok? <==> AllTaken(PartsOf(frames, decode))
    ensures AllTaken(PartsOf(frames, decode)) ==>
      AddedAll(acc, frames, decode).value == GrownAll(acc, PartsOf(frames, decode))
    decreases |frames|
  {
    if frames != [] {
      var part := PartOf(frames[0], decode);
      AddedGrows(acc, frames[0], decode);
      assert PartsOf(frames, decode)[1..] == PartsOf(frames[1..], decode);
      if part.Part? {
        StreamGrows(Grown(acc, part), frames[1..], decode);
      }
    }
  }

  function Deltas(parts: seq<Part>): string
    requires AllTaken(parts)
  {
    if parts == [] then "" else parts[0].delta + Deltas(parts[1..])
  }

  function Items(parts: seq<Part>): seq<string>
    requires AllTaken(parts)
  {
    if parts == [] then [] else parts[0].items + Items(parts[1..])
  }

  /** The response object of the last event that has one. */
  function LastResponse(parts: seq<Part>): Option<Response>
    requires AllTaken(parts)
  {
    if parts == [] then None
    else
      var rest := LastResponse(parts[1..]);
      if rest.Some? then rest else parts[0].response
  }

  /** The finished text that fills in because nothing has been streamed yet. */
  function FillIn(streamed: string, parts: seq<Part>): string
    requires AllTaken(parts)
    decreases |parts|
  {
    if parts == [] then ""
    else
      var now := streamed + parts[0].delta;
      if now == "" && parts[0].finished != "" then parts[0].finished else FillIn(now, parts[1..])
  }

  lemma {:induction false} NoFillAfterText(streamed: string, parts: seq<Part>)
    requires AllTaken(parts) && streamed != ""
    ensures FillIn(streamed, parts) == ""
    decreases |parts|
  {
    if parts != [] {
      NoFillAfterText(streamed + parts[0].delta, parts[1..]);
    }
  }

  lemma TextMoves(text: string, delta: string, rest: string)
    ensures (text + delta) + "" + rest == text + "" + (delta + rest)
  {
  }

  /** The text of any stream the accumulator takes: what fills in, if anything does,
      and then the deltas in order. */
  lemma {:induction false} DeltasConcatenate(acc: Acc, parts: seq<Part>)
    requires AllTaken(parts)
    ensures GrownAll(acc, parts).outputText == acc.outputText + FillIn(acc.outputText, parts) + Deltas(parts)
    decreases |parts|
  {
    if parts == [] {
      assert acc.outputText + "" + "" == acc.outputText;
    } else {
      var p, rest := parts[0], parts[1..];
      var streamed := acc.outputText + p.delta;
      var next := Grown(acc, p);
      DeltasConcatenate(next, rest);
      assert FillIn(acc.outputText, parts) == if streamed == "" && p.finished != "" then p.finished else FillIn(streamed, rest);
      if streamed == "" && p.finished != "" {
        assert acc.outputText == "" && p.delta == "";
        NoFillAfterText(next.outputText, rest);
      } else if streamed != "" {
        NoFillAfterText(streamed, rest);
        TextMoves(acc.outputText, p.delta, Deltas(rest));
      } else {
        assert acc.outputText == "" && p.delta == "";
      }
    }
  }

  lemma {:induction false} ItemsCollect(acc: Acc, parts: seq<Part>)
    requires AllTaken(parts)
    ensures GrownAll(acc, parts).output == acc.output + Items(parts)
    ensures GrownAll(acc, parts).completed == if LastResponse(parts).Some? then LastResponse(parts) else acc.completed
    decreases |parts|
  {
    if parts == [] {
      assert acc.output + [] == acc.output;
    } else {
      ItemsCollect(Grown(acc, parts[0]), parts[1..]);
      Associative(acc.output, parts[0].items, Items(parts[1..]));
    }
  }

  /** Event p repeats a finished text, and no text came before or with it. */
  ghost predicate FillsAt(parts: seq<Part>, p: nat)
    requires AllTaken(parts)
  {
    && p < |parts| && parts[p].Part? && parts[p].finished != ""
    && forall q :: 0 <= q <= p ==> parts[q].Part? && parts[q].delta == ""
  }

  lemma FillsLater(parts: seq<Part>, p: nat)
    requires AllTaken(parts) && parts != [] && parts[0].delta == ""
    ensures FillsAt(parts, p + 1) <==> FillsAt(parts[1..], p)
  {
    var rest := parts[1..];
    if FillsAt(parts, p + 1) {
      forall q | 0 <= q <= p ensures rest[q].Part? && rest[q].delta == "" {
        assert rest[q] == parts[q + 1];
      }
    }
    if FillsAt(rest, p) {
      forall q | 0 <= q <= p + 1 ensures parts[q].Part? && parts[q].delta == "" {
        assert q > 0 ==> parts[q] == rest[q - 1];
      }
    }
  }

  /** So a finished text fills in exactly when it comes before any other text. */
  lemma {:induction false} FillInMeans(parts: seq<Part>)
    requires AllTaken(parts)
    ensures FillIn("", parts) != "" <==> exists p: nat :: FillsAt(parts, p)
    decreases |parts|
  {
    if parts != [] {
      var rest := parts[1..];
      FillInMeans(rest);
      assert "" + parts[0].delta == parts[0].delta;
      if parts[0].delta != "" {
        NoFillAfterText(parts[0].delta, rest);
      } else if parts[0].finished != "" {
        assert FillsAt(parts, 0);
      } else {
        if p: nat :| FillsAt(rest, p) {
          FillsLater(parts, p);
        }
        if p: nat :| FillsAt(parts, p) {
          assert p > 0;
          FillsLater(parts, p - 1);
        }
      }
    }
  }

  /** All output text of a stream. */
  function Streamed(parts: seq<Part>): string
    requires AllTaken(parts)
  {
    FillIn("", parts) + Deltas(parts)
  }

  /** What the parts of a stream amount to; None when nothing came. Its text is the
      last response object's own unless that is blank or absent, and then the
      streamed text; its output likewise. */
  function Delivered(parts: seq<Part>): Option<Response>
    requires AllTaken(parts)
  {
    var own := LastResponse(parts);
    if own.Some? then
      Some(Response(if TrimSpace(own.value.outputText) != "" || Streamed(parts) == "" then own.value.outputText else Streamed(parts),
                    if own.value.output != [] || Items(parts) == [] then own.value.output else Items(parts)))
    else if Streamed(parts) == "" && Items(parts) == [] then None
    else Some(Response(Streamed(parts), Items(parts)))
  }

  /** A body that is neither blank nor JSON yields exactly what its events, in
      order, amount to, and nothing but an error if one of them is not taken. */
  lemma StreamMeans(text: string, decode: Decoder)
    requires var t := TrimSpace(text); t != "" && t[0] != '{' && t[0] != '['
    ensures var parts, result := PartsOf(Frames(ClassifyAll(Lines(text)), "", []), decode), Normalized(text, decode);
      && (result.Ok? <==> AllTaken(parts) && Delivered(parts).Some?)
      && (result.Ok? ==> result == Ok(Parsed(Delivered(parts).value)))
  {
    var frames := Frames(ClassifyAll(Lines(text)), "", []);
    StreamGrows(NOTHING, frames, decode);
    if AllTaken(PartsOf(frames, decode)) {
      BodyDelivers(PartsOf(frames, decode));
    }
  }

  lemma BodyDelivers(parts: seq<Part>)
    requires AllTaken(parts)
    ensures Body(GrownAll(NOTHING, parts)) == if Delivered(parts).Some? then Ok(Delivered(parts).value) else Err(NoData)
  {
    DeltasConcatenate(NOTHING, parts);
    ItemsCollect(NOTHING, parts);
    assert "" + FillIn("", parts) == FillIn("", parts);
    assert [] + Items(parts) == Items(parts);
  }

  lemma PrintedMeans(messages: seq<Message>, spaced: bool, cr: bool, decode: Decoder)
    requires messages != [] && forall i :: 0 <= i < |messages| ==> Printable(messages[i])
    ensures var parts, result := PartsOf(FramesOf(messages), decode), Normalized(Unlines(Print(messages, spaced), cr), decode);
      && (result.Ok? <==> AllTaken(parts) && Delivered(parts).Some?)
      && (result.Ok? ==> result == Ok(Parsed(Delivered(parts).value)))
  {
    PrintedTextReads(messages, spaced, cr);
    StartsWithField(messages, spaced, cr);
    StreamMeans(Unlines(Print(messages, spaced), cr), decode);
  }

  /** A streamed answer, printed event by event among whatever other events the
      accumulator takes, comes out as the concatenation of its deltas exactly when
      no finished text precedes them all, unless a response object brings a text of
      its own. */
  lemma StreamedTextArrives(messages: seq<Message>, spaced: bool, cr: bool, decode: Decoder)
    requires messages != [] && forall i :: 0 <= i < |messages| ==> Printable(messages[i])
    ensures var parts, result := PartsOf(FramesOf(messages), decode), Normalized(Unlines(Print(messages, spaced), cr), decode);
      if !AllTaken(parts) then result.Err?
      else
        var own := LastResponse(parts);
        Deltas(parts) != "" ==>
          && result.Ok? && result.value.Parsed?
          && (if own.Some? && TrimSpace(own.value.outputText) != ""
              then result.value.response.outputText == own.value.outputText
              else result.value.response.outputText == Deltas(parts) <==> !exists p: nat :: FillsAt(parts, p))
  {
    PrintedMeans(messages, spaced, cr, decode);
    var parts := PartsOf(FramesOf(messages), decode);
    if AllTaken(parts) {
      FillInMeans(parts);
      assert |Streamed(parts)| == |FillIn("", parts)| + |Deltas(parts)|;
    }
  }

  lemma DeltaPart(f: Frame, piece: string, decode: Decoder)
    requires decode(f.payload).Some? && IsDelta(decode(f.payload).value, piece)
    ensures PartOf(f, decode) == Part(piece, "", [], None)
  {
    DeltaKindIsTextDelta();
    DeltaKindIsNoFailure();
    TrimmedIsFixed(DELTA_KIND);
    assert TypeOf(f.event, decode(f.payload).value) == DELTA_KIND;
  }

  lemma {:induction false} BareDeltas(frames: seq<Frame>, pieces: seq<string>, decode: Decoder)
    requires |frames| == |pieces|
    requires forall i :: 0 <= i < |frames| ==>
      decode(frames[i].payload).Some? && IsDelta(decode(frames[i].payload).value, pieces[i])
    ensures var parts := PartsOf(frames, decode);
      && AllTaken(parts) && Deltas(parts) == Concat(pieces) && Items(parts) == [] && LastResponse(parts).None?
      && forall streamed :: FillIn(streamed, parts) == ""
    decreases |frames|
  {
    if frames != [] {
      DeltaPart(frames[0], pieces[0], decode);
      BareDeltas(frames[1..], pieces[1..], decode);
      assert PartsOf(frames, decode)[1..] == PartsOf(frames[1..], decode);
    }
  }

  /** In particular for a stream of nothing but deltas. */
  lemma BareDeltasArrive(messages: seq<Message>, pieces: seq<string>, spaced: bool, cr: bool, decode: Decoder)
    requires |messages| == |pieces| && Concat(pieces) != ""
    requires forall i :: 0 <= i < |messages| ==> Printable(messages[i])
    requires forall i :: 0 <= i < |messages| ==>
      decode(Join(messages[i].data)).Some? && IsDelta(decode(Join(messages[i].data)).value, pieces[i])
    ensures Normalized(Unlines(Print(messages, spaced), cr), decode) == Ok(Parsed(Response(Concat(pieces), [])))
  {
    FramesOfAt(messages);
    BareDeltas(FramesOf(messages), pieces, decode);
    assert Delivered(PartsOf(FramesOf(messages), decode)) == Some(Response(Concat(pieces), [])) by {
      assert "" + Concat(pieces) == Concat(pieces);
    }
    PrintedMeans(messages, spaced, cr, decode);
  }

  lemma {:induction false} FramesOfAt(messages: seq<Message>)
    ensures |FramesOf(messages)| == |messages|
    ensures forall i :: 0 <= i < |messages| ==> FramesOf(messages)[i] == Frame(messages[i].name, Join(messages[i].data))
  {
    if messages != [] {
      FramesOfAt(messages[1..]);
    }
  }

  lemma LeadingTextStays(s: string)
    requires s != "" && !IsSpace(s[0])
    ensures TrimSpace(s) != "" && TrimSpace(s)[0] == s[0]
  {
    KeepsFirst(s);
  }

  lemma {:induction false} KeepsFirst(s: string)
    requires s != "" && !IsSpace(s[0])
    ensures TrimRight(s) != "" && TrimRight(s)[0] == s[0]
  {
    if IsSpace(s[|s| - 1]) {
      KeepsFirst(s[..|s| - 1]);
    }
  }

  lemma StartsWithField(messages: seq<Message>, spaced: bool, cr: bool)
    requires messages != [] && Printable(messages[0])
    ensures var text := Unlines(Print(messages, spaced), cr);
      TrimSpace(text) != "" && (TrimSpace(text)[0] == 'e' || TrimSpace(text)[0] == 'd')
  {
    var lines := Print(messages, spaced);
    assert lines[0] == if messages[0].name == "" then Field("data:", messages[0].data[0], spaced)
                       else Field("event:", messages[0].name, spaced);
    var text := Unlines(lines, cr);
    assert text[0] == lines[0][0];
    LeadingTextStays(text);
  }

  /** The name on the event line matters exactly when the payload's type is
      present and blank: for a payload without a type it is never consulted. */
  lemma EventNameMatters(e: StreamEvent)
    ensures (forall a, b :: TypeOf(a, e) == TypeOf(b, e)) <==> !(e.kind.Some? && TrimSpace(e.kind.value) == "")
  {
    TrimmedIsFixed("<nil>");
    if e.kind.Some? && TrimSpace(e.kind.value) == "" {
      assert TypeOf("a", e) != TypeOf("b", e);
    }
  }
}
