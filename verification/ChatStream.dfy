/** The events of one chat reply (packages/contracts/src/chats.ts) and their check (gateway-stream.ts). */
module ChatEvents {
  import opened Wrappers

  datatype Json =
    | Null | Boolean(b: bool) | Integer(n: int) | Fraction | Text(text: string) | List(items: seq<Json>)
    | Object(fields: map<string, Json>)

  datatype Status = Completed | Cancelled | Failed

  datatype Event =
    | TurnStarted(seqNo: int, chatId: string, turnId: string)
    | TextDelta(seqNo: int, delta: string)
    | ToolStarted(seqNo: int, callId: string, name: string, args: Option<Json>)
    | ToolFinished(seqNo: int, callId: string, isError: bool)
    | TurnFinished(seqNo: int, status: Status, error: Option<string>)

  function Get(fields: map<string, Json>, key: string): Option<Json> {
    if key in fields then Some(fields[key]) else None
  }

  function GetText(fields: map<string, Json>, key: string): Option<string> {
    if key in fields && fields[key].Text? then Some(fields[key].text) else None
  }

  function ParseStatus(s: Option<string>): Option<Status> {
    if s == Some("completed") then Some(Completed)
    else if s == Some("cancelled") then Some(Cancelled)
    else if s == Some("failed") then Some(Failed)
    else None
  }

  /** `parseChatStreamEvent`; `None` when it throws. An array has no `seq`, so it is refused as well. */
  function ParseEvent(value: Json): Option<Event> {
    if !value.Object? || Get(value.fields, "seq") == None || !Get(value.fields, "seq").value.Integer? then None
    else
      var f := value.fields;
      var n := f["seq"].n;
      match GetText(f, "type")
      case None => None
      case Some(kind) =>
        if kind == "turn.started" then
          match (GetText(f, "chatId"), GetText(f, "turnId"))
          case (Some(chatId), Some(turnId)) => Some(TurnStarted(n, chatId, turnId))
          case _ => None
        else if kind == "text.delta" then
          match GetText(f, "delta") { case Some(delta) => Some(TextDelta(n, delta)) case None => None }
        else if kind == "tool.started" then
          match (GetText(f, "callId"), GetText(f, "name"))
          case (Some(callId), Some(name)) => Some(ToolStarted(n, callId, name, Get(f, "args")))
          case _ => None
        else if kind == "tool.finished" then
          match (GetText(f, "callId"), Get(f, "isError"))
          case (Some(callId), Some(Boolean(b))) => Some(ToolFinished(n, callId, b))
          case _ => None
        else if kind == "turn.finished" then
          match (ParseStatus(GetText(f, "status")), Get(f, "error"))
          case (Some(status), None) => Some(TurnFinished(n, status, None))
          case (Some(status), Some(Text(error))) => Some(TurnFinished(n, status, Some(error)))
          case _ => None
        else None
  }

  function StatusText(s: Status): string {
    match s case Completed => "completed" case Cancelled => "cancelled" case Failed => "failed"
  }

  /** The JSON value the Gateway writes for an event. */
  function Encoded(e: Event): Json {
    var f := map["seq" := Integer(e.seqNo)];
    match e
    case TurnStarted(_, chatId, turnId) => Object(f["type" := Text("turn.started")]["chatId" := Text(chatId)]["turnId" := Text(turnId)])
    case TextDelta(_, delta) => Object(f["type" := Text("text.delta")]["delta" := Text(delta)])
    case ToolStarted(_, callId, name, args) =>
      var g := f["type" := Text("tool.started")]["callId" := Text(callId)]["name" := Text(name)];
      Object(if args == None then g else g["args" := args.value])
    case ToolFinished(_, callId, isError) =>
      Object(f["type" := Text("tool.finished")]["callId" := Text(callId)]["isError" := Boolean(isError)])
    case TurnFinished(_, status, error) =>
      var g := f["type" := Text("turn.finished")]["status" := Text(StatusText(status))];
      Object(if error == None then g else g["error" := Text(error.value)])
  }

  /** The client's check takes back every event the Gateway can write, unchanged. */
  lemma EncodedParsesBack(e: Event)
    ensures ParseEvent(Encoded(e)) == Some(e)
  {
    match e
    case TurnStarted(_, _, _) =>
    case TextDelta(_, _) =>
    case ToolStarted(_, _, _, _) => StartedParsesBack(e);
    case ToolFinished(_, _, _) =>
    case TurnFinished(_, _, _) => FinishedParsesBack(e);
  }

  lemma StartedParsesBack(e: Event)
    requires e.ToolStarted?
    ensures ParseEvent(Encoded(e)) == Some(e)
  {
  }

  lemma FinishedParsesBack(e: Event)
    requires e.TurnFinished?
    ensures ParseEvent(Encoded(e)) == Some(e)
  {
    assert ParseStatus(Some(StatusText(e.status))) == Some(e.status);
  }

  /** The object has every field the Gateway writes for this event, and none of those it leaves out. */
  ghost predicate Carries(fields: map<string, Json>, e: Event) {
    && (forall key | key in Encoded(e).fields :: key in fields && fields[key] == Encoded(e).fields[key])
    && (e.ToolStarted? && e.args == None ==> "args" !in fields)
    && (e.TurnFinished? && e.error == None ==> "error" !in fields)
  }

  /** The check takes exactly what is an event, whatever else the object holds, and takes nothing else for one. */
  lemma {:induction false} ParsesExactly(value: Json, e: Event)
    ensures ParseEvent(value) == Some(e) <==> value.Object? && Carries(value.fields, e)
  {
    if ParseEvent(value) == Some(e) {
      ParsedCarries(value, e);
    }
    if value.Object? && Carries(value.fields, e) {
      CarriedParses(value, e);
    }
  }

  lemma {:induction false} ParsedCarries(value: Json, e: Event)
    requires ParseEvent(value) == Some(e)
    ensures value.Object? && Carries(value.fields, e)
  {
  }

  lemma {:induction false} CarriedParses(value: Json, e: Event)
    requires value.Object? && Carries(value.fields, e)
    ensures ParseEvent(value) == Some(e)
  {
    hide ParseEvent, Carries;
    match e
    case TurnStarted(_, _, _) => StartParses(value, e);
    case TextDelta(_, _) => DeltaParses(value, e);
    case ToolStarted(_, _, _, _) => CallParses(value, e);
    case ToolFinished(_, _, _) => ResultParses(value, e);
    case TurnFinished(_, _, _) => EndParses(value, e);
  }

  lemma {:induction false} StartParses(value: Json, e: Event)
    requires e.TurnStarted? && value.Object? && Carries(value.fields, e)
    ensures ParseEvent(value) == Some(e)
  {
    var g := Encoded(e).fields;
    assert "seq" in g && "type" in g && "chatId" in g && "turnId" in g;
  }

  lemma {:induction false} DeltaParses(value: Json, e: Event)
    requires e.TextDelta? && value.Object? && Carries(value.fields, e)
    ensures ParseEvent(value) == Some(e)
  {
    var g := Encoded(e).fields;
    assert "seq" in g && "type" in g && "delta" in g;
  }

  lemma {:induction false} CallParses(value: Json, e: Event)
    requires e.ToolStarted? && value.Object? && Carries(value.fields, e)
    ensures ParseEvent(value) == Some(e)
  {
    var g := Encoded(e).fields;
    assert "seq" in g && "type" in g && "callId" in g && "name" in g && (e.args.Some? ==> "args" in g);
  }

  lemma {:induction false} ResultParses(value: Json, e: Event)
    requires e.ToolFinished? && value.Object? && Carries(value.fields, e)
    ensures ParseEvent(value) == Some(e)
  {
    var g := Encoded(e).fields;
    assert "seq" in g && "type" in g && "callId" in g && "isError" in g;
  }

  lemma {:induction false} EndParses(value: Json, e: Event)
    requires e.TurnFinished? && value.Object? && Carries(value.fields, e)
    ensures ParseEvent(value) == Some(e)
  {
    var g := Encoded(e).fields;
    assert "seq" in g && "type" in g && "status" in g && (e.error.Some? ==> "error" in g);
  }

  // ---------------------------------------------------------------- the order of a whole reply

  /** `e` may follow `before`: the next number, `turn.started` exactly first, and nothing after `turn.finished`. */
  predicate Follows(before: seq<Event>, e: Event) {
    && (before == [] || !before[|before| - 1].TurnFinished?)
    && e.seqNo == |before|
    && (e.TurnStarted? <==> before == [])
  }

  /** A whole reply: numbered from 0, `turn.started` exactly first and `turn.finished` exactly last. */
  predicate InOrder(events: seq<Event>) {
    && events != []
    && forall i | 0 <= i < |events| ::
         events[i].seqNo == i && (events[i].TurnStarted? <==> i == 0) && (events[i].TurnFinished? <==> i == |events| - 1)
  }

  /** The start of a reply, perhaps all of it. */
  predicate SoFar(events: seq<Event>) {
    forall i | 0 <= i < |events| ::
      events[i].seqNo == i && (events[i].TurnStarted? <==> i == 0) && (events[i].TurnFinished? ==> i == |events| - 1)
  }
}

/** The Gateway's NDJSON reply read from chunks of any size (apps/web/src/lib/gateway-stream.ts). */
module GatewayStream {
  import opened Wrappers
  import opened ChatEvents

  const MAX_LINE: nat := 1_000_000

  type JsonParse = string -> Option<Json>

  datatype Fault = Invalid | OutOfOrder | EndedEarly

  /** What a reader of the stream gets: the events, and then the end or an error. */
  datatype Outcome = Outcome(events: seq<Event>, fault: Option<Fault>)

  // ---------------------------------------------------------------- text

  /** The first newline, or the length of a text that has none. */
  function Newline(s: string): (k: nat)
    ensures k <= |s|
    ensures forall i | 0 <= i < k :: s[i] != '\n'
    ensures k < |s| ==> s[k] == '\n'
  {
    if s == "" || s[0] == '\n' then 0 else 1 + Newline(s[1..])
  }

  /** The characters `String.prototype.trim` removes. */
  predicate Space(c: char) {
    c in "\t\n\U{b}\U{c}\r \U{a0}\U{1680}\U{2028}\U{2029}\U{202f}\U{205f}\U{3000}\U{feff}" || '\U{2000}' <= c <= '\U{200a}'
  }

  function TrimStart(s: string): string {
    if s != "" && Space(s[0]) then TrimStart(s[1..]) else s
  }

  function TrimEnd(s: string): string {
    if s != "" && Space(s[|s| - 1]) then TrimEnd(s[..|s| - 1]) else s
  }

  function Trim(s: string): string {
    TrimEnd(TrimStart(s))
  }

  ghost predicate Blank(s: string) {
    forall c | c in s :: Space(c)
  }

  lemma {:induction false} TrimStartSays(s: string) returns (before: string)
    ensures s == before + TrimStart(s) && Blank(before)
    ensures TrimStart(s) != "" ==> !Space(TrimStart(s)[0])
    decreases |s|
  {
    hide Space;
    before := "";
    if s != "" && Space(s[0]) {
      var rest := TrimStartSays(s[1..]);
      before := [s[0]] + rest;
      assert s == [s[0]] + s[1..];
    }
  }

  lemma {:induction false} TrimEndSays(s: string) returns (after: string)
    ensures s == TrimEnd(s) + after && Blank(after)
    ensures TrimEnd(s) != "" ==> !Space(TrimEnd(s)[|TrimEnd(s)| - 1])
    decreases |s|
  {
    hide Space;
    after := "";
    if s != "" && Space(s[|s| - 1]) {
      var rest := TrimEndSays(s[..|s| - 1]);
      after := rest + [s[|s| - 1]];
      assert s == s[..|s| - 1] + [s[|s| - 1]];
    }
  }

  /** Trimming takes the blanks at both ends and nothing else. */
  lemma {:induction false} TrimSays(s: string)
    ensures exists before, after :: s == before + Trim(s) + after && Blank(before) && Blank(after)
    ensures Trim(s) != "" ==> !Space(Trim(s)[0]) && !Space(Trim(s)[|Trim(s)| - 1])
  {
    hide Space, TrimStart, TrimEnd;
    var before := TrimStartSays(s);
    var after := TrimEndSays(TrimStart(s));
    assert s == before + Trim(s) + after;
  }

  function StripReturn(s: string): string {
    if s != "" && s[|s| - 1] == '\r' then s[..|s| - 1] else s
  }

  function Concat(chunks: seq<string>): string {
    if chunks == [] then "" else chunks[0] + Concat(chunks[1..])
  }

  // ---------------------------------------------------------------- the whole text at once

  function Decode(json: JsonParse, line: string): Option<Event> {
    if |line| > MAX_LINE || json(line) == None then None else ParseEvent(json(line).value)
  }

  function ParseLine(json: JsonParse, before: seq<Event>, line: string): Result<Event, Fault> {
    match Decode(json, line)
    case None => Failure(Invalid)
    case Some(e) => if Follows(before, e) then Success(e) else Failure(OutOfOrder)
  }

  function Finish(events: seq<Event>): Outcome {
    Outcome(events, if events != [] && events[|events| - 1].TurnFinished? then None else Some(EndedEarly))
  }

  function Last(json: JsonParse, events: seq<Event>, text: string): Outcome {
    if Trim(text) == "" then Finish(events)
    else
      match ParseLine(json, events, Trim(text))
      case Failure(f) => Outcome(events, Some(f))
      case Success(e) => Finish(events + [e])
  }

  /** The reply read from the whole text: its lines in turn, then what is left after the last newline. */
  function Whole(json: JsonParse, events: seq<Event>, text: string): Outcome
    decreases |text|
  {
    var k := Newline(text);
    if k == |text| then Last(json, events, text)
    else
      var (line, rest) := (StripReturn(text[..k]), text[k + 1..]);
      if line == "" then Whole(json, events, rest)
      else
        match ParseLine(json, events, line)
        case Failure(f) => Outcome(events, Some(f))
        case Success(e) => Whole(json, events + [e], rest)
  }

  // ---------------------------------------------------------------- chunk by chunk

  datatype Drained = Stuck(outcome: Outcome) | Drained(events: seq<Event>, rest: string)

  /** The lines the buffer holds, taken out of it one by one. */
  function Drain(json: JsonParse, events: seq<Event>, buffer: string): Drained
    decreases |buffer|
  {
    var k := Newline(buffer);
    if k == |buffer| then Drained(events, buffer)
    else
      var (line, rest) := (StripReturn(buffer[..k]), buffer[k + 1..]);
      if line == "" then Drain(json, events, rest)
      else
        match ParseLine(json, events, line)
        case Failure(f) => Stuck(Outcome(events, Some(f)))
        case Success(e) => Drain(json, events + [e], rest)
  }

  /** A buffer this long with no newline in it is refused before its line is complete. */
  predicate Overflows(buffer: string) {
    |buffer| > MAX_LINE && Newline(buffer) == |buffer|
  }

  function Chunked(json: JsonParse, events: seq<Event>, buffer: string, chunks: seq<string>): Outcome
    decreases |chunks|
  {
    if chunks == [] then Last(json, events, buffer)
    else
      var b := buffer + chunks[0];
      if Overflows(b) then Outcome(events, Some(Invalid))
      else
        match Drain(json, events, b)
        case Stuck(o) => o
        case Drained(events', rest) => Chunked(json, events', rest, chunks[1..])
  }

  /** `parseGatewayChatStream`: `events` are what it yields, `fault` what it then throws. */
  method ParseGatewayChatStream(json: JsonParse, chunks: seq<string>) returns (events: seq<Event>, fault: Option<Fault>)
    ensures Outcome(events, fault) == Chunked(json, [], "", chunks)
  {
    hide Decode, StripReturn, Trim, Concat, Newline;
    var buffer, expected, terminal := "", 0, false;
    events := [];
    var n := 0;
    while n < |chunks|
      invariant n <= |chunks|
      invariant expected == |events| && (terminal <==> events != [] && events[|events| - 1].TurnFinished?)
      invariant Chunked(json, events, buffer, chunks[n..]) == Chunked(json, [], "", chunks)
    {
      assert chunks[n..][1..] == chunks[n + 1..];
      buffer := buffer + chunks[n];
      n := n + 1;
      if |buffer| > MAX_LINE && Newline(buffer) == |buffer| {
        return events, Some(Invalid);
      }
      ghost var (start, whole) := (events, buffer);
      var newline := Newline(buffer);
      while newline < |buffer|
        invariant newline == Newline(buffer)
        invariant expected == |events| && (terminal <==> events != [] && events[|events| - 1].TurnFinished?)
        invariant Drain(json, events, buffer) == Drain(json, start, whole)
        decreases |buffer|
      {
        var line := StripReturn(buffer[..newline]);
        buffer := buffer[newline + 1..];
        if line != "" {
          var event := Decode(json, line);
          if event == None {
            return events, Some(Invalid);
          }
          if terminal || event.value.seqNo != expected || (expected == 0) != event.value.TurnStarted? {
            return events, Some(OutOfOrder);
          }
          expected := expected + 1;
          terminal := event.value.TurnFinished?;
          events := events + [event.value];
        }
        newline := Newline(buffer);
      }
    }
    assert chunks[n..] == [];
    if Trim(buffer) != "" {
      var event := Decode(json, Trim(buffer));
      if event == None {
        return events, Some(Invalid);
      }
      if terminal || event.value.seqNo != expected || (expected == 0) != event.value.TurnStarted? {
        return events, Some(OutOfOrder);
      }
      terminal := event.value.TurnFinished?;
      events := events + [event.value];
    }
    fault := if terminal then None else Some(EndedEarly);
  }

  // ---------------------------------------------------------------- the cutting does not matter

  /**
   * What the reader refuses of a raw line or remainder over the limit is refused for itself, whether or not its
   * length is noticed before it is complete.
   */
  predicate Steady(json: JsonParse, events: seq<Event>, text: string)
    decreases |text|
  {
    var k := Newline(text);
    if k == |text| then |text| > MAX_LINE ==> Last(json, events, text) == Outcome(events, Some(Invalid))
    else
      var (line, rest) := (StripReturn(text[..k]), text[k + 1..]);
      && (k > MAX_LINE ==> ParseLine(json, events, line) == Failure(Invalid))
      && if line == "" then Steady(json, events, rest)
         else
           match ParseLine(json, events, line)
           case Failure(_) => true
           case Success(e) => Steady(json, events + [e], rest)
  }

  /**
   * The same from the text alone: no line one character too long only by its carriage return, and no remainder too
   * long only by the blanks around it. Every text whose raw lines keep to the limit is such a text.
   */
  predicate Calm(text: string)
    decreases |text|
  {
    var k := Newline(text);
    if k == |text| then |text| > MAX_LINE ==> |Trim(text)| > MAX_LINE
    else (k > MAX_LINE ==> |StripReturn(text[..k])| > MAX_LINE) && Calm(text[k + 1..])
  }

  lemma {:induction false} CalmIsSteady(json: JsonParse, events: seq<Event>, text: string)
    requires Calm(text)
    ensures Steady(json, events, text)
    decreases |text|
  {
    hide Trim, StripReturn, Newline, Finish, Follows;
    var k := Newline(text);
    if k < |text| {
      var r := ParseLine(json, events, StripReturn(text[..k]));
      CalmIsSteady(json, if r.Success? then events + [r.value] else events, text[k + 1..]);
      CalmIsSteady(json, events, text[k + 1..]);
    }
  }

  lemma NewlineOf(a: string, b: string)
    ensures Newline(a) < |a| ==> Newline(a + b) == Newline(a)
    ensures Newline(a) == |a| ==> Newline(a + b) == |a| + Newline(b)
  {
    var k, m := Newline(a), Newline(a + b);
    if k < |a| {
      assert (a + b)[k] == '\n';
    } else {
      var j := Newline(b);
      assert forall i | 0 <= i < j :: (a + b)[|a| + i] == b[i];
      assert j < |b| ==> (a + b)[|a| + j] == '\n';
      assert m < |a + b| ==> (a + b)[m] == '\n';
    }
  }

  /** Taking the buffer's lines out first changes nothing about what follows. */
  lemma {:induction false} DrainIsWhole(json: JsonParse, events: seq<Event>, buffer: string, more: string)
    ensures match Drain(json, events, buffer)
            case Stuck(o) => Whole(json, events, buffer + more) == o
            case Drained(events', rest) =>
              && Newline(rest) == |rest|
              && Whole(json, events, buffer + more) == Whole(json, events', rest + more)
              && (Steady(json, events, buffer + more) ==> Steady(json, events', rest + more))
    decreases |buffer|
  {
    var k := Newline(buffer);
    NewlineOf(buffer, more);
    if k < |buffer| {
      var rest := buffer[k + 1..];
      assert (buffer + more)[..k] == buffer[..k];
      assert (buffer + more)[k + 1..] == rest + more;
      var line := StripReturn(buffer[..k]);
      if line == "" {
        DrainIsWhole(json, events, rest, more);
      } else {
        var r := ParseLine(json, events, line);
        if r.Success? {
          DrainIsWhole(json, events + [r.value], rest, more);
        }
      }
    }
  }

  /** A buffer refused for its length holds the start of a line the whole text's reading refuses as well. */
  lemma OverflowIsInvalid(json: JsonParse, events: seq<Event>, buffer: string, more: string)
    requires Overflows(buffer) && Steady(json, events, buffer + more)
    ensures Whole(json, events, buffer + more) == Outcome(events, Some(Invalid))
  {
    NewlineOf(buffer, more);
  }

  /** However the text is cut into chunks, the reader gets the same events and the same end or error. */
  lemma {:induction false} CuttingDoesNotMatter(json: JsonParse, events: seq<Event>, buffer: string, chunks: seq<string>)
    requires Newline(buffer) == |buffer| && Steady(json, events, buffer + Concat(chunks))
    ensures Chunked(json, events, buffer, chunks) == Whole(json, events, buffer + Concat(chunks))
    decreases |chunks|
  {
    if chunks == [] {
      assert buffer + Concat(chunks) == buffer;
    } else {
      var (b, more) := (buffer + chunks[0], Concat(chunks[1..]));
      assert buffer + Concat(chunks) == b + more;
      if Overflows(b) {
        OverflowIsInvalid(json, events, b, more);
      } else {
        DrainIsWhole(json, events, b, more);
        var d := Drain(json, events, b);
        if d.Drained? {
          CuttingDoesNotMatter(json, d.events, d.rest, chunks[1..]);
        }
      }
    }
  }

  /** What is read is never taken back. */
  lemma {:induction false} WholeExtends(json: JsonParse, events: seq<Event>, text: string)
    ensures events <= Whole(json, events, text).events
    decreases |text|
  {
    hide ParseLine, StripReturn, Newline, Trim;
    var k := Newline(text);
    if k < |text| {
      var (line, rest) := (StripReturn(text[..k]), text[k + 1..]);
      var r := ParseLine(json, events, line);
      WholeExtends(json, if line != "" && r.Success? then events + [r.value] else events, rest);
    }
  }

  /** A raw line or remainder over the limit that the reading of the whole text would not refuse as invalid. */
  ghost predicate Touchy(json: JsonParse, events: seq<Event>, raw: string, post: string) {
    Overflows(raw) && Whole(json, events, raw + post) != Outcome(events, Some(Invalid))
  }

  /** The first such place of a text that is not steady: all before it is lines read in full. */
  lemma {:induction false} TouchyPlace(json: JsonParse, events: seq<Event>, text: string)
    returns (pre: string, raw: string, post: string, events': seq<Event>)
    requires !Steady(json, events, text)
    ensures text == pre + (raw + post) && (pre != "" ==> Newline(pre) < |pre|)
    ensures Drain(json, events, pre) == Drained(events', "") && Touchy(json, events', raw, post)
    ensures pre == "" && post == "" ==> Newline(text) == |text|
    decreases |text|
  {
    hide Decode, Trim, ParseLine, Finish, StripReturn, Last, Steady, Touchy, Drain;
    var k := Newline(text);
    if k == |text| {
      pre, raw, post, events' := "", text, "", events;
      RemainderIsTouchy(json, events, text);
      NothingToDrain(json, events);
    } else if k > MAX_LINE && ParseLine(json, events, StripReturn(text[..k])) != Failure(Invalid) {
      pre, raw, post, events' := "", text[..k], text[k..], events;
      RawLineIsTouchy(json, events, text);
      NothingToDrain(json, events);
    } else {
      var before := UnsteadyLater(json, events, text);
      pre, raw, post, events' := TouchyPlace(json, before, text[k + 1..]);
      hide Newline;
      DrainOneMore(json, events, text[..k], pre);
      OneMoreLine(text[..k], text[k + 1..], pre, raw, post);
      pre := text[..k] + ("\n" + pre);
    }
  }

  lemma OneMoreLine(line: string, rest: string, pre: string, raw: string, post: string)
    requires rest == pre + (raw + post)
    ensures line + ("\n" + rest) == line + ("\n" + pre) + (raw + post)
  {
  }

  lemma {:induction false} UnsteadyLater(json: JsonParse, events: seq<Event>, text: string) returns (before: seq<Event>)
    requires !Steady(json, events, text)
    requires var k := Newline(text); k < |text| && (k > MAX_LINE ==> ParseLine(json, events, StripReturn(text[..k])) == Failure(Invalid))
    ensures var (k, line) := (Newline(text), StripReturn(text[..Newline(text)]));
            && Newline(text[..k]) == k
            && (line == "" || ParseLine(json, events, line).Success?)
            && before == (if line == "" then events else events + [ParseLine(json, events, line).value])
            && !Steady(json, before, text[k + 1..])
            && text == text[..k] + ("\n" + text[k + 1..])
  {
    hide ParseLine, StripReturn;
    var line := StripReturn(text[..Newline(text)]);
    before := if line == "" then events else events + [ParseLine(json, events, line).value];
  }

  lemma {:induction false} RemainderIsTouchy(json: JsonParse, events: seq<Event>, text: string)
    requires Newline(text) == |text| && !Steady(json, events, text)
    ensures text == "" + (text + "") && Touchy(json, events, text, "")
  {
    hide Last, ParseLine;
    assert text + "" == text;
  }

  lemma {:induction false} RawLineIsTouchy(json: JsonParse, events: seq<Event>, text: string)
    requires var k := Newline(text); MAX_LINE < k < |text| && ParseLine(json, events, StripReturn(text[..k])) != Failure(Invalid)
    ensures var k := Newline(text); text[..k] + text[k..] == text && Touchy(json, events, text[..k], text[k..])
  {
    hide ParseLine, Last;
    var k := Newline(text);
    var (raw, rest) := (text[..k], text[k + 1..]);
    assert raw + text[k..] == text && Newline(raw) == |raw|;
    var r := ParseLine(json, events, StripReturn(raw));
    if r.Success? {
      WholeExtends(json, events + [r.value], rest);
    }
  }

  lemma {:induction false} DrainOneMore(json: JsonParse, events: seq<Event>, raw: string, pre: string)
    requires Newline(raw) == |raw|
    ensures var (line, all) := (StripReturn(raw), raw + ("\n" + pre));
            && Newline(all) == |raw|
            && (line == "" ==> Drain(json, events, all) == Drain(json, events, pre))
            && (line != "" && ParseLine(json, events, line).Success? ==>
                  Drain(json, events, all) == Drain(json, events + [ParseLine(json, events, line).value], pre))
  {
    hide ParseLine, StripReturn;
    var all := raw + ("\n" + pre);
    NewlineOf(raw, "\n" + pre);
    assert ("\n" + pre)[0] == '\n';
    assert all[..|raw|] == raw && all[|raw| + 1..] == pre;
  }

  /** A chunk that ends inside such a place makes the reader refuse it. */
  lemma {:induction false} CutThere(json: JsonParse, text: string) returns (chunks: seq<string>)
    requires !Steady(json, [], text) && Newline(text) < |text|
    ensures Concat(chunks) == text && Chunked(json, [], "", chunks) != Whole(json, [], text)
  {
    hide Decode, Trim, ParseLine, StripReturn, Last, Steady, Newline;
    var pre, raw, post, events := TouchyPlace(json, [], text);
    DrainIsWhole(json, [], pre, raw + post);
    assert "" + (raw + post) == raw + post;
    RefusedThere(json, events, raw, post);
    if pre == "" {
      chunks := [raw, post];
      assert pre + (raw + post) == raw + post;
      NothingToDrain(json, []);
    } else {
      chunks := [pre, raw, post];
      assert "" + pre == pre && chunks[1..] == [raw, post];
    }
    ConcatTwo(raw, post);
  }

  lemma NothingToDrain(json: JsonParse, events: seq<Event>)
    ensures Drain(json, events, "") == Drained(events, "")
  {
  }

  lemma ConcatTwo(a: string, b: string)
    ensures Concat([a, b]) == a + b
  {
    assert [a, b][1..] == [b] && [b][1..] == [];
    assert Concat([b]) == b + Concat([]) && b + "" == b;
  }

  lemma RefusedThere(json: JsonParse, events: seq<Event>, raw: string, post: string)
    requires Overflows(raw)
    ensures Chunked(json, events, "", [raw, post]) == Outcome(events, Some(Invalid))
  {
    assert "" + raw == raw;
  }

  /** A text without a newline is one growing buffer, refused as soon as it is too long. */
  lemma {:induction false} NoNewlineOneOutcome(json: JsonParse, buffer: string, chunks: seq<string>)
    requires var text := buffer + Concat(chunks); Newline(text) == |text|
    requires |buffer| > MAX_LINE ==> chunks != []
    ensures var text := buffer + Concat(chunks);
            Chunked(json, [], buffer, chunks) == if |text| > MAX_LINE then Outcome([], Some(Invalid)) else Last(json, [], text)
    decreases |chunks|
  {
    hide Last, StripReturn;
    if chunks == [] {
      assert buffer + Concat(chunks) == buffer;
    } else {
      var (b, more) := (buffer + chunks[0], Concat(chunks[1..]));
      assert buffer + Concat(chunks) == b + more;
      NewlineOf(b, more);
      if |b| <= MAX_LINE {
        NoNewlineOneOutcome(json, b, chunks[1..]);
      }
    }
  }

  /** Every way of cutting the text gives one outcome. */
  ghost predicate CutsAgree(json: JsonParse, text: string) {
    forall chunks, others | Concat(chunks) == text && Concat(others) == text ::
      Chunked(json, [], "", chunks) == Chunked(json, [], "", others)
  }

  /** Exactly when the cutting does not matter: the text has no newline, or it is steady. */
  lemma {:induction false} CutsAgreeIff(json: JsonParse, text: string)
    ensures CutsAgree(json, text) <==> Newline(text) == |text| || Steady(json, [], text)
  {
    hide Steady, Chunked, Newline, Last;
    if Newline(text) == |text| {
      forall chunks, others | Concat(chunks) == text && Concat(others) == text
        ensures Chunked(json, [], "", chunks) == Chunked(json, [], "", others)
      {
        assert "" + text == text;
        NoNewlineOneOutcome(json, "", chunks);
        NoNewlineOneOutcome(json, "", others);
      }
    } else if Steady(json, [], text) {
      forall chunks, others | Concat(chunks) == text && Concat(others) == text
        ensures Chunked(json, [], "", chunks) == Chunked(json, [], "", others)
      {
        assert "" + text == text;
        CuttingDoesNotMatter(json, [], "", chunks);
        CuttingDoesNotMatter(json, [], "", others);
      }
    } else {
      var chunks := CutThere(json, text);
      OneChunkIsWhole(json, text);
      assert [text][1..] == [] && text + "" == text;
      assert Concat([text]) == text;
    }
  }

  /** The condition a reader of the text alone can check. */
  lemma SameTextSameOutcome(json: JsonParse, chunks: seq<string>, others: seq<string>)
    requires Concat(chunks) == Concat(others) && Calm(Concat(chunks))
    ensures Chunked(json, [], "", chunks) == Chunked(json, [], "", others)
  {
    hide Calm, Steady;
    CalmIsSteady(json, [], Concat(chunks));
    CutsAgreeIff(json, Concat(chunks));
  }

  /** Raw lines within the limit, which is all a caller need check. */
  predicate LinesWithin(text: string)
    decreases |text|
  {
    var k := Newline(text);
    k <= MAX_LINE && (k < |text| ==> LinesWithin(text[k + 1..]))
  }

  lemma {:induction false} ShortLinesAreCalm(text: string)
    requires LinesWithin(text)
    ensures Calm(text)
    decreases |text|
  {
    if Newline(text) < |text| {
      ShortLinesAreCalm(text[Newline(text) + 1..]);
    }
  }

  /** A single chunk is never refused for its length when its first line is complete. */
  lemma OneChunkIsWhole(json: JsonParse, text: string)
    requires Newline(text) < |text|
    ensures Chunked(json, [], "", [text]) == Whole(json, [], text)
  {
    hide Decode, Trim, Last, StripReturn;
    assert "" + text == text && text + "" == text && [text][1..] == [];
    DrainIsWhole(json, [], text, "");
    var d := Drain(json, [], text);
    assert d.Drained? ==> d.rest + "" == d.rest;
  }

  /**
   * Without that the cutting does matter: a line that is too long only by its carriage return passes whole, and is
   * refused when a chunk ends just before its newline.
   */
  lemma LongLineDependsOnTheCut(json: JsonParse, line: string, e: Event, rest: string)
    requires |line| == MAX_LINE && Newline(line) == |line|
    requires Decode(json, line) == Some(e) && Follows([], e)
    ensures Chunked(json, [], "", [line + "\r", "\n" + rest]) == Outcome([], Some(Invalid))
    ensures Chunked(json, [], "", [line + "\r\n" + rest]) == Whole(json, [e], rest)
  {
    hide Decode, Trim, Last, Newline, Drain;
    var (raw, whole) := (line + "\r", line + "\r\n" + rest);
    assert forall i | 0 <= i < |raw| :: raw[i] != '\n';
    assert Newline(raw) == |raw|;
    assert "" + raw == raw && whole == raw + ("\n" + rest);
    NewlineOf(raw, "\n" + rest);
    assert ("\n" + rest)[0] == '\n';
    OneChunkIsWhole(json, whole);
    assert whole[..|raw|] == raw && whole[|raw| + 1..] == rest && StripReturn(raw) == line;
    assert ParseLine(json, [], line) == Success(e) && [] + [e] == [e];
  }

  /**
   * A last line that is too long only by the blanks around it passes when it comes in one chunk with the line before
   * it, and is refused in a chunk of its own.
   */
  lemma {:induction false} LongRemainderDependsOnTheCut(json: JsonParse, line: string, e: Event, last: string, f: Event)
    requires line != "" && Newline(line) == |line| && StripReturn(line) == line
    requires Decode(json, line) == Some(e) && Follows([], e)
    requires Overflows(last) && Decode(json, Trim(last)) == Some(f) && Follows([e], f) && f.TurnFinished? && Trim(last) != ""
    ensures Chunked(json, [], "", [line + "\n" + last]) == Outcome([e, f], None)
    ensures Chunked(json, [], "", [line + "\n", last]) == Outcome([e], Some(Invalid))
  {
    hide Decode, Trim, Newline, Drain, StripReturn;
    var (text, first) := (line + ("\n" + last), line + ("\n" + ""));
    assert text == line + "\n" + last && first == line + "\n";
    assert ParseLine(json, [], line) == Success(e) && [] + [e] == [e];
    DrainOneMore(json, [], line, "");
    DrainOneMore(json, [], line, last);
    NothingToDrain(json, [e]);
    assert text[..|line|] == line && text[|line| + 1..] == last;
    OneChunkIsWhole(json, text);
    assert [e] + [f] == [e, f];
    assert "" + first == first && "" + last == last && [first, last][1..] == [last];
  }

  // ---------------------------------------------------------------- what is accepted

  /** The texts read as events: each line that is not empty, then what is left if it is not blank. */
  function Messages(text: string): seq<string>
    decreases |text|
  {
    var k := Newline(text);
    if k == |text| then (if Trim(text) == "" then [] else [Trim(text)])
    else (if StripReturn(text[..k]) == "" then [] else [StripReturn(text[..k])]) + Messages(text[k + 1..])
  }

  function DecodeAll(json: JsonParse, messages: seq<string>): Option<seq<Event>> {
    if messages == [] then Some([])
    else
      match (Decode(json, messages[0]), DecodeAll(json, messages[1..]))
      case (Some(e), Some(rest)) => Some([e] + rest)
      case _ => None
  }

  ghost predicate Accepts(json: JsonParse, before: seq<Event>, messages: seq<string>) {
    DecodeAll(json, messages).Some? && InOrder(before + DecodeAll(json, messages).value)
  }

  /** An event that may not follow what came before cannot start the rest of a reply in order. */
  lemma OrderIsStepwise(before: seq<Event>, e: Event, rest: seq<Event>)
    requires SoFar(before)
    ensures Follows(before, e) ==> SoFar(before + [e])
    ensures InOrder(before + ([e] + rest)) ==> Follows(before, e)
  {
    var all := before + ([e] + rest);
    assert all[|before|] == e;
    if before != [] {
      assert all[|before| - 1] == before[|before| - 1];
    }
  }

  lemma AcceptsStepwise(json: JsonParse, before: seq<Event>, line: string, rest: seq<string>)
    requires SoFar(before)
    ensures ParseLine(json, before, line).Failure? ==> !Accepts(json, before, [line] + rest)
    ensures ParseLine(json, before, line).Success? ==>
              var after := before + [ParseLine(json, before, line).value];
              && SoFar(after)
              && (Accepts(json, before, [line] + rest) <==> Accepts(json, after, rest))
              && (Accepts(json, after, rest) ==>
                    before + DecodeAll(json, [line] + rest).value == after + DecodeAll(json, rest).value)
  {
    hide Decode, Follows, SoFar, InOrder;
    assert ([line] + rest)[1..] == rest;
    var (e, tail) := (Decode(json, line), DecodeAll(json, rest));
    if e.Some? {
      OrderIsStepwise(before, e.value, if tail.Some? then tail.value else []);
      assert tail.Some? ==> before + ([e.value] + tail.value) == before + [e.value] + tail.value;
    }
  }

  lemma FinishAccepts(json: JsonParse, before: seq<Event>)
    requires SoFar(before)
    ensures Finish(before).fault == None <==> Accepts(json, before, [])
    ensures before + DecodeAll(json, []).value == before
  {
    assert before + [] == before;
  }

  /** The messages read in turn, and then the end of the stream. */
  function Read(json: JsonParse, before: seq<Event>, messages: seq<string>): Outcome
    decreases |messages|
  {
    if messages == [] then Finish(before)
    else
      match ParseLine(json, before, messages[0])
      case Failure(f) => Outcome(before, Some(f))
      case Success(e) => Read(json, before + [e], messages[1..])
  }

  lemma {:induction false} WholeReadsTheMessages(json: JsonParse, before: seq<Event>, text: string)
    ensures Whole(json, before, text) == Read(json, before, Messages(text))
    decreases |text|
  {
    hide Decode, ParseLine, Trim, StripReturn, Newline, Finish;
    var k := Newline(text);
    if k < |text| {
      var (line, rest) := (StripReturn(text[..k]), text[k + 1..]);
      assert line != "" ==> Messages(text)[0] == line && Messages(text)[1..] == Messages(rest);
      var r := ParseLine(json, before, line);
      WholeReadsTheMessages(json, if line == "" || r.Failure? then before else before + [r.value], rest);
      assert [] + Messages(rest) == Messages(rest);
    }
  }

  lemma {:induction false} ReadAccepts(json: JsonParse, before: seq<Event>, messages: seq<string>)
    requires SoFar(before)
    ensures var o := Read(json, before, messages);
            && SoFar(o.events)
            && (o.fault == None <==> Accepts(json, before, messages))
            && (o.fault == None ==> o.events == before + DecodeAll(json, messages).value)
    decreases |messages|
  {
    hide Decode, ParseLine, SoFar;
    if messages == [] {
      FinishAccepts(json, before);
    } else {
      hide Accepts, DecodeAll, Finish;
      AcceptsStepwise(json, before, messages[0], messages[1..]);
      assert [messages[0]] + messages[1..] == messages;
      var r := ParseLine(json, before, messages[0]);
      if r.Success? {
        ReadAccepts(json, before + [r.value], messages[1..]);
      }
    }
  }

  /**
   * A stream is read to its end exactly when every message in it is an event and the events are numbered from 0,
   * with `turn.started` exactly first and `turn.finished` exactly last; then exactly those events are yielded.
   * A stream that breaks off has yielded only the start of such a reply.
   */
  lemma AcceptedIffInOrder(json: JsonParse, chunks: seq<string>)
    requires Steady(json, [], Concat(chunks))
    ensures var o := Chunked(json, [], "", chunks);
            var events := DecodeAll(json, Messages(Concat(chunks)));
            && (o.fault == None <==> events.Some? && InOrder(events.value))
            && (o.fault == None ==> o.events == events.value)
            && SoFar(o.events)
  {
    assert "" + Concat(chunks) == Concat(chunks);
    CuttingDoesNotMatter(json, [], "", chunks);
    WholeReadsTheMessages(json, [], Concat(chunks));
    ReadAccepts(json, [], Messages(Concat(chunks)));
    var events := DecodeAll(json, Messages(Concat(chunks)));
    assert events.Some? ==> [] + events.value == events.value;
  }

  // ---------------------------------------------------------------- what the Gateway sends

  /** A writer of JSON on one line, and a reader that takes the line back. */
  ghost predicate Prints(json: JsonParse, written: Event -> string, e: Event) {
    var line := written(e);
    && line != "" && Newline(line) == |line| && line[|line| - 1] != '\r'
    && json(line) == Some(Encoded(e))
  }

  /** The Gateway's body for these events: each on its own line. */
  function Sent(written: Event -> string, events: seq<Event>): string {
    if events == [] then "" else written(events[0]) + ("\n" + Sent(written, events[1..]))
  }

  /** How many events come before the first whose line is over the limit. */
  function Fitting(written: Event -> string, events: seq<Event>): (n: nat)
    ensures n <= |events|
    ensures forall i | 0 <= i < n :: |written(events[i])| <= MAX_LINE
    ensures n < |events| ==> |written(events[n])| > MAX_LINE
  {
    if events == [] || |written(events[0])| > MAX_LINE then 0 else 1 + Fitting(written, events[1..])
  }

  lemma OneLine(line: string, rest: string)
    requires line != "" && Newline(line) == |line| && line[|line| - 1] != '\r'
    ensures var text := line + ("\n" + rest);
            Newline(text) == |line| && text[..|line|] == line && text[|line| + 1..] == rest && StripReturn(line) == line
  {
    NewlineOf(line, "\n" + rest);
    assert ("\n" + rest)[0] == '\n';
  }

  /** No carriage return and no remainder: every body the Gateway sends is calm, whatever the length of its lines. */
  lemma {:induction false} SentIsCalm(json: JsonParse, written: Event -> string, events: seq<Event>)
    requires forall e | e in events :: Prints(json, written, e)
    ensures Calm(Sent(written, events))
    decreases |events|
  {
    if events != [] {
      hide Newline, StripReturn;
      assert events[0] in events && forall e | e in events[1..] :: e in events;
      SentIsCalm(json, written, events[1..]);
      OneLine(written(events[0]), Sent(written, events[1..]));
    }
  }

  lemma PrintedDecodes(json: JsonParse, written: Event -> string, e: Event)
    requires Prints(json, written, e)
    ensures Decode(json, written(e)) == if |written(e)| <= MAX_LINE then Some(e) else None
  {
    EncodedParsesBack(e);
  }

  /** What the reader makes of a reply: the events before the first long line, and then the end or the refusal. */
  function ReadBack(written: Event -> string, events: seq<Event>): Outcome {
    var n := Fitting(written, events);
    Outcome(events[..n], if n == |events| then None else Some(Invalid))
  }

  lemma {:induction false} WholeOfSent(json: JsonParse, written: Event -> string, before: seq<Event>, events: seq<Event>)
    requires SoFar(before) && InOrder(before + events)
    requires forall e | e in events :: Prints(json, written, e)
    ensures var o := ReadBack(written, events);
            Whole(json, before, Sent(written, events)) == Outcome(before + o.events, o.fault)
    decreases |events|
  {
    hide Decode, Newline, StripReturn, Trim, Follows, SoFar, Whole, Prints;
    if events == [] {
      assert before + events == before && before + [] == before;
      NothingLeft(json, before);
    } else {
      hide InOrder;
      var (e, rest) := (events[0], events[1..]);
      assert Prints(json, written, e) && forall f | f in rest :: f in events;
      assert events == [e] + rest;
      OrderIsStepwise(before, e, rest);
      WholeOfSentLine(json, written, before, events);
      hide Sent, ReadBack;
      ReadBackStep(written, before, events);
      if |written(e)| <= MAX_LINE {
        WholeOfSent(json, written, before + [e], rest);
      }
    }
  }

  lemma {:induction false} WholeOfSentLine(json: JsonParse, written: Event -> string, before: seq<Event>, events: seq<Event>)
    requires events != [] && Prints(json, written, events[0]) && Follows(before, events[0])
    ensures Whole(json, before, Sent(written, events)) ==
            if |written(events[0])| <= MAX_LINE then Whole(json, before + [events[0]], Sent(written, events[1..]))
            else Outcome(before, Some(Invalid))
  {
    hide Decode, Newline, StripReturn, Follows, Last;
    var (line, rest) := (written(events[0]), Sent(written, events[1..]));
    PrintedDecodes(json, written, events[0]);
    OneLine(line, rest);
    assert line != "" && Sent(written, events) == line + ("\n" + rest);
  }

  lemma {:induction false} ReadBackStep(written: Event -> string, before: seq<Event>, events: seq<Event>)
    requires events != []
    ensures before + [events[0]] + events[1..] == before + events
    ensures var (o, o') := (ReadBack(written, events), ReadBack(written, events[1..]));
            if |written(events[0])| <= MAX_LINE then
              o.fault == o'.fault && before + o.events == before + [events[0]] + o'.events
            else
              o.fault == Some(Invalid) && before + o.events == before
  {
    var n := Fitting(written, events[1..]);
    assert before + [events[0]] + events[1..][..n] == before + events[..n + 1];
    assert before + events[..0] == before;
  }

  lemma NothingLeft(json: JsonParse, events: seq<Event>)
    ensures Whole(json, events, "") == Finish(events)
  {
  }

  /**
   * A whole reply the Gateway sends is read back as it was, however it arrives, if and only if no line of it is over
   * the limit; otherwise exactly the events before the first such line are read, and that line is refused.
   */
  lemma {:induction false} SentIsReadBack(json: JsonParse, written: Event -> string, events: seq<Event>, chunks: seq<string>)
    requires InOrder(events) && Concat(chunks) == Sent(written, events)
    requires forall e | e in events :: Prints(json, written, e)
    ensures Chunked(json, [], "", chunks) == ReadBack(written, events)
    ensures Chunked(json, [], "", chunks) == Outcome(events, None) <==> forall e | e in events :: |written(e)| <= MAX_LINE
  {
    hide Calm, Steady, Chunked, InOrder, Prints, Sent, Whole;
    SentIsCalm(json, written, events);
    CalmIsSteady(json, [], Concat(chunks));
    assert "" + Concat(chunks) == Concat(chunks) && [] + events == events;
    CuttingDoesNotMatter(json, [], "", chunks);
    WholeOfSent(json, written, [], events);
    var n := Fitting(written, events);
    assert [] + events[..n] == events[..n] && (n == |events| ==> events[..n] == events);
    assert n < |events| ==> events[n] in events;
  }
}
