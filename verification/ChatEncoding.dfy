/** The reply's events written again as the browser's message parts (apps/web/src/lib/chat-ai-stream.ts). */
module ChatEncoding {
  import opened Wrappers
  import opened ChatEvents
  import G = GatewayStream

  datatype CallStatus = Running | Done | Broken

  datatype Part =
    | Start(messageId: string)
    | Turn(chatId: string, turnId: string)
    | TextStart(id: string)
    | TextPiece(id: string, delta: string)
    | TextEnd(id: string)
    | Tool(callId: string, tool: string, call: CallStatus, summary: Option<string>)
    | Terminal(status: Status, error: Option<string>)
    | Finish
    | Abort
    | Error(message: string)

  // ---------------------------------------------------------------- the pieces

  function ToolSummary(args: Option<Json>): Option<string> {
    if args == None || !args.value.Object? then None
    else
      var (command, path) := (GetText(args.value.fields, "command"), GetText(args.value.fields, "path"));
      if command.Some? && G.Trim(command.value) != "" then
        var line := G.Trim(command.value);
        Some(line[..G.Newline(line)])
      else if path.Some? && G.Trim(path.value) != "" then Some(G.Trim(path.value))
      else None
  }

  /**
   * The one argument worth a glance: the first line of a command that is not blank, and otherwise a path that is not
   * blank, without the blanks around them; there is no other summary, and never an empty one.
   */
  lemma {:induction false} SummarySays(args: Option<Json>)
    ensures ToolSummary(args) != Some("")
    ensures ToolSummary(args).Some? ==>
              && args.Some? && args.value.Object?
              && var (f, summary) := (args.value.fields, ToolSummary(args).value);
              if "command" in f && f["command"].Text? && G.Trim(f["command"].text) != "" then
                var whole := G.Trim(f["command"].text);
                && summary <= whole && '\n' !in summary && (summary == whole || whole[|summary|] == '\n')
              else "path" in f && f["path"].Text? && summary == G.Trim(f["path"].text)
    ensures args.Some? && args.value.Object? && ToolSummary(args) == None ==>
              forall key | key == "command" || key == "path" ::
                key in args.value.fields && args.value.fields[key].Text? ==> G.Trim(args.value.fields[key].text) == ""
  {
    hide G.Trim;
    if args.Some? && args.value.Object? {
      var command := GetText(args.value.fields, "command");
      if command.Some? {
        G.TrimSays(command.value);
        assert G.Space('\n');
      }
    }
  }

  function ToolData(callId: string, tool: string, call: CallStatus, args: Option<Json>): Part {
    var summary := ToolSummary(args);
    Tool(callId, tool, call, if summary == Some("") then None else summary)
  }

  /** A tool part carries that summary. */
  lemma ToolDataSays(callId: string, tool: string, call: CallStatus, args: Option<Json>)
    ensures ToolData(callId, tool, call, args) == Tool(callId, tool, call, ToolSummary(args))
  {
    SummarySays(args);
  }

  const DIGITS := "0123456789"

  function Decimal(n: nat): string {
    (if n < 10 then "" else Decimal(n / 10)) + [DIGITS[n % 10]]
  }

  function TextId(messageId: string, n: nat): string {
    messageId + "-text-" + Decimal(n)
  }

  function Closing(status: Status, error: Option<string>): seq<Part> {
    [Terminal(status, if error == Some("") then None else error),
     match status
     case Completed => Finish
     case Cancelled => Abort
     case Failed => Error(if error == None then "The reply did not finish." else error.value)]
  }

  // ---------------------------------------------------------------- the writer's state

  datatype Writer = Writer(messageId: string, open: Option<string>, parts: nat,
                           tools: map<string, string>, args: map<string, Option<Json>>, terminal: bool)

  const Fresh := Writer("assistant", None, 0, map[], map[], false)

  function EndText(open: Option<string>): seq<Part> {
    if open == None then [] else [TextEnd(open.value)]
  }

  function After(w: Writer, e: Event): Writer {
    match e
    case TurnStarted(_, _, turnId) => w.(messageId := turnId + "-assistant")
    case TextDelta(_, _) =>
      if w.open == None then w.(open := Some(TextId(w.messageId, w.parts)), parts := w.parts + 1) else w
    case ToolStarted(_, callId, name, args) => w.(open := None, tools := w.tools[callId := name], args := w.args[callId := args])
    case ToolFinished(_, _, _) => w
    case TurnFinished(_, _, _) => w.(open := None, terminal := true)
  }

  function Written(w: Writer, e: Event): seq<Part> {
    match e
    case TurnStarted(_, chatId, turnId) => [Start(turnId + "-assistant"), Turn(chatId, turnId)]
    case TextDelta(_, delta) =>
      var id := if w.open == None then TextId(w.messageId, w.parts) else w.open.value;
      (if w.open == None then [TextStart(id)] else []) + [TextPiece(id, delta)]
    case ToolStarted(_, callId, name, args) => EndText(w.open) + [ToolData(callId, name, Running, args)]
    case ToolFinished(_, callId, isError) =>
      [ToolData(callId, if callId in w.tools then w.tools[callId] else "tool", if isError then Broken else Done,
                if callId in w.args then w.args[callId] else None)]
    case TurnFinished(_, status, error) => EndText(w.open) + Closing(status, error)
  }

  function AllWritten(w: Writer, events: seq<Event>): seq<Part>
    decreases |events|
  {
    if events == [] then [] else Written(w, events[0]) + AllWritten(After(w, events[0]), events[1..])
  }

  function AfterAll(w: Writer, events: seq<Event>): Writer
    decreases |events|
  {
    if events == [] then w else AfterAll(After(w, events[0]), events[1..])
  }

  lemma Unrolled(w: Writer, events: seq<Event>, i: nat, out: seq<Part>)
    requires i < |events|
    ensures out + AllWritten(w, events[i..]) == out + Written(w, events[i]) + AllWritten(After(w, events[i]), events[i + 1..])
    ensures AfterAll(w, events[i..]) == AfterAll(After(w, events[i]), events[i + 1..])
  {
    assert events[i..][1..] == events[i + 1..];
  }

  /** `writeChatEvents`: what it writes, and whether it ends without throwing. */
  method WriteChatEvents(events: seq<Event>) returns (out: seq<Part>, finished: bool)
    ensures out == AllWritten(Fresh, events)
    ensures finished == AfterAll(Fresh, events).terminal
  {
    hide ToolData, TextId, Closing, EndText, AllWritten, AfterAll;
    var messageId, textPartId: Option<string>, parts, terminal := "assistant", None, 0, false;
    var tools: map<string, string>, args: map<string, Option<Json>> := map[], map[];
    out := [];
    var i := 0;
    ghost var w := Fresh;
    assert events[0..] == events;
    while i < |events|
      invariant i <= |events| && w == Writer(messageId, textPartId, parts, tools, args, terminal)
      invariant out + AllWritten(w, events[i..]) == AllWritten(Fresh, events)
      invariant AfterAll(w, events[i..]) == AfterAll(Fresh, events)
    {
      Unrolled(w, events, i, out);
      ghost var was := out;
      var event := events[i];
      match event {
        case TurnStarted(_, chatId, turnId) =>
          messageId := turnId + "-assistant";
          out := out + [Start(messageId)];
          out := out + [Turn(chatId, turnId)];
        case TextDelta(_, delta) =>
          if textPartId == None {
            textPartId := Some(TextId(messageId, parts));
            parts := parts + 1;
            out := out + [TextStart(textPartId.value)];
          }
          out := out + [TextPiece(textPartId.value, delta)];
        case ToolStarted(_, callId, name, callArgs) =>
          out := out + EndText(textPartId);
          textPartId := None;
          tools := tools[callId := name];
          args := args[callId := callArgs];
          out := out + [ToolData(callId, name, Running, callArgs)];
        case ToolFinished(_, callId, isError) =>
          var started := if callId in tools then tools[callId] else "tool";
          out := out + [ToolData(callId, started, if isError then Broken else Done, if callId in args then args[callId] else None)];
        case TurnFinished(_, status, error) =>
          out := out + EndText(textPartId);
          textPartId := None;
          out := out + Closing(status, error);
          terminal := true;
      }
      assert out == was + Written(w, event);
      w := After(w, event);
      i := i + 1;
    }
    assert out == AllWritten(Fresh, events) && AfterAll(w, events[i..]) == w by {
      NothingLeft(w);
      assert events[i..] == [];
      assert out + [] == out;
    }
    return out, terminal;
  }

  lemma NothingLeft(w: Writer)
    ensures AllWritten(w, []) == [] && AfterAll(w, []) == w
  {
  }

  /** The writer throws at the end exactly when no `turn.finished` came. */
  lemma {:induction false} FinishedIffTold(w: Writer, events: seq<Event>)
    ensures AfterAll(w, events).terminal <==> w.terminal || exists i | 0 <= i < |events| :: events[i].TurnFinished?
    decreases |events|
  {
    if events != [] {
      var rest := events[1..];
      FinishedIffTold(After(w, events[0]), rest);
      assert forall i | 0 < i < |events| :: events[i] == rest[i - 1];
      assert forall i | 0 <= i < |rest| :: rest[i] == events[i + 1];
    }
  }

  // ---------------------------------------------------------------- brackets

  /**
   * Text parts open and close in turn, each under an id not used before, and every piece of text lies in the part
   * that is open; the reply does not end with one open.
   */
  ghost predicate Bracketed(out: seq<Part>, open: Option<string>, used: set<string>) {
    if out == [] then open == None
    else
      match out[0]
      case TextStart(id) => open == None && id !in used && Bracketed(out[1..], Some(id), used + {id})
      case TextPiece(id, _) => open == Some(id) && Bracketed(out[1..], open, used)
      case TextEnd(id) => open == Some(id) && Bracketed(out[1..], None, used)
      case Tool(_, _, _, _) => Bracketed(out[1..], open, used)
      case _ => open == None && Bracketed(out[1..], open, used)
  }

  lemma {:induction false} DecimalsDiffer(a: nat, b: nat)
    requires Decimal(a) == Decimal(b)
    ensures a == b
  {
    LastDigit(a);
    LastDigit(b);
    assert DIGITS[a % 10] == DIGITS[b % 10] && Leading(a) == Leading(b);
    DigitsDiffer(a % 10, b % 10);
    hide Decimal, DIGITS;
    SomeDigit(a / 10);
    SomeDigit(b / 10);
    if a >= 10 && b >= 10 {
      DecimalsDiffer(a / 10, b / 10);
    }
  }

  /** The decimal without its last digit. */
  function Leading(n: nat): string {
    if n < 10 then "" else Decimal(n / 10)
  }

  lemma LastDigit(n: nat)
    ensures Decimal(n) == Leading(n) + [DIGITS[n % 10]]
    ensures var d := Decimal(n); d[|d| - 1] == DIGITS[n % 10] && d[..|d| - 1] == Leading(n)
  {
  }

  lemma SomeDigit(n: nat)
    ensures Decimal(n) != ""
  {
  }

  lemma DigitsDiffer(i: nat, j: nat)
    requires i < 10 && j < 10 && DIGITS[i] == DIGITS[j]
    ensures i == j
  {
  }

  ghost function UsedIds(messageId: string, n: nat): set<string> {
    set k | 0 <= k < n :: TextId(messageId, k)
  }

  lemma NewIdIsNew(messageId: string, n: nat)
    ensures TextId(messageId, n) !in UsedIds(messageId, n)
    ensures UsedIds(messageId, n + 1) == UsedIds(messageId, n) + {TextId(messageId, n)}
  {
    forall k | 0 <= k < n
      ensures TextId(messageId, k) != TextId(messageId, n)
    {
      var (a, b) := (TextId(messageId, k), TextId(messageId, n));
      if a == b {
        var p := |messageId + "-text-"|;
        assert a[p..] == Decimal(k) && b[p..] == Decimal(n);
        DecimalsDiffer(k, n);
      }
    }
  }

  /** One event's parts take the brackets from the writer's state before it to the state after it. */
  lemma StepBrackets(w: Writer, e: Event, rest: seq<Part>)
    requires !e.TurnStarted?
    requires Bracketed(rest, After(w, e).open, UsedIds(w.messageId, After(w, e).parts))
    ensures Bracketed(Written(w, e) + rest, w.open, UsedIds(w.messageId, w.parts))
  {
    NewIdIsNew(w.messageId, w.parts);
    var out := Written(w, e) + rest;
    assert |Written(w, e)| == 1 ==> out[1..] == rest;
    assert |Written(w, e)| == 2 ==> out[1..][1..] == rest;
    assert |Written(w, e)| == 3 ==> out[1..][1..][1..] == rest;
  }

  lemma {:induction false} AllBracketed(w: Writer, events: seq<Event>)
    requires forall e | e in events :: !e.TurnStarted?
    requires AfterAll(w, events).open == None
    ensures Bracketed(AllWritten(w, events), w.open, UsedIds(w.messageId, w.parts))
    decreases |events|
  {
    if events != [] {
      assert forall e | e in events[1..] :: e in events;
      AllBracketed(After(w, events[0]), events[1..]);
      StepBrackets(w, events[0], AllWritten(After(w, events[0]), events[1..]));
    }
  }

  lemma {:induction false} LastCloses(w: Writer, events: seq<Event>)
    requires events != [] && events[|events| - 1].TurnFinished?
    ensures AfterAll(w, events).open == None
    decreases |events|
  {
    if |events| > 1 {
      LastCloses(After(w, events[0]), events[1..]);
    }
  }

  /** The parts of every whole reply are well bracketed, under ids of its own turn. */
  lemma WellBracketed(events: seq<Event>)
    requires InOrder(events)
    ensures Bracketed(AllWritten(Fresh, events), None, {})
  {
    var (w, rest) := (After(Fresh, events[0]), events[1..]);
    LastCloses(w, rest);
    AllBracketed(w, rest);
    assert UsedIds(w.messageId, w.parts) == {};
    var out := AllWritten(Fresh, events);
    assert out == [out[0], out[1]] + AllWritten(w, rest);
    assert out[1..][1..] == AllWritten(w, rest);
  }

  // ---------------------------------------------------------------- contents

  /** The last call started under this id. */
  function StartedCall(before: seq<Event>, callId: string): Option<Event> {
    if before == [] then None
    else
      var e := before[|before| - 1];
      if e.ToolStarted? && e.callId == callId then Some(e) else StartedCall(before[..|before| - 1], callId)
  }

  /** What a reader should see of one event, in the light of the events before it; the id of a text part aside. */
  function Seen(before: seq<Event>, e: Event): seq<Part> {
    match e
    case TurnStarted(_, chatId, turnId) => [Start(turnId + "-assistant"), Turn(chatId, turnId)]
    case TextDelta(_, delta) => [TextPiece("", delta)]
    case ToolStarted(_, callId, name, args) => [ToolData(callId, name, Running, args)]
    case ToolFinished(_, callId, isError) =>
      var started := StartedCall(before, callId);
      var call := if isError then Broken else Done;
      [if started.Some? && started.value.ToolStarted? then ToolData(callId, started.value.name, call, started.value.args)
       else ToolData(callId, "tool", call, None)]
    case TurnFinished(_, status, error) => Closing(status, error)
  }

  function AllSeen(before: seq<Event>, events: seq<Event>): seq<Part>
    decreases |events|
  {
    if events == [] then [] else Seen(before, events[0]) + AllSeen(before + [events[0]], events[1..])
  }

  /** The parts without their brackets. */
  function Erased(out: seq<Part>): seq<Part> {
    if out == [] then []
    else
      var p := out[0];
      (if p.TextStart? || p.TextEnd? then [] else if p.TextPiece? then [TextPiece("", p.delta)] else [p]) + Erased(out[1..])
  }

  lemma {:induction false} ErasedSplits(a: seq<Part>, b: seq<Part>)
    ensures Erased(a + b) == Erased(a) + Erased(b)
    decreases |a|
  {
    if a == [] {
      assert a + b == b;
    } else {
      assert (a + b)[1..] == a[1..] + b;
      ErasedSplits(a[1..], b);
    }
  }

  /** The two maps hold, for every id, the last call started under it. */
  ghost predicate Remembers(w: Writer, before: seq<Event>) {
    && w.tools.Keys == w.args.Keys
    && forall id ::
         match StartedCall(before, id)
         case Some(ToolStarted(_, _, name, args)) => id in w.tools && w.tools[id] == name && id in w.args && w.args[id] == args
         case _ => id !in w.tools
  }

  lemma StepRemembers(w: Writer, before: seq<Event>, e: Event)
    requires Remembers(w, before)
    ensures Remembers(After(w, e), before + [e])
  {
    hide TextId;
    assert (before + [e])[..|before|] == before;
  }

  /** Two parts that are no brackets stay, and a bracket goes. */
  lemma ErasedPair(p: Part, q: Part)
    ensures Erased([q]) == if q.TextStart? || q.TextEnd? then [] else if q.TextPiece? then [TextPiece("", q.delta)] else [q]
    ensures Erased([p, q]) == Erased([p]) + Erased([q])
  {
    ErasedSplits([p], [q]);
    assert [p] + [q] == [p, q];
  }

  lemma {:induction false} StepIsSeen(w: Writer, before: seq<Event>, e: Event)
    requires Remembers(w, before)
    ensures Erased(Written(w, e)) == Seen(before, e)
  {
    var (out, seen) := (Written(w, e), Seen(before, e));
    FewParts(w, e);
    hide TextId, ToolSummary, Erased;
    ErasedPair(out[0], out[|out| - 1]);
    ErasedPair(out[|out| - 1], out[0]);
    if |out| == 1 {
      assert out == [out[0]];
    } else if |out| == 2 {
      assert out == [out[0], out[1]];
    } else {
      ErasedSplits([out[0]], out[1..]);
      ErasedPair(out[1], out[2]);
      ErasedPair(out[0], out[1]);
      assert out[1..] == [out[1], out[2]] && out == [out[0]] + out[1..];
    }
  }

  lemma FewParts(w: Writer, e: Event)
    ensures 1 <= |Written(w, e)| <= 3
  {
  }

  /** Nothing is lost, added, changed or moved: with the brackets taken out, the parts are what the events show, in order. */
  lemma {:induction false} ContentsKept(w: Writer, before: seq<Event>, events: seq<Event>)
    requires Remembers(w, before)
    ensures Erased(AllWritten(w, events)) == AllSeen(before, events)
    decreases |events|
  {
    if events != [] {
      StepRemembers(w, before, events[0]);
      StepIsSeen(w, before, events[0]);
      ContentsKept(After(w, events[0]), before + [events[0]], events[1..]);
      ErasedSplits(Written(w, events[0]), AllWritten(After(w, events[0]), events[1..]));
    }
  }

  // ---------------------------------------------------------------- the end

  predicate Ends(p: Part) {
    p.Terminal? || p.Finish? || p.Abort? || p.Error?
  }

  lemma EarlierOnesDoNot(w: Writer, e: Event)
    requires !e.TurnFinished?
    ensures forall p | p in Written(w, e) :: !Ends(p)
  {
  }

  lemma {:induction false} OnlyTheLastEnds(w: Writer, events: seq<Event>)
    requires events != [] && events[|events| - 1].TurnFinished?
    requires forall i | 0 <= i < |events| - 1 :: !events[i].TurnFinished?
    ensures var (out, last) := (AllWritten(w, events), events[|events| - 1]);
            && |out| >= 2 && out[|out| - 2..] == Closing(last.status, last.error)
            && forall k | 0 <= k < |out| - 2 :: !Ends(out[k])
    decreases |events|
  {
    var out := AllWritten(w, events);
    if |events| == 1 {
      assert out == Written(w, events[0]);
    } else {
      hide Written, Closing, Ends, After;
      EarlierOnesDoNot(w, events[0]);
      var (first, rest) := (Written(w, events[0]), events[1..]);
      OnlyTheLastEnds(After(w, events[0]), rest);
      var tail := AllWritten(After(w, events[0]), rest);
      assert out[|out| - 2..] == tail[|tail| - 2..];
    }
  }

  /** A whole reply ends with one terminal part and then the one part its status asks for; nothing before them ends it. */
  lemma OneTerminalLast(events: seq<Event>)
    requires InOrder(events)
    ensures var (out, last) := (AllWritten(Fresh, events), events[|events| - 1]);
            && |out| >= 2 && out[|out| - 2].Terminal? && out[|out| - 2].status == last.status
            && (last.status == Completed <==> out[|out| - 1].Finish?)
            && (last.status == Cancelled <==> out[|out| - 1].Abort?)
            && (last.status == Failed <==> out[|out| - 1].Error?)
            && out[|out| - 2].error == (if last.error == Some("") then None else last.error)
            && (last.status == Failed ==>
                  out[|out| - 1].message == match last.error case None => "The reply did not finish." case Some(text) => text)
            && forall k | 0 <= k < |out| - 2 :: !Ends(out[k])
  {
    OnlyTheLastEnds(Fresh, events);
    var (out, last) := (AllWritten(Fresh, events), events[|events| - 1]);
    assert out[|out| - 2] == out[|out| - 2..][0] && out[|out| - 1] == out[|out| - 2..][1];
  }
}
