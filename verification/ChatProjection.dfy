/** A chat rebuilt from its transcript (src/agent/chat-projection.ts). */
module ChatProjection {
  import opened Wrappers
  import G = GatewayStream

  datatype Block = TextBlock(text: string) | CallBlock(id: string, name: string, args: string) | OtherBlock

  datatype Content = Plain(text: string) | Blocks(blocks: seq<Block>) | NoContent

  datatype Stop = Aborted | Errored | ToolUse | Ended

  /** A transcript entry; `Other` is any entry that is none of the three roles. */
  datatype Entry =
    | User(content: Content, timestamp: int)
    | Assistant(content: Content, stop: Stop, errorMessage: Option<string>)
    | ToolResult(callId: Option<string>, isError: bool)
    | Other

  datatype CallStatus = Calling | Done | Broken

  datatype Part = TextPart(text: string) | ToolPart(callId: string, name: string, args: string, call: CallStatus)

  datatype Status = Completed | Cancelled | Failed | Interrupted | Running

  /** The assistant's part in a chat: one reply to a user message. */
  datatype Turn = Turn(parts: seq<Part>, status: Status, error: Option<string>)

  datatype Message = UserMessage(text: string) | Reply(turn: Turn)

  const EmptyTurn := Turn([], Completed, None)
  const NoReply := Reply(Turn([], Interrupted, None))

  /** The owner's cancelled turns, and how an error message is cleaned of absolute paths. */
  datatype Setting = Setting(cancelledTurns: set<int>, clean: string -> string)

  // ---------------------------------------------------------------- the pieces

  function JoinedText(blocks: seq<Block>): string {
    if blocks == [] then ""
    else (if blocks[0].TextBlock? then blocks[0].text else "") + JoinedText(blocks[1..])
  }

  function TextOf(content: Content): string {
    match content
    case Plain(text) => text
    case Blocks(blocks) => JoinedText(blocks)
    case NoContent => ""
  }

  function BlocksOf(content: Content): seq<Block> {
    if content.Blocks? then content.blocks else []
  }

  function StatusOf(stop: Stop): Status {
    match stop
    case Aborted => Cancelled
    case Errored => Failed
    case ToolUse => Interrupted
    case Ended => Completed
  }

  function AddBlock(parts: seq<Part>, b: Block): seq<Part> {
    match b
    case TextBlock(text) =>
      if text == "" then parts
      else if parts != [] && parts[|parts| - 1].TextPart? then parts[..|parts| - 1] + [TextPart(parts[|parts| - 1].text + text)]
      else parts + [TextPart(text)]
    case CallBlock(id, name, args) => parts + [ToolPart(id, name, args, Calling)]
    case OtherBlock => parts
  }

  function AddBlocks(parts: seq<Part>, blocks: seq<Block>): seq<Part>
    decreases |blocks|
  {
    if blocks == [] then parts else AddBlocks(AddBlock(parts, blocks[0]), blocks[1..])
  }

  /** The first call with this id takes the result. */
  function Settle(parts: seq<Part>, callId: Option<string>, isError: bool): (r: seq<Part>)
    ensures |r| == |parts|
  {
    if parts == [] then []
    else if parts[0].ToolPart? && Some(parts[0].callId) == callId then
      [parts[0].(call := if isError then Broken else Done)] + parts[1..]
    else [parts[0]] + Settle(parts[1..], callId, isError)
  }

  function NotCalling(p: Part): Part {
    if p.ToolPart? && p.call == Calling then p.(call := Broken) else p
  }

  function Closed(parts: seq<Part>): seq<Part> {
    seq(|parts|, i requires 0 <= i < |parts| => NotCalling(parts[i]))
  }

  function ErrorOf(s: Setting, e: Entry): string
    requires e.Assistant?
  {
    if e.errorMessage.Some? && G.Trim(e.errorMessage.value) != "" then s.clean(G.Trim(e.errorMessage.value))
    else "model turn stopped with an error"
  }

  // ---------------------------------------------------------------- the projection

  /** The messages that are settled, and the turn under way after them if there is one. */
  datatype State = State(settled: seq<Message>, turn: Option<Turn>, lastStop: Stop, cancelled: bool)

  const Start := State([], None, Ended, false)

  predicate AwaitsReply(messages: seq<Message>) {
    messages != [] && messages[|messages| - 1].UserMessage?
  }

  function CloseTurn(turn: Turn, lastStop: Stop, cancelled: bool): Turn {
    var status := if cancelled && StatusOf(lastStop) == Failed then Cancelled else StatusOf(lastStop);
    Turn(Closed(turn.parts), status, if status == Cancelled then None else turn.error)
  }

  function Close(st: State): seq<Message> {
    if st.turn == None then st.settled else st.settled + [Reply(CloseTurn(st.turn.value, st.lastStop, st.cancelled))]
  }

  /** A user message with no reply after it gets one that says so. */
  function Answered(messages: seq<Message>): seq<Message> {
    if AwaitsReply(messages) then messages + [NoReply] else messages
  }

  function OpenTurn(st: State): Turn {
    if st.turn == None then EmptyTurn else st.turn.value
  }

  function Extended(s: Setting, turn: Turn, e: Entry): Turn
    requires e.Assistant? || e.ToolResult?
  {
    if e.ToolResult? then turn.(parts := Settle(turn.parts, e.callId, e.isError))
    else Turn(AddBlocks(turn.parts, BlocksOf(e.content)), turn.status, if e.stop == Errored then Some(ErrorOf(s, e)) else turn.error)
  }

  function StopAfter(lastStop: Stop, e: Entry): Stop {
    if e.Assistant? then e.stop else lastStop
  }

  function Step(s: Setting, st: State, e: Entry): State {
    match e
    case User(content, timestamp) =>
      State(Answered(Close(st)) + [UserMessage(TextOf(content))], None, if st.turn == None then st.lastStop else Ended,
            timestamp in s.cancelledTurns)
    case Other => st
    case _ => st.(turn := Some(Extended(s, OpenTurn(st), e)), lastStop := StopAfter(st.lastStop, e))
  }

  function Run(s: Setting, st: State, entries: seq<Entry>): State
    decreases |entries|
  {
    if entries == [] then st else Run(s, Step(s, st, entries[0]), entries[1..])
  }

  function Finish(st: State, running: bool): seq<Message> {
    if running then st.settled + [Reply(OpenTurn(st).(status := Running))] else Answered(Close(st))
  }

  function Projected(s: Setting, entries: seq<Entry>, running: bool): seq<Message> {
    Finish(Run(s, Start, entries), running)
  }

  /** The state of the loop below: `turn` is the last message of the list while it is open. */
  ghost function View(projected: seq<Message>, open: bool, lastStop: Stop, cancelled: bool): State
    requires OpenIsReply(projected, open)
  {
    if open then State(projected[..|projected| - 1], Some(projected[|projected| - 1].turn), lastStop, cancelled)
    else State(projected, None, lastStop, cancelled)
  }

  ghost predicate OpenIsReply(projected: seq<Message>, open: bool) {
    open ==> projected != [] && projected[|projected| - 1].Reply?
  }

  /** `projectChat` as it runs: one list, whose last message is changed in place while its turn is open. */
  method ProjectChat(s: Setting, entries: seq<Entry>, running: bool) returns (projected: seq<Message>)
    ensures projected == Projected(s, entries, running)
  {
    hide Extended, CloseTurn;
    projected := [];
    var open, lastStop, cancelled := false, Ended, false;
    var i := 0;
    assert entries[0..] == entries;
    while i < |entries|
      invariant i <= |entries| && OpenIsReply(projected, open)
      invariant Run(s, View(projected, open, lastStop, cancelled), entries[i..]) == Run(s, Start, entries)
    {
      ghost var st := View(projected, open, lastStop, cancelled);
      var e := entries[i];
      assert entries[i..][0] == e && entries[i..][1..] == entries[i + 1..];
      i := i + 1;
      match e {
        case User(content, timestamp) =>
          if open {
            var n := |projected| - 1;
            projected := projected[n := Reply(CloseTurn(projected[n].turn, lastStop, cancelled))];
            open, lastStop := false, Ended;
          }
          assert projected == Close(st);
          if projected != [] && projected[|projected| - 1].UserMessage? {
            projected := projected + [NoReply];
          }
          projected := projected + [UserMessage(TextOf(content))];
          cancelled := timestamp in s.cancelledTurns;
        case Other =>
        case _ =>
          if !open {
            projected := projected + [Reply(EmptyTurn)];
            open := true;
          }
          var n := |projected| - 1;
          assert projected[..n] == st.settled && projected[n].turn == OpenTurn(st);
          var turn := Extend(s, projected[n].turn, e);
          projected := projected[n := Reply(turn)];
          lastStop := StopAfter(lastStop, e);
          assert projected[..n] == st.settled;
      }
      assert View(projected, open, lastStop, cancelled) == Step(s, st, e);
    }
    assert entries[i..] == [];
    ghost var st := View(projected, open, lastStop, cancelled);
    if running {
      if !open {
        projected := projected + [Reply(EmptyTurn)];
      }
      var n := |projected| - 1;
      projected := projected[n := Reply(projected[n].turn.(status := Running))];
      assert projected[..n] == st.settled;
    } else {
      if open {
        var n := |projected| - 1;
        projected := projected[n := Reply(CloseTurn(projected[n].turn, lastStop, cancelled))];
      }
      assert projected == Close(st);
      if projected != [] && projected[|projected| - 1].UserMessage? {
        projected := projected + [NoReply];
      }
    }
  }

  /** The part of the loop that works on the open turn. */
  method Extend(s: Setting, turn: Turn, e: Entry) returns (turn': Turn)
    requires e.Assistant? || e.ToolResult?
    ensures turn' == Extended(s, turn, e)
  {
    if e.ToolResult? {
      return turn.(parts := Settle(turn.parts, e.callId, e.isError));
    }
    var (parts, blocks) := (turn.parts, BlocksOf(e.content));
    var j := 0;
    while j < |blocks|
      invariant j <= |blocks|
      invariant AddBlocks(parts, blocks[j..]) == AddBlocks(turn.parts, blocks)
    {
      assert blocks[j..][1..] == blocks[j + 1..];
      var b := blocks[j];
      if b.TextBlock? && b.text != "" {
        var last := |parts| - 1;
        if parts != [] && parts[last].TextPart? {
          parts := parts[..last] + [TextPart(parts[last].text + b.text)];
        } else {
          parts := parts + [TextPart(b.text)];
        }
      }
      if b.CallBlock? {
        parts := parts + [ToolPart(b.id, b.name, b.args, Calling)];
      }
      j := j + 1;
    }
    return Turn(parts, turn.status, if e.stop == Errored then Some(ErrorOf(s, e)) else turn.error);
  }

  // ---------------------------------------------------------------- one turn does not see another

  lemma {:induction false} RunSplits(s: Setting, st: State, a: seq<Entry>, b: seq<Entry>)
    ensures Run(s, st, a + b) == Run(s, Run(s, st, a), b)
    decreases |a|
  {
    if a == [] {
      assert a + b == b;
    } else {
      assert (a + b)[1..] == a[1..] + b;
      RunSplits(s, Step(s, st, a[0]), a[1..], b);
    }
  }

  /** What every run keeps: before a turn there is its user message or nothing, and no stop outlives its turn. */
  ghost predicate Consistent(st: State) {
    && (st.settled == [] || AwaitsReply(st.settled))
    && (st.turn == None ==> st.lastStop == Ended)
  }

  lemma {:induction false} RunIsConsistent(s: Setting, st: State, entries: seq<Entry>)
    requires Consistent(st)
    ensures Consistent(Run(s, st, entries))
    decreases |entries|
  {
    if entries != [] {
      RunIsConsistent(s, Step(s, st, entries[0]), entries[1..]);
    }
  }

  function Behind(before: seq<Message>, st: State): State {
    st.(settled := before + st.settled)
  }

  lemma CloseBehind(before: seq<Message>, st: State)
    requires st.settled != []
    ensures Answered(Close(Behind(before, st))) == before + Answered(Close(st))
  {
    assert Close(Behind(before, st)) == before + Close(st);
  }

  /** Messages before a turn's own user message have no part in what the turn becomes. */
  lemma {:induction false} RunBehind(s: Setting, before: seq<Message>, st: State, entries: seq<Entry>)
    requires st.settled != []
    ensures Run(s, Behind(before, st), entries) == Behind(before, Run(s, st, entries))
    ensures Run(s, st, entries).settled != []
    decreases |entries|
  {
    hide Extended, CloseTurn, Close, Answered;
    if entries != [] {
      CloseBehind(before, st);
      var next := Step(s, st, entries[0]);
      assert Step(s, Behind(before, st), entries[0]).settled == before + next.settled;
      RunBehind(s, before, next, entries[1..]);
    }
  }

  /**
   * A chat is its turns: when the later part opens with a user message, the whole is the earlier part, settled, with
   * the later part after it.
   */
  lemma ChatIsItsTurns(s: Setting, a: seq<Entry>, b: seq<Entry>, running: bool)
    requires b != [] && b[0].User?
    ensures Projected(s, a + b, running) == Projected(s, a, false) + Projected(s, b, running)
  {
    hide Extended, CloseTurn, Close, Answered, TextOf;
    RunSplits(s, Start, a, b);
    RunIsConsistent(s, Start, a);
    var st := Run(s, Start, a);
    var (before, mine) := (Finish(st, false), Step(s, Start, b[0]));
    assert Answered(Close(Start)) == [] by { NothingToAnswer(); }
    assert mine.settled == [UserMessage(TextOf(b[0].content))];
    assert Step(s, st, b[0]) == Behind(before, mine);
    RunBehind(s, before, mine, b[1..]);
    var last := Run(s, mine, b[1..]);
    CloseBehind(before, last);
    assert before + (last.settled + [Reply(OpenTurn(last).(status := Running))])
        == before + last.settled + [Reply(OpenTurn(last).(status := Running))];
  }

  lemma NothingToAnswer()
    ensures Answered(Close(Start)) == []
  {
  }

  // ---------------------------------------------------------------- the shape of a chat

  ghost predicate Alternates(messages: seq<Message>) {
    forall i | 0 <= i < |messages| - 1 :: messages[i].UserMessage? != messages[i + 1].UserMessage?
  }

  ghost predicate Settled(m: Message) {
    m.Reply? ==> m.turn.status != Running && forall p | p in m.turn.parts :: p.ToolPart? ==> p.call != Calling
  }

  ghost predicate Shaped(st: State) {
    Consistent(st) && Alternates(st.settled) && forall m | m in st.settled :: Settled(m)
  }

  lemma ClosedIsSettled(turn: Turn, lastStop: Stop, cancelled: bool)
    ensures Settled(Reply(CloseTurn(turn, lastStop, cancelled)))
  {
  }

  lemma ClosedIsShaped(st: State)
    requires Shaped(st)
    ensures Alternates(Answered(Close(st))) && forall m | m in Answered(Close(st)) :: Settled(m)
    ensures Answered(Close(st)) != [] ==> Answered(Close(st))[|Answered(Close(st))| - 1].Reply?
    ensures st.settled <= Answered(Close(st))
  {
    hide CloseTurn, Settled;
    assert Settled(NoReply) by { NoReplyIsSettled(); }
    if st.turn.Some? {
      ClosedIsSettled(st.turn.value, st.lastStop, st.cancelled);
    }
  }

  lemma NoReplyIsSettled()
    ensures Settled(NoReply)
  {
  }

  lemma {:induction false} RunKeepsShape(s: Setting, st: State, entries: seq<Entry>)
    requires Shaped(st)
    ensures Shaped(Run(s, st, entries)) && st.settled <= Run(s, st, entries).settled
    decreases |entries|
  {
    if entries != [] {
      hide CloseTurn, Extended, Close, Answered;
      ClosedIsShaped(st);
      RunKeepsShape(s, Step(s, st, entries[0]), entries[1..]);
    }
  }

  /**
   * User messages and replies alternate and the chat ends with a reply. Everything is settled, except the last
   * reply while the chat runs, which is then shown as running.
   */
  lemma ChatShape(s: Setting, entries: seq<Entry>, running: bool)
    ensures var chat := Projected(s, entries, running);
            && Alternates(chat)
            && (chat != [] ==> chat[|chat| - 1].Reply?)
            && (running ==> chat != [] && chat[|chat| - 1].Reply? && chat[|chat| - 1].turn.status == Running)
            && (forall i | 0 <= i < |chat| :: (running && i == |chat| - 1) || Settled(chat[i]))
  {
    hide Close, Answered, Settled;
    RunKeepsShape(s, Start, entries);
    ClosedIsShaped(Run(s, Start, entries));
  }

  // ---------------------------------------------------------------- what a turn shows

  /** A turn's entries: what comes between two user messages. */
  ghost predicate OfOneTurn(entries: seq<Entry>) {
    forall e | e in entries :: !e.User?
  }

  function LastStop(entries: seq<Entry>): Stop {
    if entries == [] then Ended
    else var e := entries[|entries| - 1]; if e.Assistant? then e.stop else LastStop(entries[..|entries| - 1])
  }

  /** The last error a reply of the turn stopped with. */
  function LastError(s: Setting, entries: seq<Entry>): Option<string> {
    if entries == [] then None
    else
      var e := entries[|entries| - 1];
      if e.Assistant? && e.stop == Errored then Some(ErrorOf(s, e)) else LastError(s, entries[..|entries| - 1])
  }

  /** What the parts say: letters of text and calls, in order. */
  datatype Sign = Letter(c: char) | Call(id: string, name: string, args: string)

  function Letters(text: string): seq<Sign> {
    seq(|text|, i requires 0 <= i < |text| => Letter(text[i]))
  }

  function PartSigns(p: Part): seq<Sign> {
    match p case TextPart(text) => Letters(text) case ToolPart(id, name, args, _) => [Call(id, name, args)]
  }

  function Signs(parts: seq<Part>): seq<Sign> {
    if parts == [] then []
    else
      Signs(parts[..|parts| - 1]) + PartSigns(parts[|parts| - 1])
  }

  function BlockSigns(b: Block): seq<Sign> {
    match b case TextBlock(text) => Letters(text) case CallBlock(id, name, args) => [Call(id, name, args)] case OtherBlock => []
  }

  function BlocksSigns(blocks: seq<Block>): seq<Sign> {
    if blocks == [] then [] else BlockSigns(blocks[0]) + BlocksSigns(blocks[1..])
  }

  function EntrySigns(entries: seq<Entry>): seq<Sign> {
    if entries == [] then []
    else
      var e := entries[|entries| - 1];
      EntrySigns(entries[..|entries| - 1]) + if e.Assistant? then BlocksSigns(BlocksOf(e.content)) else []
  }

  /** Text is merged as far as it goes: no empty text part and no two in a row. */
  ghost predicate Merged(parts: seq<Part>) {
    && (forall p | p in parts :: p.TextPart? ==> p.text != "")
    && (forall i | 0 <= i < |parts| - 1 :: parts[i].TextPart? ==> !parts[i + 1].TextPart?)
  }

  lemma {:induction false} SignsOfMore(parts: seq<Part>, p: Part)
    ensures Signs(parts + [p]) == Signs(parts) + PartSigns(p)
  {
    assert (parts + [p])[..|parts|] == parts;
  }

  lemma {:induction false} TextStaysMerged(before: seq<Part>, text: string, more: string)
    requires Merged(before + [TextPart(text)])
    ensures Merged(before + [TextPart(text + more)])
  {
    var (a, b) := (before + [TextPart(text)], before + [TextPart(text + more)]);
    assert a[|before|] in a && forall p | p in before :: p in a;
    assert forall i | 0 <= i < |before| :: a[i] == b[i];
  }

  lemma {:induction false} TextAppended(before: seq<Part>, text: string, more: string)
    ensures Signs(before + [TextPart(text + more)]) == Signs(before + [TextPart(text)]) + Letters(more)
  {
    hide Signs;
    SignsOfMore(before, TextPart(text));
    SignsOfMore(before, TextPart(text + more));
    LettersOfMore(text, more);
  }

  lemma LettersOfMore(text: string, more: string)
    ensures Letters(text + more) == Letters(text) + Letters(more)
  {
  }

  lemma {:induction false} AddBlockSays(parts: seq<Part>, b: Block)
    requires Merged(parts)
    ensures Merged(AddBlock(parts, b)) && Signs(AddBlock(parts, b)) == Signs(parts) + BlockSigns(b)
  {
    hide Signs, Letters;
    var (r, n) := (AddBlock(parts, b), |parts|);
    if n < |r| {
      SignsOfMore(parts, r[n]);
    } else if b.TextBlock? && b.text != "" {
      assert parts == parts[..n - 1] + [parts[n - 1]];
      TextStaysMerged(parts[..n - 1], parts[n - 1].text, b.text);
      TextAppended(parts[..n - 1], parts[n - 1].text, b.text);
    } else {
      NoLetters();
      assert BlockSigns(b) == [] && Signs(parts) + [] == Signs(parts);
    }
  }

  lemma NoLetters()
    ensures Letters("") == []
  {
  }

  lemma {:induction false} AddBlocksSay(parts: seq<Part>, blocks: seq<Block>)
    requires Merged(parts)
    ensures Merged(AddBlocks(parts, blocks)) && Signs(AddBlocks(parts, blocks)) == Signs(parts) + BlocksSigns(blocks)
    decreases |blocks|
  {
    hide Merged, AddBlock, BlockSigns;
    if blocks != [] {
      AddBlockSays(parts, blocks[0]);
      AddBlocksSay(AddBlock(parts, blocks[0]), blocks[1..]);
    }
  }

  /** A change of call statuses alone. */
  ghost predicate SameButStatuses(a: seq<Part>, b: seq<Part>) {
    |a| == |b| && forall i | 0 <= i < |a| :: if a[i].ToolPart? then b[i].ToolPart? && b[i] == a[i].(call := b[i].call) else b[i] == a[i]
  }

  lemma {:induction false} StatusesSayNothing(a: seq<Part>, b: seq<Part>)
    requires SameButStatuses(a, b)
    ensures Signs(a) == Signs(b) && (Merged(a) ==> Merged(b))
    decreases |a|
  {
    if a != [] {
      StatusesSayNothing(a[..|a| - 1], b[..|b| - 1]);
    }
  }

  lemma {:induction false} SettleKeepsAllElse(parts: seq<Part>, callId: Option<string>, isError: bool)
    ensures SameButStatuses(parts, Settle(parts, callId, isError))
    decreases |parts|
  {
    if parts != [] {
      SettleKeepsAllElse(parts[1..], callId, isError);
    }
  }

  /** The turn under way after its entries: what it says, how it stopped last and with what error. */
  ghost predicate TurnSays(s: Setting, st: State, entries: seq<Entry>) {
    && st.lastStop == LastStop(entries)
    && Merged(OpenTurn(st).parts)
    && Signs(OpenTurn(st).parts) == EntrySigns(entries)
    && OpenTurn(st).error == LastError(s, entries)
    && (st.turn == None <==> forall e | e in entries :: e.Other?)
  }

  lemma StepSays(s: Setting, st: State, entries: seq<Entry>, e: Entry)
    requires TurnSays(s, st, entries) && !e.User?
    ensures TurnSays(s, Step(s, st, e), entries + [e])
  {
    hide Merged, Signs, ErrorOf;
    assert (entries + [e])[..|entries|] == entries && e in entries + [e];
    assert forall x | x in entries :: x in entries + [e];
    var parts := OpenTurn(st).parts;
    if e.Assistant? {
      AddBlocksSay(parts, BlocksOf(e.content));
    } else if e.ToolResult? {
      SettleKeepsAllElse(parts, e.callId, e.isError);
      StatusesSayNothing(parts, Settle(parts, e.callId, e.isError));
    }
  }

  lemma {:induction false} RunSays(s: Setting, st: State, before: seq<Entry>, entries: seq<Entry>)
    requires TurnSays(s, st, before) && OfOneTurn(entries)
    ensures var st' := Run(s, st, entries);
            TurnSays(s, st', before + entries) && st'.settled == st.settled && st'.cancelled == st.cancelled
    decreases |entries|
  {
    hide TurnSays, Extended;
    if entries == [] {
      assert before + entries == before;
    } else {
      StepSays(s, st, before, entries[0]);
      assert before + [entries[0]] + entries[1..] == before + entries;
      RunSays(s, Step(s, st, entries[0]), before + [entries[0]], entries[1..]);
    }
  }

  lemma NothingSaidYet(s: Setting, st: State)
    requires st.turn == None && st.lastStop == Ended
    ensures TurnSays(s, st, [])
  {
  }

  /** What the reply of a settled turn shows of its entries. */
  ghost predicate Shows(s: Setting, entries: seq<Entry>, cancelled: bool, turn: Turn) {
    && Merged(turn.parts) && Signs(turn.parts) == EntrySigns(entries)
    && (turn.status == Interrupted <==> (LastStop(entries) == ToolUse || forall e | e in entries :: e.Other?))
    && (turn.status == Failed <==> LastStop(entries) == Errored && !cancelled)
    && (turn.status == Cancelled <==> LastStop(entries) == Aborted || (LastStop(entries) == Errored && cancelled))
    && turn.error == (if turn.status == Cancelled then None else LastError(s, entries))
  }

  lemma ClosedShows(s: Setting, st: State, entries: seq<Entry>)
    requires TurnSays(s, st, entries) && Consistent(st)
    ensures if st.turn == None then Shows(s, entries, st.cancelled, NoReply.turn)
            else Shows(s, entries, st.cancelled, CloseTurn(st.turn.value, st.lastStop, st.cancelled))
  {
    hide Merged, Signs, EntrySigns, LastError, LastStop, Closed;
    var parts := OpenTurn(st).parts;
    assert SameButStatuses(parts, Closed(parts)) by { ClosedKeepsAllElse(parts); }
    StatusesSayNothing(parts, Closed(parts));
  }

  lemma ClosedKeepsAllElse(parts: seq<Part>)
    ensures SameButStatuses(parts, Closed(parts))
  {
  }

  /**
   * One turn of a chat that is not running: its user message, then one reply with exactly the text and the calls of
   * its entries in order, text merged. Its status is what its last stop says, save that a failed turn the owner
   * cancelled is cancelled; it keeps the last error unless it is cancelled. No entry at all makes it interrupted.
   */
  lemma OneTurn(s: Setting, content: Content, timestamp: int, entries: seq<Entry>)
    requires OfOneTurn(entries)
    ensures var chat := Projected(s, [User(content, timestamp)] + entries, false);
            && |chat| == 2 && chat[0] == UserMessage(TextOf(content)) && chat[1].Reply?
            && Shows(s, entries, timestamp in s.cancelledTurns, chat[1].turn)
  {
    hide Extended, TextOf, TurnSays, Shows, CloseTurn;
    var user := User(content, timestamp);
    var first := Step(s, Start, user);
    assert ([user] + entries)[1..] == entries;
    assert first.settled == [UserMessage(TextOf(content))];
    NothingSaidYet(s, first);
    RunSays(s, first, [], entries);
    RunIsConsistent(s, first, entries);
    assert [] + entries == entries;
    ClosedShows(s, Run(s, first, entries), entries);
  }

  /** One turn of a running chat: the reply shows the text, the calls and the last error of its entries so far, and runs. */
  lemma RunningTurn(s: Setting, content: Content, timestamp: int, entries: seq<Entry>)
    requires OfOneTurn(entries)
    ensures var chat := Projected(s, [User(content, timestamp)] + entries, true);
            && |chat| == 2 && chat[0] == UserMessage(TextOf(content)) && chat[1].Reply?
            && var turn := chat[1].turn;
            && turn.status == Running && turn.error == LastError(s, entries)
            && Merged(turn.parts) && Signs(turn.parts) == EntrySigns(entries)
  {
    hide Extended, TextOf, Merged, Signs, EntrySigns, LastError, LastStop;
    var user := User(content, timestamp);
    var first := Step(s, Start, user);
    assert ([user] + entries)[1..] == entries && [] + entries == entries;
    assert first.settled == [UserMessage(TextOf(content))];
    NothingSaidYet(s, first);
    RunSays(s, first, [], entries);
  }

  function OnlyLetters(signs: seq<Sign>): seq<Sign> {
    if signs == [] then [] else (if signs[0].Letter? then [signs[0]] else []) + OnlyLetters(signs[1..])
  }

  lemma {:induction false} OnlyLettersSplits(a: seq<Sign>, b: seq<Sign>)
    ensures OnlyLetters(a + b) == OnlyLetters(a) + OnlyLetters(b)
    decreases |a|
  {
    if a == [] {
      assert a + b == b;
    } else {
      assert (a + b)[1..] == a[1..] + b;
      OnlyLettersSplits(a[1..], b);
    }
  }

  lemma {:induction false} LettersAreLetters(text: string)
    ensures OnlyLetters(Letters(text)) == Letters(text)
    decreases |text|
  {
    if text != "" {
      LettersAreLetters(text[1..]);
      assert Letters(text)[1..] == Letters(text[1..]);
      assert Letters(text) == [Letter(text[0])] + Letters(text[1..]);
    }
  }

  /** A user message shows the letters of its content and nothing else, in order. */
  lemma {:induction false} UserTextIsItsLetters(content: Content)
    ensures content.Plain? ==> TextOf(content) == content.text
    ensures content.Blocks? ==> Letters(TextOf(content)) == OnlyLetters(BlocksSigns(content.blocks))
    ensures content.NoContent? ==> TextOf(content) == ""
    decreases |BlocksOf(content)|
  {
    if content.Blocks? && content.blocks != [] {
      var (b, rest) := (content.blocks[0], content.blocks[1..]);
      UserTextIsItsLetters(Blocks(rest));
      OnlyLettersSplits(BlockSigns(b), BlocksSigns(rest));
      if b.TextBlock? {
        LettersAreLetters(b.text);
        LettersOfMore(b.text, JoinedText(rest));
      } else {
        assert [Call("", "", "")][1..] == [];
        assert "" + JoinedText(rest) == JoinedText(rest);
      }
    }
  }

  /** The error a failed reply shows is its message without blanks and paths, or a fixed text when it has none. */
  lemma ErrorIsTold(s: Setting, entries: seq<Entry>, content: Content, message: Option<string>)
    ensures LastError(s, entries + [Assistant(content, Errored, message)])
         == Some(if message.Some? && G.Trim(message.value) != "" then s.clean(G.Trim(message.value))
                 else "model turn stopped with an error")
  {
  }

  // ---------------------------------------------------------------- results of calls

  /** The status of the first call with this id. */
  function FirstCall(parts: seq<Part>, id: string): Option<CallStatus> {
    if parts == [] then None
    else if parts[0].ToolPart? && parts[0].callId == id then Some(parts[0].call)
    else FirstCall(parts[1..], id)
  }

  predicate Calls(blocks: seq<Block>, id: string) {
    exists i | 0 <= i < |blocks| :: blocks[i].CallBlock? && blocks[i].id == id
  }

  /** What became of a call: the last result under its id after it, if there is one. */
  function Outcome(entries: seq<Entry>, id: string): Option<CallStatus> {
    if entries == [] then None
    else
      var (e, before) := (entries[|entries| - 1], Outcome(entries[..|entries| - 1], id));
      if before.Some? && e.ToolResult? && e.callId == Some(id) then Some(if e.isError then Broken else Done)
      else if before == None && e.Assistant? && Calls(BlocksOf(e.content), id) then Some(Calling)
      else before
  }

  lemma {:induction false} FirstCallSplits(a: seq<Part>, b: seq<Part>, id: string)
    ensures FirstCall(a + b, id) == if FirstCall(a, id).Some? then FirstCall(a, id) else FirstCall(b, id)
    decreases |a|
  {
    if a == [] {
      assert a + b == b;
    } else {
      assert (a + b)[1..] == a[1..] + b;
      FirstCallSplits(a[1..], b, id);
    }
  }

  lemma {:induction false} SettleFirst(parts: seq<Part>, callId: Option<string>, isError: bool, id: string)
    ensures FirstCall(Settle(parts, callId, isError), id)
         == if FirstCall(parts, id).Some? && callId == Some(id) then Some(if isError then Broken else Done) else FirstCall(parts, id)
    decreases |parts|
  {
    if parts != [] {
      SettleFirst(parts[1..], callId, isError, id);
      var r := Settle(parts, callId, isError);
      assert r[1..] == parts[1..] || r[1..] == Settle(parts[1..], callId, isError);
    }
  }

  lemma AddBlockFirst(parts: seq<Part>, b: Block, id: string)
    ensures FirstCall(AddBlock(parts, b), id)
         == if FirstCall(parts, id) == None && b.CallBlock? && b.id == id then Some(Calling) else FirstCall(parts, id)
  {
    var r := AddBlock(parts, b);
    if |r| > |parts| {
      FirstCallSplits(parts, [r[|parts|]], id);
      assert FirstCall([], id) == None;
    } else if r != parts {
      var n := |parts| - 1;
      FirstCallSplits(parts[..n], [r[n]], id);
      FirstCallSplits(parts[..n], [parts[n]], id);
      assert parts == parts[..n] + [parts[n]];
      assert [r[n]][1..] == [parts[n]][1..] == [];
    }
  }

  lemma {:induction false} AddBlocksFirst(parts: seq<Part>, blocks: seq<Block>, id: string)
    ensures FirstCall(AddBlocks(parts, blocks), id)
         == if FirstCall(parts, id) == None && Calls(blocks, id) then Some(Calling) else FirstCall(parts, id)
    decreases |blocks|
  {
    if blocks != [] {
      hide AddBlock, FirstCall;
      var (b, rest) := (blocks[0], blocks[1..]);
      AddBlockFirst(parts, b, id);
      AddBlocksFirst(AddBlock(parts, b), rest, id);
      assert forall i | 0 < i < |blocks| :: blocks[i] == rest[i - 1];
      assert forall i | 0 <= i < |rest| :: rest[i] == blocks[i + 1];
    }
  }

  lemma {:induction false} ClosedFirst(parts: seq<Part>, id: string)
    ensures FirstCall(Closed(parts), id) == if FirstCall(parts, id) == Some(Calling) then Some(Broken) else FirstCall(parts, id)
    decreases |parts|
  {
    if parts != [] {
      assert Closed(parts)[1..] == Closed(parts[1..]);
      ClosedFirst(parts[1..], id);
    }
  }

  lemma {:induction false} StepFirst(s: Setting, st: State, before: seq<Entry>, e: Entry, id: string)
    requires !e.User? && FirstCall(OpenTurn(st).parts, id) == Outcome(before, id)
    ensures FirstCall(OpenTurn(Step(s, st, e)).parts, id) == Outcome(before + [e], id)
  {
    hide FirstCall, AddBlocks, Settle, Calls;
    assert (before + [e])[..|before|] == before;
    if e.Assistant? {
      AddBlocksFirst(OpenTurn(st).parts, BlocksOf(e.content), id);
    } else if e.ToolResult? {
      SettleFirst(OpenTurn(st).parts, e.callId, e.isError, id);
    }
  }

  lemma {:induction false} RunFirst(s: Setting, st: State, before: seq<Entry>, entries: seq<Entry>, id: string)
    requires OfOneTurn(entries) && FirstCall(OpenTurn(st).parts, id) == Outcome(before, id)
    ensures FirstCall(OpenTurn(Run(s, st, entries)).parts, id) == Outcome(before + entries, id)
    decreases |entries|
  {
    if entries == [] {
      assert before + entries == before;
    } else {
      hide FirstCall, Outcome, Step;
      var e := entries[0];
      StepFirst(s, st, before, e, id);
      RunFirst(s, Step(s, st, e), before + [e], entries[1..], id);
      assert before + [e] + entries[1..] == before + entries;
    }
  }

  predicate Under(p: Part, id: string) {
    p.ToolPart? && p.callId == id
  }

  /** Every call under this id but the first has this status. */
  ghost predicate LaterCalls(parts: seq<Part>, id: string, call: CallStatus) {
    forall i, j | 0 <= i < j < |parts| && Under(parts[i], id) && Under(parts[j], id) :: parts[j].call == call
  }

  lemma {:induction false} SettleAt(parts: seq<Part>, callId: Option<string>, isError: bool, k: nat)
    requires k < |parts|
    ensures var r := Settle(parts, callId, isError);
            || r[k] == parts[k]
            || (&& parts[k].ToolPart? && callId == Some(parts[k].callId) && Under(r[k], parts[k].callId)
                && forall i | 0 <= i < k :: !Under(parts[i], parts[k].callId))
    decreases |parts|
  {
    if k > 0 && !(parts[0].ToolPart? && Some(parts[0].callId) == callId) {
      SettleAt(parts[1..], callId, isError, k - 1);
      assert forall i | 0 < i < k :: parts[i] == parts[1..][i - 1];
    }
  }

  lemma {:induction false} SettleLater(parts: seq<Part>, callId: Option<string>, isError: bool, id: string)
    requires LaterCalls(parts, id, Calling)
    ensures LaterCalls(Settle(parts, callId, isError), id, Calling)
  {
    hide Settle;
    var r := Settle(parts, callId, isError);
    forall i, j | 0 <= i < j < |r| && Under(r[i], id) && Under(r[j], id)
      ensures r[j].call == Calling
    {
      SettleAt(parts, callId, isError, i);
      SettleAt(parts, callId, isError, j);
    }
  }

  lemma {:induction false} AddBlocksLater(parts: seq<Part>, blocks: seq<Block>, id: string)
    requires LaterCalls(parts, id, Calling)
    ensures LaterCalls(AddBlocks(parts, blocks), id, Calling)
    decreases |blocks|
  {
    if blocks != [] {
      AddBlocksLater(AddBlock(parts, blocks[0]), blocks[1..], id);
    }
  }

  lemma {:induction false} RunLater(s: Setting, st: State, entries: seq<Entry>, id: string)
    requires OfOneTurn(entries) && LaterCalls(OpenTurn(st).parts, id, Calling)
    ensures LaterCalls(OpenTurn(Run(s, st, entries)).parts, id, Calling)
    decreases |entries|
  {
    if entries != [] {
      hide LaterCalls, Settle, AddBlocks;
      var e := entries[0];
      if e.Assistant? {
        AddBlocksLater(OpenTurn(st).parts, BlocksOf(e.content), id);
      } else if e.ToolResult? {
        SettleLater(OpenTurn(st).parts, e.callId, e.isError, id);
      }
      RunLater(s, Step(s, st, e), entries[1..], id);
    }
  }

  /**
   * In a settled turn the first call under an id shows the last result under it, and shows as failed without one; a
   * later call under the same id is never settled, so it always shows as failed.
   */
  lemma CallsShowTheirResults(s: Setting, content: Content, timestamp: int, entries: seq<Entry>, id: string)
    requires OfOneTurn(entries)
    ensures var chat := Projected(s, [User(content, timestamp)] + entries, false);
            && |chat| == 2 && chat[1].Reply?
            && FirstCall(chat[1].turn.parts, id)
               == (if Outcome(entries, id) == Some(Calling) then Some(Broken) else Outcome(entries, id))
            && LaterCalls(chat[1].turn.parts, id, Broken)
  {
    hide Extended, TextOf, FirstCall, Outcome, TurnSays, Closed, LaterCalls;
    var user := User(content, timestamp);
    var first := Step(s, Start, user);
    assert ([user] + entries)[1..] == entries && [] + entries == entries;
    NoCallYet(id);
    NothingSaidYet(s, first);
    RunSays(s, first, [], entries);
    RunFirst(s, first, [], entries, id);
    RunLater(s, first, entries, id);
    var st := Run(s, first, entries);
    ClosedFirst(OpenTurn(st).parts, id);
    ClosedLater(OpenTurn(st).parts, id);
  }

  /** While the turn runs a call without a result is still calling. */
  lemma RunningCallsShowTheirResults(s: Setting, content: Content, timestamp: int, entries: seq<Entry>, id: string)
    requires OfOneTurn(entries)
    ensures var chat := Projected(s, [User(content, timestamp)] + entries, true);
            && |chat| == 2 && chat[1].Reply?
            && FirstCall(chat[1].turn.parts, id) == Outcome(entries, id)
            && LaterCalls(chat[1].turn.parts, id, Calling)
  {
    hide Extended, TextOf, FirstCall, Outcome, TurnSays, LaterCalls;
    var user := User(content, timestamp);
    var first := Step(s, Start, user);
    assert ([user] + entries)[1..] == entries && [] + entries == entries;
    NoCallYet(id);
    NothingSaidYet(s, first);
    RunSays(s, first, [], entries);
    RunFirst(s, first, [], entries, id);
    RunLater(s, first, entries, id);
  }

  lemma ClosedLater(parts: seq<Part>, id: string)
    requires LaterCalls(parts, id, Calling)
    ensures LaterCalls(Closed(parts), id, Broken)
  {
    assert forall i | 0 <= i < |parts| :: Under(Closed(parts)[i], id) <==> Under(parts[i], id);
  }

  lemma NoCallYet(id: string)
    ensures FirstCall([], id) == Outcome([], id) == None
    ensures LaterCalls([], id, Calling) && LaterCalls([], id, Broken)
  {
  }

  // ---------------------------------------------------------------- positions

  ghost predicate NotEmpty(st: State) {
    st.settled != [] || st.turn.Some?
  }

  /** A chat that shows anything is its settled messages and one reply after them. */
  lemma FinishAddsOneReply(st: State, running: bool)
    requires Shaped(st)
    ensures var (chat, n) := (Finish(st, running), |st.settled|);
            if running || NotEmpty(st) then |chat| == n + 1 && chat[..n] == st.settled && chat[n].Reply? else chat == []
  {
    hide CloseTurn, Settled;
  }

  /** The turn under way stays the message after the settled ones, also once it is settled itself. */
  lemma {:induction false} TurnKeepsItsPlace(s: Setting, st: State, entries: seq<Entry>)
    requires Shaped(st)
    ensures var (st', n) := (Run(s, st, entries), |st.settled|);
            && Shaped(st') && st.settled <= st'.settled
            && (NotEmpty(st) ==> NotEmpty(st'))
            && (st.turn.Some? ==> if |st'.settled| == n then st'.turn.Some? else st'.settled[n].Reply?)
    decreases |entries|
  {
    hide CloseTurn, Extended, Settled;
    RunKeepsShape(s, st, entries);
    if entries != [] {
      var next := Step(s, st, entries[0]);
      RunKeepsShape(s, st, entries[..1]);
      assert entries[..1][1..] == [];
      TurnKeepsItsPlace(s, next, entries[1..]);
    }
  }

  lemma {:induction false} SomethingShows(s: Setting, st: State, entries: seq<Entry>)
    requires Shaped(st) && (NotEmpty(st) || exists e | e in entries :: !e.Other?)
    ensures NotEmpty(Run(s, st, entries))
    decreases |entries|
  {
    hide CloseTurn, Extended, Settled;
    if entries != [] {
      RunKeepsShape(s, st, entries[..1]);
      assert entries[..1][1..] == [];
      assert forall e | e in entries :: e == entries[0] || e in entries[1..];
      SomethingShows(s, Step(s, st, entries[0]), entries[1..]);
    }
  }

  /**
   * A message's position in the chat is stable as the transcript grows, which is what its id on the page is made of:
   * every message but the last stays as it is, and the last stays a reply. The one exception is a chat that shows
   * nothing yet but is running.
   */
  lemma PositionsAreStable(s: Setting, a: seq<Entry>, b: seq<Entry>, running: bool, running': bool)
    requires !running || exists e | e in a :: !e.Other?
    ensures var (chat, chat') := (Projected(s, a, running), Projected(s, a + b, running'));
            && |chat| <= |chat'|
            && (chat != [] ==> chat[..|chat| - 1] == chat'[..|chat| - 1] && chat[|chat| - 1].Reply? && chat'[|chat| - 1].Reply?)
  {
    hide Close, Answered, Settled, Finish;
    RunSplits(s, Start, a, b);
    var (st, st') := (Run(s, Start, a), Run(s, Start, a + b));
    RunKeepsShape(s, Start, a);
    TurnKeepsItsPlace(s, st, b);
    ChatShape(s, a + b, running');
    FinishAddsOneReply(st, running);
    FinishAddsOneReply(st', running');
    if running {
      SomethingShows(s, Start, a);
    }
    var (chat', n) := (Finish(st', running'), |st.settled|);
    if NotEmpty(st) {
      assert chat'[..n] == chat'[..|st'.settled|][..n] == st.settled;
      assert n < |st'.settled| ==> chat'[n] == chat'[..|st'.settled|][n];
      if n > 0 {
        assert chat'[n - 1] == st.settled[n - 1];
      }
    }
  }

  /** The exception: a chat with nothing in it shows a lone reply while it runs, and its first message is then the user's. */
  lemma EmptyRunningChatMoves(s: Setting, content: Content, timestamp: int)
    ensures Projected(s, [], true)[0].Reply? && Projected(s, [User(content, timestamp)], true)[0].UserMessage?
  {
    var st := Step(s, Start, User(content, timestamp));
    assert [User(content, timestamp)][1..] == [] && Run(s, Start, [User(content, timestamp)]) == Run(s, st, []) == st;
    assert Answered(Close(Start)) == [];
  }
}
