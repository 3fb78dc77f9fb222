/** The turns of the chat service (src/agent/chat-service.ts), as the steps between its awaits. */
module ChatTurns {
  import opened Wrappers
  import opened ChatEvents
  import G = GatewayStream

  type ChatId = string
  type TurnId = string

  /** How a prompt ended, as `finished` reports it or as the prompt's own failure. */
  datatype Report = Report(status: Status, error: Option<string>)

  /**
   * Where a turn is. `Accepted` is Pi's word that the prompt started, `Running` the continuation that announces it;
   * `Settling` has its outcome, `Releasing` gives the session up, `Released` is out of the map, `Done` has announced
   * its end, and `Broken` never will, because giving the session up failed.
   */
  datatype Phase =
    | Creating | Prompting | Accepted | Running
    | Settling(outcome: Report) | Releasing(outcome: Report) | Released(outcome: Report) | Done(outcome: Report) | Broken
    | Refusing | Refused

  /** `aborted`: an abort was issued after the prompt had started. `lateCancel`: the first cancel came after the outcome. */
  datatype Turn = Turn(chat: ChatId, phase: Phase, bound: bool, cancelRequested: bool, result: Option<Report>,
                       seqNo: nat, events: seq<Event>, aborted: bool, lateCancel: bool)

  datatype Service = Service(turns: map<ChatId, TurnId>, all: map<TurnId, Turn>, stopping: bool, awaited: set<TurnId>)

  datatype Action =
    | Send(chat: ChatId, id: TurnId)
    | Bind(id: TurnId) | Refuse(id: TurnId) | PromptStarts(id: TurnId) | Continue(id: TurnId)
    | Deliver(id: TurnId, e: Event) | PromptEnds(id: TurnId, report: Report)
    | Conclude(id: TurnId) | BeginRelease(id: TurnId) | EndRelease(id: TurnId, fails: bool) | Announce(id: TurnId)
    | Cancel(chat: ChatId, named: Option<TurnId>)
    | Stop

  // ---------------------------------------------------------------- one turn

  predicate PromptHasStarted(p: Phase) {
    !p.Creating? && !p.Prompting? && !p.Refusing? && !p.Refused?
  }

  /** Not yet released: the turn holds its chat. */
  predicate Live(p: Phase) {
    !p.Released? && !p.Done? && !p.Broken? && !p.Refused?
  }

  /** Nothing has been said of the turn yet. */
  predicate Silent(p: Phase) {
    p.Creating? || p.Prompting? || p.Accepted? || p.Refusing? || p.Refused?
  }

  predicate HasOutcome(p: Phase) {
    p.Settling? || p.Releasing? || p.Released? || p.Done?
  }

  function NewTurn(chat: ChatId): Turn {
    Turn(chat, Creating, false, false, None, 0, [], false, false)
  }

  function Emit(t: Turn, e: Event): Turn {
    t.(seqNo := t.seqNo + 1, events := t.events + [e])
  }

  function Numbered(e: Event, n: nat): Event {
    e.(seqNo := n)
  }

  /** `cancelRequested` and, once the turn has its session, an abort. */
  function Asked(t: Turn): Turn {
    t.(cancelRequested := true,
       aborted := t.aborted || (t.bound && PromptHasStarted(t.phase)),
       lateCancel := t.lateCancel || (!t.cancelRequested && HasOutcome(t.phase)))
  }

  /** A cancelled turn can end as an error; the owner asked for the stop. */
  function OutcomeOf(t: Turn, report: Report): Report {
    if t.cancelRequested && report.status == Failed then Report(Cancelled, None) else report
  }

  function Cleaned(error: Option<string>, clean: string -> string): Option<string> {
    if error.Some? && error.value != "" then Some(clean(error.value)) else error
  }

  predicate IsDelta(e: Event) {
    e.TextDelta? || e.ToolStarted? || e.ToolFinished?
  }

  /** What a step does to its own turn; `None` when the turn is not at that step. */
  function TurnStep(t: Turn, a: Action, clean: string -> string): Option<Turn> {
    match a
    case Bind(_) => if t.phase.Creating? then Some(t.(phase := Prompting, bound := true)) else None
    case Refuse(_) => if t.phase.Creating? || t.phase.Prompting? then Some(t.(phase := Refusing)) else None
    case PromptStarts(_) => if t.phase.Prompting? then Some(t.(phase := Accepted)) else None
    case Continue(id) =>
      if !t.phase.Accepted? then None
      else Some(Emit(t, TurnStarted(t.seqNo, t.chat, id)).(phase := Running, aborted := t.aborted || t.cancelRequested))
    case Deliver(_, e) =>
      if (t.phase.Running? || t.phase.Settling?) && IsDelta(e) then Some(Emit(t, Numbered(e, t.seqNo))) else None
    case PromptEnds(_, report) =>
      if (t.phase.Accepted? || t.phase.Running?) && t.result == None then Some(t.(result := Some(report))) else None
    case Conclude(_) =>
      if t.phase.Running? && t.result.Some? then Some(t.(phase := Settling(OutcomeOf(t, t.result.value)))) else None
    case BeginRelease(_) => if t.phase.Settling? then Some(t.(phase := Releasing(t.phase.outcome))) else None
    case EndRelease(_, fails) =>
      if t.phase.Refusing? then Some(t.(phase := Refused))
      else if t.phase.Releasing? then Some(t.(phase := if fails then Broken else Released(t.phase.outcome)))
      else None
    case Announce(_) =>
      if !t.phase.Released? then None
      else
        var o := t.phase.outcome;
        Some(Emit(t, TurnFinished(t.seqNo, o.status, Cleaned(o.error, clean))).(phase := Done(o)))
    case _ => None
  }

  // ---------------------------------------------------------------- the service

  const Idle := Service(map[], map[], false, {})

  function AllAsked(all: map<TurnId, Turn>, ids: set<TurnId>): map<TurnId, Turn> {
    map id | id in all :: if id in ids then Asked(all[id]) else all[id]
  }

  /** One atomic step; `None` when it cannot happen. A refused send, or a cancel that finds no turn, changes nothing. */
  function Step(s: Service, a: Action, clean: string -> string): Option<Service> {
    match a
    case Send(chat, id) =>
      if id in s.all then None
      else if s.stopping || chat in s.turns then Some(s)
      else Some(s.(turns := s.turns[chat := id], all := s.all[id := NewTurn(chat)]))
    case Cancel(chat, named) =>
      if chat !in s.turns || (named.Some? && named.value != s.turns[chat]) || s.turns[chat] !in s.all then Some(s)
      else Some(s.(all := s.all[s.turns[chat] := Asked(s.all[s.turns[chat]])]))
    case Stop =>
      Some(s.(stopping := true, awaited := s.turns.Values, all := AllAsked(s.all, s.turns.Values)))
    case _ =>
      if a.id !in s.all then None
      else
        match TurnStep(s.all[a.id], a, clean)
        case None => None
        case Some(t) =>
          Some(s.(all := s.all[a.id := t], turns := if Live(s.all[a.id].phase) && !Live(t.phase) then s.turns - {t.chat} else s.turns))
  }

  ghost predicate IsRun(run: seq<Service>, actions: seq<Action>, clean: string -> string) {
    && |run| == |actions| + 1 && run[0] == Idle
    && forall i | 0 <= i < |actions| :: Step(run[i], actions[i], clean) == Some(run[i + 1])
  }

  // ---------------------------------------------------------------- invariants

  /** The map holds exactly the live turns, each under its own chat, so no chat has two. */
  ghost predicate MapIsLive(s: Service) {
    && (forall c | c in s.turns :: s.turns[c] in s.all && s.all[s.turns[c]].chat == c)
    && (forall id | id in s.all :: Live(s.all[id].phase) <==> s.all[id].chat in s.turns && s.turns[s.all[id].chat] == id)
  }

  /** After a stop no turn is live but those it waits for. */
  ghost predicate StopCovers(s: Service) {
    s.stopping ==> forall c | c in s.turns :: s.turns[c] in s.awaited
  }

  /** The events of a turn are a reply in order as far as it has come, and whole once its end is announced. */
  ghost predicate EventsInOrder(t: Turn) {
    && t.seqNo == |t.events| && SoFar(t.events)
    && (t.events == [] <==> Silent(t.phase))
    && ((exists e | e in t.events :: e.TurnFinished?) <==> t.phase.Done?)
  }

  /** A turn asked to cancel has been aborted since its prompt started, or it has not started, or it was refused. */
  ghost predicate CancelReaches(t: Turn) {
    && (t.cancelRequested && PromptHasStarted(t.phase) && !t.phase.Accepted? ==> t.aborted)
    && (t.phase.Prompting? || PromptHasStarted(t.phase) ==> t.bound)
  }

  /** The outcome is the prompt's own, but a failure is a cancellation when the cancel came before it. */
  ghost predicate OutcomeHonours(t: Turn) {
    && (t.lateCancel ==> t.cancelRequested && (HasOutcome(t.phase) || t.phase.Broken?))
    && (HasOutcome(t.phase) ==>
          && t.result.Some?
          && t.phase.outcome == if t.result.value.status == Failed && t.cancelRequested && !t.lateCancel
                                then Report(Cancelled, None) else t.result.value)
    && (t.phase.Done? ==> t.events != [] && t.events[|t.events| - 1].TurnFinished?
                          && t.events[|t.events| - 1].status == t.phase.outcome.status)
  }

  ghost predicate TurnOk(t: Turn) {
    EventsInOrder(t) && CancelReaches(t) && OutcomeHonours(t)
  }

  ghost predicate Inv(s: Service) {
    MapIsLive(s) && StopCovers(s) && forall id | id in s.all :: TurnOk(s.all[id])
  }

  lemma EmitKeepsOrder(before: seq<Event>, e: Event)
    requires SoFar(before) && Follows(before, e)
    ensures SoFar(before + [e])
  {
  }

  lemma EmitKeepsEvents(t: Turn, e: Event, t': Turn)
    requires EventsInOrder(t) && !t.phase.Done? && Follows(t.events, e)
    requires t'.seqNo == t.seqNo + 1 && t'.events == t.events + [e]
    requires !Silent(t'.phase) && (t'.phase.Done? <==> e.TurnFinished?)
    ensures EventsInOrder(t')
  {
    hide Follows, SoFar;
    EmitKeepsOrder(t.events, e);
    assert e in t'.events && forall x | x in t.events :: x in t'.events;
  }

  lemma {:induction false} TurnStepKeepsOrder(t: Turn, a: Action, clean: string -> string)
    requires EventsInOrder(t) && TurnStep(t, a, clean).Some?
    ensures EventsInOrder(TurnStep(t, a, clean).value)
  {
    hide SoFar, Cleaned;
    var t' := TurnStep(t, a, clean).value;
    if |t'.events| > |t.events| {
      assert t.events != [] ==> t.events[|t.events| - 1] in t.events;
      EmitKeepsEvents(t, t'.events[|t.events|], t');
    }
  }

  lemma TurnStepKeepsOk(t: Turn, a: Action, clean: string -> string)
    requires TurnOk(t) && TurnStep(t, a, clean).Some?
    ensures TurnOk(TurnStep(t, a, clean).value)
  {
    TurnStepKeepsOrder(t, a, clean);
    hide EventsInOrder;
  }

  lemma AskedKeepsOk(t: Turn)
    requires TurnOk(t)
    ensures TurnOk(Asked(t))
  {
  }

  lemma TurnStepMoves(t: Turn, a: Action, clean: string -> string)
    requires TurnStep(t, a, clean).Some?
    ensures TurnStep(t, a, clean).value.chat == t.chat
    ensures Live(TurnStep(t, a, clean).value.phase) ==> Live(t.phase)
  {
  }

  lemma TurnKeepsMap(s: Service, a: Action, clean: string -> string)
    requires MapIsLive(s) && Step(s, a, clean).Some? && !a.Send? && !a.Cancel? && !a.Stop?
    ensures MapIsLive(Step(s, a, clean).value)
  {
    hide TurnStep, Live;
    TurnStepMoves(s.all[a.id], a, clean);
  }

  lemma SendKeepsMap(s: Service, a: Action, clean: string -> string)
    requires MapIsLive(s) && Step(s, a, clean).Some? && a.Send?
    ensures MapIsLive(Step(s, a, clean).value)
  {
    hide TurnStep, Live, NewTurn;
    NewTurnIsLive(a.chat);
  }

  lemma {:induction false} AskingKeepsMap(s: Service, a: Action, clean: string -> string)
    requires MapIsLive(s) && StopCovers(s) && Step(s, a, clean).Some? && (a.Cancel? || a.Stop?)
    ensures MapIsLive(Step(s, a, clean).value) && StopCovers(Step(s, a, clean).value)
  {
    hide TurnStep, Live, Asked, NewTurn;
    var s' := Step(s, a, clean).value;
    AskedStays(s);
    assert s'.turns == s.turns && s'.all.Keys == s.all.Keys;
    assert forall id | id in s.all :: s'.all[id].phase == s.all[id].phase && s'.all[id].chat == s.all[id].chat;
    hide Step;
    assert forall c | c in s.turns :: s.turns[c] in s.turns.Values;
    SamePhasesSameMap(s, s');
    assert StopCovers(s') by { StopStillCovers(s, a, clean); }
  }

  lemma {:induction false} SamePhasesSameMap(s: Service, s': Service)
    requires MapIsLive(s) && s'.turns == s.turns && s'.all.Keys == s.all.Keys
    requires forall id | id in s.all :: s'.all[id].phase == s.all[id].phase && s'.all[id].chat == s.all[id].chat
    ensures MapIsLive(s')
  {
    hide Live;
  }

  lemma {:induction false} StopStillCovers(s: Service, a: Action, clean: string -> string)
    requires StopCovers(s) && Step(s, a, clean).Some? && (a.Cancel? || a.Stop?)
    ensures StopCovers(Step(s, a, clean).value)
  {
    hide Asked, AllAsked;
    assert forall c | c in s.turns :: s.turns[c] in s.turns.Values;
  }

  lemma {:induction false} StepKeepsMap(s: Service, a: Action, clean: string -> string)
    requires MapIsLive(s) && StopCovers(s) && Step(s, a, clean).Some?
    ensures MapIsLive(Step(s, a, clean).value) && StopCovers(Step(s, a, clean).value)
  {
    hide TurnStep, Live, Asked, NewTurn;
    if a.Send? {
      hide MapIsLive;
      SendKeepsMap(s, a, clean);
    } else if a.Cancel? || a.Stop? {
      hide MapIsLive, StopCovers;
      AskingKeepsMap(s, a, clean);
    } else {
      hide MapIsLive;
      TurnKeepsMap(s, a, clean);
    }
  }

  lemma AskedStays(s: Service)
    ensures forall id | id in s.all :: Asked(s.all[id]).phase == s.all[id].phase && Asked(s.all[id]).chat == s.all[id].chat
  {
  }

  lemma NewTurnIsLive(chat: ChatId)
    ensures Live(NewTurn(chat).phase) && NewTurn(chat).chat == chat
  {
  }

  lemma StepKeepsInv(s: Service, a: Action, clean: string -> string)
    requires Inv(s) && Step(s, a, clean).Some?
    ensures Inv(Step(s, a, clean).value)
  {
    hide TurnOk, MapIsLive, StopCovers;
    StepKeepsMap(s, a, clean);
    var s' := Step(s, a, clean).value;
    forall id | id in s'.all
      ensures TurnOk(s'.all[id])
    {
      if id in s.all {
        AskedKeepsOk(s.all[id]);
        if TurnStep(s.all[id], a, clean).Some? {
          TurnStepKeepsOk(s.all[id], a, clean);
        }
      } else {
        NewTurnIsOk(s'.all[id].chat);
      }
    }
  }

  lemma NewTurnIsOk(chat: ChatId)
    ensures TurnOk(NewTurn(chat))
  {
  }

  lemma {:induction false} EveryReachableState(run: seq<Service>, actions: seq<Action>, clean: string -> string, i: nat)
    requires IsRun(run, actions, clean) && i < |run|
    ensures Inv(run[i])
  {
    if i > 0 {
      EveryReachableState(run, actions, clean, i - 1);
      assert Step(run[i - 1], actions[i - 1], clean) == Some(run[i - 1 + 1]);
      StepKeepsInv(run[i - 1], actions[i - 1], clean);
    }
  }

  // ---------------------------------------------------------------- what a caller is promised

  /** No chat ever has two turns at once. */
  lemma OneTurnAChat(s: Service, id: TurnId, other: TurnId)
    requires Inv(s) && id in s.all && other in s.all
    requires Live(s.all[id].phase) && Live(s.all[other].phase) && s.all[id].chat == s.all[other].chat
    ensures id == other
  {
  }

  /** When everything `stop` waits for has settled, no turn is left, and none can begin. */
  lemma StopLeavesNoTurn(s: Service, chat: ChatId, id: TurnId, clean: string -> string)
    requires Inv(s) && s.stopping && forall t | t in s.awaited && t in s.all :: !Live(s.all[t].phase)
    ensures s.turns == map[] && forall t | t in s.all :: !Live(s.all[t].phase)
    ensures id !in s.all ==> Step(s, Send(chat, id), clean) == Some(s)
  {
    if c :| c in s.turns {
      assert false;
    }
  }

  /** A cancel that names a live turn ends in an abort of a started prompt or in a refused send. */
  lemma CancelEndsInAbortOrRefusal(s: Service, id: TurnId)
    requires Inv(s) && id in s.all && s.all[id].cancelRequested && !Live(s.all[id].phase)
    ensures s.all[id].aborted || s.all[id].phase.Refused?
  {
  }

  /** Such a cancel is never forgotten: no step takes the request back. */
  lemma CancelStays(s: Service, a: Action, clean: string -> string, id: TurnId)
    requires id in s.all && s.all[id].cancelRequested && Step(s, a, clean).Some?
    ensures id in Step(s, a, clean).value.all && Step(s, a, clean).value.all[id].cancelRequested
  {
  }

  /**
   * What the client reads of a turn that announced its end is a whole reply in order, and it says failed exactly
   * when the prompt failed and no cancel came before the outcome was settled.
   */
  lemma AnnouncedReply(s: Service, id: TurnId)
    requires Inv(s) && id in s.all && s.all[id].phase.Done?
    ensures var t := s.all[id];
            && InOrder(t.events) && t.result.Some?
            && (t.events[|t.events| - 1].status == Failed <==>
                  t.result.value.status == Failed && (t.cancelRequested ==> t.lateCancel))
  {
    var t := s.all[id];
    forall i | 0 <= i < |t.events| - 1
      ensures !t.events[i].TurnFinished?
    {
    }
  }

  /**
   * From the service to the page: the client reads the reply of a turn that announced its end whole, if and only if
   * no line of it is over the limit, and otherwise up to that line.
   */
  lemma AnnouncedReplyIsAccepted(s: Service, id: TurnId, json: G.JsonParse, written: Event -> string, chunks: seq<string>)
    requires Inv(s) && id in s.all && s.all[id].phase.Done?
    requires forall e | e in s.all[id].events :: G.Prints(json, written, e)
    requires G.Concat(chunks) == G.Sent(written, s.all[id].events)
    ensures G.Chunked(json, [], "", chunks) == G.ReadBack(written, s.all[id].events)
    ensures G.Chunked(json, [], "", chunks) == G.Outcome(s.all[id].events, None)
       <==> forall e | e in s.all[id].events :: |written(e)| <= G.MAX_LINE
  {
    AnnouncedReply(s, id);
    G.SentIsReadBack(json, written, s.all[id].events, chunks);
  }

  /** And a client that reads no end has read the start of such a reply. */
  lemma PartialReply(s: Service, id: TurnId)
    requires Inv(s) && id in s.all
    ensures SoFar(s.all[id].events) && (InOrder(s.all[id].events) <==> s.all[id].phase.Done?)
  {
    var t := s.all[id];
    if t.phase.Done? {
      AnnouncedReply(s, id);
    } else if t.events != [] {
      assert t.events[|t.events| - 1] in t.events;
    }
  }

  /** The turn of a service after one more step, a cancel that names it among them. */
  function Then(t: Option<Turn>, a: Action, clean: string -> string): Option<Turn> {
    if t == None then None else if a.Cancel? then Some(Asked(t.value)) else TurnStep(t.value, a, clean)
  }

  /** The run in which it does not hold: the owner's cancel is taken while a failed turn gives its session up. */
  lemma LateCancelStillFails(chat: ChatId, id: TurnId, error: string, clean: string -> string)
    ensures var t1 := Then(Some(NewTurn(chat)), Bind(id), clean);
            var t2 := Then(t1, PromptStarts(id), clean);
            var t3 := Then(t2, Continue(id), clean);
            var t4 := Then(t3, PromptEnds(id, Report(Failed, Some(error))), clean);
            var t5 := Then(t4, Conclude(id), clean);
            var t6 := Then(t5, BeginRelease(id), clean);
            var t7 := Then(t6, Cancel(chat, None), clean);
            var t8 := Then(t7, EndRelease(id, false), clean);
            var t9 := Then(t8, Announce(id), clean);
            && t6.Some? && Live(t6.value.phase)
            && t9.Some? && t9.value.cancelRequested
            && t9.value.events == [TurnStarted(0, chat, id), TurnFinished(1, Failed, Cleaned(Some(error), clean))]
  {
  }

  // ---------------------------------------------------------------- the reply says what the session delivered

  /** What the session delivered to a turn so far, told from the actions alone. */
  function Delivered(actions: seq<Action>, id: TurnId): seq<Event> {
    if actions == [] then []
    else
      var a := actions[|actions| - 1];
      Delivered(actions[..|actions| - 1], id) + if a.Deliver? && a.id == id then [a.e] else []
  }

  /** An error told without the paths in it; an empty one has none. */
  predicate IsCleaned(told: Option<string>, error: Option<string>, clean: string -> string) {
    match error
    case None => told == None
    case Some(text) => told == Some(if text == "" then "" else clean(text))
  }

  /**
   * The events of a turn: its start, naming its chat and itself, then exactly what was delivered, in order and
   * unchanged but for the numbers, and then, once announced, the outcome with its error cleaned.
   */
  ghost predicate Tells(t: Turn, id: TurnId, delivered: seq<Event>, clean: string -> string) {
    if Silent(t.phase) then t.events == [] && delivered == []
    else
      && |t.events| == 1 + |delivered| + (if t.phase.Done? then 1 else 0)
      && t.events[0] == TurnStarted(0, t.chat, id)
      && (forall k | 0 <= k < |delivered| :: t.events[k + 1] == delivered[k].(seqNo := k + 1))
      && (t.phase.Done? ==>
            var last := t.events[|delivered| + 1];
            && last.TurnFinished? && last.status == t.phase.outcome.status && IsCleaned(last.error, t.phase.outcome.error, clean))
  }

  lemma {:induction false} QuietTells(t: Turn, a: Action, id: TurnId, delivered: seq<Event>, clean: string -> string)
    requires Tells(t, id, delivered, clean) && TurnStep(t, a, clean).Some?
    requires !a.Continue? && !a.Deliver? && !a.Announce?
    ensures Tells(TurnStep(t, a, clean).value, id, delivered, clean)
  {
  }

  lemma {:induction false} StartTells(t: Turn, id: TurnId, delivered: seq<Event>, clean: string -> string)
    requires EventsInOrder(t) && Tells(t, id, delivered, clean) && TurnStep(t, Continue(id), clean).Some?
    ensures Tells(TurnStep(t, Continue(id), clean).value, id, delivered, clean)
  {
    hide SoFar;
  }

  lemma {:induction false} DeltaTells(t: Turn, id: TurnId, e: Event, delivered: seq<Event>, clean: string -> string)
    requires EventsInOrder(t) && Tells(t, id, delivered, clean) && TurnStep(t, Deliver(id, e), clean).Some?
    ensures Tells(TurnStep(t, Deliver(id, e), clean).value, id, delivered + [e], clean)
  {
    hide SoFar;
    var t' := TurnStep(t, Deliver(id, e), clean).value;
    assert t'.events == t.events + [t'.events[|t.events|]];
  }

  lemma {:induction false} EndTells(t: Turn, id: TurnId, delivered: seq<Event>, clean: string -> string)
    requires EventsInOrder(t) && Tells(t, id, delivered, clean) && TurnStep(t, Announce(id), clean).Some?
    ensures Tells(TurnStep(t, Announce(id), clean).value, id, delivered, clean)
  {
    hide SoFar;
    var t' := TurnStep(t, Announce(id), clean).value;
    assert t'.events == t.events + [t'.events[|t.events|]];
  }

  lemma {:induction false} TurnStepTells(t: Turn, a: Action, id: TurnId, delivered: seq<Event>, clean: string -> string)
    requires EventsInOrder(t) && Tells(t, id, delivered, clean) && TurnStep(t, a, clean).Some? && a.id == id
    requires !a.Send? && !a.Cancel? && !a.Stop?
    ensures Tells(TurnStep(t, a, clean).value, id, delivered + if a.Deliver? then [a.e] else [], clean)
  {
    hide Tells, TurnStep, EventsInOrder;
    assert delivered + [] == delivered;
    match a
    case Continue(_) => StartTells(t, id, delivered, clean);
    case Deliver(_, e) => DeltaTells(t, id, e, delivered, clean);
    case Announce(_) => EndTells(t, id, delivered, clean);
    case _ => QuietTells(t, a, id, delivered, clean);
  }

  lemma AskedTells(t: Turn, id: TurnId, delivered: seq<Event>, clean: string -> string)
    requires Tells(t, id, delivered, clean)
    ensures Tells(Asked(t), id, delivered, clean)
  {
  }

  lemma NewTurnTells(chat: ChatId, id: TurnId, clean: string -> string)
    ensures Tells(NewTurn(chat), id, [], clean)
  {
  }

  /** What one step does to the turn of `id`. */
  lemma {:induction false} StepOfTurn(s: Service, a: Action, clean: string -> string, id: TurnId)
    requires Step(s, a, clean).Some?
    ensures var s' := Step(s, a, clean).value;
            && (id in s.all ==> id in s'.all)
            && (id !in s.all && id in s'.all ==> a.Send? && a.id == id && s'.all[id] == NewTurn(a.chat))
            && (id !in s.all ==> !(a.Deliver? && a.id == id) && !(a.PromptEnds? && a.id == id))
            && (id in s.all ==>
                  || s'.all[id] == s.all[id]
                  || s'.all[id] == Asked(s.all[id])
                  || (!a.Send? && !a.Cancel? && !a.Stop? && a.id == id && TurnStep(s.all[id], a, clean) == Some(s'.all[id])))
            && (id in s.all && !a.Send? && !a.Cancel? && !a.Stop? && a.id == id ==>
                  TurnStep(s.all[id], a, clean) == Some(s'.all[id]))
            && (id in s.all && (a.Send? || a.Cancel? || a.Stop? || a.id != id) ==> s'.all[id] == s.all[id] || s'.all[id] == Asked(s.all[id]))
  {
    hide TurnStep, Asked, NewTurn, Live;
  }

  lemma {:induction false} RunStep(run: seq<Service>, actions: seq<Action>, clean: string -> string, n: nat)
    requires IsRun(run, actions, clean) && 0 < n < |run|
    ensures Step(run[n - 1], actions[n - 1], clean) == Some(run[n])
    ensures actions[..n][|actions[..n]| - 1] == actions[n - 1] && actions[..n][..n - 1] == actions[..n - 1]
  {
    assert run[n - 1 + 1] == run[n];
  }

  lemma {:induction false} EachReplyTells(run: seq<Service>, actions: seq<Action>, clean: string -> string, n: nat, id: TurnId)
    requires IsRun(run, actions, clean) && n < |run|
    ensures id in run[n].all ==> Tells(run[n].all[id], id, Delivered(actions[..n], id), clean)
    ensures id !in run[n].all ==> Delivered(actions[..n], id) == []
    decreases n
  {
    if n > 0 {
      hide Step, Tells, Inv, IsRun, TurnStep, EventsInOrder;
      EachReplyTells(run, actions, clean, n - 1, id);
      EveryReachableState(run, actions, clean, n - 1);
      RunStep(run, actions, clean, n);
      var (s, a, before) := (run[n - 1], actions[n - 1], Delivered(actions[..n - 1], id));
      StepOfTurn(s, a, clean, id);
      assert before + [] == before;
      if id in s.all {
        TurnIsOk(s, id);
        AskedTells(s.all[id], id, before, clean);
        if !a.Send? && !a.Cancel? && !a.Stop? && a.id == id {
          TurnStepTells(s.all[id], a, id, before, clean);
        }
      } else if id in run[n].all {
        NewTurnTells(a.chat, id, clean);
      }
    }
  }

  lemma TurnIsOk(s: Service, id: TurnId)
    requires Inv(s) && id in s.all
    ensures EventsInOrder(s.all[id])
  {
  }

  lemma {:induction false} ItsOwnStep(t: Turn, a: Action, clean: string -> string)
    ensures Asked(t).chat == t.chat && Asked(t).result == t.result
    ensures a.Send? ==> NewTurn(a.chat).chat == a.chat && NewTurn(a.chat).result == None
    ensures TurnStep(t, a, clean).Some? ==>
              var t' := TurnStep(t, a, clean).value;
              t'.chat == t.chat && (t'.result == t.result || (a.PromptEnds? && t'.result == Some(a.report)))
  {
  }

  /** The chat a turn was sent to, and how its prompt ended, are those of the actions. */
  lemma {:induction false} EachTurnIsItsOwn(run: seq<Service>, actions: seq<Action>, clean: string -> string, n: nat, id: TurnId)
    requires IsRun(run, actions, clean) && n < |run| && id in run[n].all
    ensures Send(run[n].all[id].chat, id) in actions[..n]
    ensures run[n].all[id].result.Some? ==> PromptEnds(id, run[n].all[id].result.value) in actions[..n]
    decreases n
  {
    if n > 0 {
      hide Step, IsRun, TurnStep, Asked, NewTurn;
      RunStep(run, actions, clean, n);
      var (s, a) := (run[n - 1], actions[n - 1]);
      assert actions[..n] == actions[..n - 1] + [a];
      StepOfTurn(s, a, clean, id);
      ItsOwnStep(if id in s.all then s.all[id] else run[n].all[id], a, clean);
      if id in s.all {
        EachTurnIsItsOwn(run, actions, clean, n - 1, id);
      } else {
        assert a == Send(a.chat, id);
      }
    }
  }

  /**
   * Over every run: the reply a turn announced is its start, exactly the deltas its session delivered, and its end,
   * which carries the prompt's own report unless a cancel before it turned a failure into a cancellation.
   */
  lemma {:induction false} ReplyIsWhatWasDelivered(run: seq<Service>, actions: seq<Action>, clean: string -> string, n: nat, id: TurnId)
    requires IsRun(run, actions, clean) && n < |run| && id in run[n].all && run[n].all[id].phase.Done?
    ensures var (t, delivered) := (run[n].all[id], Delivered(actions[..n], id));
            && |t.events| == |delivered| + 2
            && Send(t.chat, id) in actions[..n] && t.events[0] == TurnStarted(0, t.chat, id)
            && (forall k | 0 <= k < |delivered| :: t.events[k + 1] == delivered[k].(seqNo := k + 1))
            && t.result.Some? && PromptEnds(id, t.result.value) in actions[..n]
            && var last := t.events[|delivered| + 1];
            && last.TurnFinished? && last.seqNo == |delivered| + 1
            && (if t.result.value.status == Failed && t.cancelRequested && !t.lateCancel then
                  last.status == Cancelled && last.error == None
                else
                  last.status == t.result.value.status && IsCleaned(last.error, t.result.value.error, clean))
  {
    EachReplyTells(run, actions, clean, n, id);
    EachTurnIsItsOwn(run, actions, clean, n, id);
    EveryReachableState(run, actions, clean, n);
    hide IsRun, Delivered, MapIsLive;
    assert TurnOk(run[n].all[id]);
  }

  /** A turn takes every delta from its start until it gives the session up, and each of its phases can go on. */
  lemma NothingIsDropped(t: Turn, id: TurnId, e: Event, report: Report, fails: bool, clean: string -> string)
    ensures (t.phase.Running? || t.phase.Settling?) && IsDelta(e) ==> TurnStep(t, Deliver(id, e), clean).Some?
    ensures t.phase.Creating? ==> TurnStep(t, Bind(id), clean).Some? && TurnStep(t, Refuse(id), clean).Some?
    ensures t.phase.Prompting? ==> TurnStep(t, PromptStarts(id), clean).Some? && TurnStep(t, Refuse(id), clean).Some?
    ensures t.phase.Accepted? ==> TurnStep(t, Continue(id), clean).Some?
    ensures t.phase.Running? && t.result == None ==> TurnStep(t, PromptEnds(id, report), clean).Some?
    ensures t.phase.Running? && t.result.Some? ==> TurnStep(t, Conclude(id), clean).Some?
    ensures t.phase.Settling? ==> TurnStep(t, BeginRelease(id), clean).Some?
    ensures t.phase.Releasing? || t.phase.Refusing? ==> TurnStep(t, EndRelease(id, fails), clean).Some?
    ensures t.phase.Released? ==> TurnStep(t, Announce(id), clean).Some?
  {
  }
}

/** The service object: its `turns` map, its `stopping` flag and the calls that work on them. */
module ChatService {
  import opened Wrappers
  import opened ChatEvents
  import opened ChatTurns

  const CHAT_TITLE_MAX: nat := 200

  datatype Refusal = DaemonStopping | ChatBusy | ChatNotFound | InvalidTitle

  class ChatService {
    var turns: map<ChatId, TurnId>
    var stopping: bool
    var all: map<TurnId, Turn>
    var awaited: set<TurnId>
    /** The stored chats with their names, and the names given through a session. */
    var transcripts: map<ChatId, string>
    var sessionNames: map<ChatId, string>
    const clean: string -> string
    const titleRefused: char -> bool

    function View(): Service
      reads this
    {
      Service(turns, all, stopping, awaited)
    }

    ghost predicate Valid()
      reads this
    {
      Inv(View())
    }

    constructor (clean: string -> string, titleRefused: char -> bool, transcripts: map<ChatId, string>)
      ensures Valid() && View() == Idle && this.transcripts == transcripts && sessionNames == map[]
      ensures this.clean == clean && this.titleRefused == titleRefused
    {
      sessionNames := map[];
      turns, stopping, all, awaited := map[], false, map[], {};
      this.clean, this.titleRefused, this.transcripts := clean, titleRefused, transcripts;
    }

    /** `send` up to its first wait. A refused send changes nothing; an accepted one holds the chat. */
    method Send(chat: ChatId, id: TurnId) returns (refusal: Option<Refusal>)
      requires Valid() && id !in all
      modifies this
      ensures Valid() && transcripts == old(transcripts) && sessionNames == old(sessionNames)
      ensures Some(View()) == Step(old(View()), ChatTurns.Send(chat, id), clean)
      ensures refusal == if old(stopping) then Some(DaemonStopping) else if chat in old(turns) then Some(ChatBusy) else None
      ensures refusal.Some? ==> View() == old(View())
      ensures refusal == None ==> turns == old(turns)[chat := id] && id in all && all[id] == NewTurn(chat)
    {
      StepKeepsInv(View(), ChatTurns.Send(chat, id), clean);
      if stopping {
        return Some(DaemonStopping);
      }
      if chat in turns {
        return Some(ChatBusy);
      }
      turns := turns[chat := id];
      all := all[id := NewTurn(chat)];
      return None;
    }

    /** One of a turn's own steps, when it is that turn's time. A release takes the turn out of the map. */
    method Advance(a: Action) returns (done: bool)
      requires Valid() && !a.Send? && !a.Cancel? && !a.Stop?
      modifies this
      ensures Valid() && transcripts == old(transcripts) && sessionNames == old(sessionNames) && stopping == old(stopping)
      ensures done <==> Step(old(View()), a, clean).Some?
      ensures View() == if done then Step(old(View()), a, clean).value else old(View())
    {
      hide Inv, TurnStep, Live;
      if a.id !in all {
        return false;
      }
      var turn := all[a.id];
      var next := TurnStep(turn, a, clean);
      if next == None {
        return false;
      }
      StepKeepsInv(View(), a, clean);
      all := all[a.id := next.value];
      if Live(turn.phase) && !Live(next.value.phase) {
        turns := turns - {next.value.chat};
      }
      return true;
    }

    method Cancel(chat: ChatId, named: Option<TurnId>) returns (cancelled: Result<bool, Refusal>)
      requires Valid()
      modifies this
      ensures Valid() && transcripts == old(transcripts) && sessionNames == old(sessionNames) && turns == old(turns)
      ensures Some(View()) == Step(old(View()), ChatTurns.Cancel(chat, named), clean)
      ensures cancelled == Failure(ChatNotFound) <==> chat !in turns && chat !in transcripts
      ensures cancelled == Success(true) <==> chat in turns && (named == None || named == Some(turns[chat]))
      ensures cancelled == Success(true) ==> all[turns[chat]].cancelRequested
    {
      StepKeepsInv(View(), ChatTurns.Cancel(chat, named), clean);
      if chat !in turns {
        if chat !in transcripts {
          return Failure(ChatNotFound);
        }
        return Success(false);
      }
      var id := turns[chat];
      if named.Some? && named.value != id {
        return Success(false);
      }
      all := all[id := Asked(all[id])];
      return Success(true);
    }

    /** A chat that is replying keeps its transcript. */
    method Archive(chat: ChatId) returns (refusal: Option<Refusal>)
      requires Valid()
      modifies this
      ensures Valid() && View() == old(View()) && sessionNames == old(sessionNames)
      ensures refusal == if chat in turns then Some(ChatBusy) else if chat !in old(transcripts) then Some(ChatNotFound) else None
      ensures transcripts == if refusal == None then old(transcripts) - {chat} else old(transcripts)
    {
      if chat in turns {
        return Some(ChatBusy);
      }
      if chat !in transcripts {
        return Some(ChatNotFound);
      }
      transcripts := transcripts - {chat};
      return None;
    }

    /** The chat is there to be renamed: it is replying through a session, or it is stored. */
    predicate Renamable(chat: ChatId)
      reads this
      requires Valid()
    {
      if chat in turns then all[turns[chat]].bound else chat in transcripts
    }

    predicate TitleFits(trimmed: string)
    {
      trimmed != "" && |trimmed| <= CHAT_TITLE_MAX && forall c | c in trimmed :: !titleRefused(c)
    }

    /**
     * `trimmed` is the title with its line breaks made blanks and trimmed. A turn with a session takes the name through
     * it. The answer is looked up among the stored chats, so a chat not stored yet is renamed and still not found.
     */
    method Rename(chat: ChatId, trimmed: string) returns (refusal: Option<Refusal>)
      requires Valid()
      modifies this
      ensures Valid() && View() == old(View())
      ensures refusal == if !TitleFits(trimmed) then Some(InvalidTitle)
                         else if chat in turns && !all[turns[chat]].bound then Some(ChatBusy)
                         else if chat !in old(transcripts) then Some(ChatNotFound)
                         else None
      ensures var renamed := TitleFits(trimmed) && old(Renamable(chat));
              && transcripts == (if renamed && chat in old(transcripts) then old(transcripts)[chat := trimmed] else old(transcripts))
              && sessionNames == (if renamed && chat in turns then old(sessionNames)[chat := trimmed] else old(sessionNames))
    {
      if trimmed == "" || |trimmed| > CHAT_TITLE_MAX {
        return Some(InvalidTitle);
      }
      if exists c | c in trimmed :: titleRefused(c) {
        return Some(InvalidTitle);
      }
      if chat in turns && !all[turns[chat]].bound {
        return Some(ChatBusy);
      }
      if chat in turns {
        sessionNames := sessionNames[chat := trimmed];
      } else if chat !in transcripts {
        return Some(ChatNotFound);
      }
      if chat in transcripts {
        transcripts := transcripts[chat := trimmed];
      }
      return if chat in transcripts then None else Some(ChatNotFound);
    }

    /** `stop` up to its wait for the turns it found. */
    method Stop()
      requires Valid()
      modifies this
      ensures Valid() && stopping && awaited == old(turns).Values
      ensures transcripts == old(transcripts) && sessionNames == old(sessionNames)
      ensures Some(View()) == Step(old(View()), ChatTurns.Stop, clean)
      ensures forall c | c in turns :: all[turns[c]].cancelRequested
    {
      hide Inv, Asked;
      StepKeepsInv(View(), ChatTurns.Stop, clean);
      TurnsAreKnown(View());
      stopping := true;
      awaited := turns.Values;
      AskAll(turns.Values);
      AskedIsAsked();
    }

    /** The loop over the turns found: each is asked to cancel, and aborted if it has a session. */
    method AskAll(running: set<TurnId>)
      requires running <= all.Keys
      modifies this`all
      ensures all == AllAsked(old(all), running)
    {
      hide Asked;
      var left := running;
      while left != {}
        invariant left <= running <= all.Keys == old(all).Keys
        invariant forall id | id in all :: all[id] == if id in running && id !in left then Asked(old(all)[id]) else old(all)[id]
        decreases |left|
      {
        var id :| id in left;
        all := all[id := Asked(all[id])];
        left := left - {id};
      }
    }
  }

  lemma TurnsAreKnown(s: Service)
    requires Inv(s)
    ensures s.turns.Values <= s.all.Keys
    ensures forall c | c in s.turns :: s.turns[c] in s.turns.Values
  {
  }

  lemma AskedIsAsked()
    ensures forall t: Turn :: Asked(t).cancelRequested
  {
  }
}
