/**
 * The editor, the Gateway's serialized writer and every other Gateway writer of one file, with reads
 * and replies that arrive late, out of order or not at all.
 */
module EditorProtocol {
  import opened Wrappers
  import opened WorkspaceEditor
  import opened FileEditor

  /** A queued write; `ticket` numbers this editor's own writes, `None` is another writer's. */
  datatype Job = Job(ticket: Option<nat>, content: string, base: Option<Revision>)

  /** The awaited write: on its way, queued at the Gateway, refused and being re-read, or answered. */
  datatype Exchange = Sent | Queued | Rereading | Answered(outcome: Outcome)

  /**
   * `abandoned` are writes the page gave up on before they arrived; they may still arrive.
   * `checked` holds the content the head of the queue was checked against, once it has passed.
   * `known` is history: the revisions this editor has read, been shown in a conflict, or written.
   */
  datatype System = System(
    editor: Editor,
    exchange: Option<Exchange>,
    disk: Option<string>,
    abandoned: seq<Job>,
    queue: seq<Job>,
    checked: Option<Option<string>>,
    replies: seq<ReadReply>,
    known: set<Revision>)

  function Start(disk: Option<string>): System {
    System(Opened, None, disk, [], [], None, [], {})
  }

  function FileAt(content: string): File {
    File(content, RevisionOf(content))
  }

  datatype Step =
    // the owner
    | Edit(draft: string)
    | ChooseMine
    | ChooseDisk
    | ChooseBoth
    // the save loop
    | CallSave
    | ResumeSave(w: nat)
    | TakeReply
    | TestLoop
    | ClearPass
    // reads
    | ServeRead
    | ServeNotText
    | ServeFailure
    | DeliverRead(i: nat)
    | DropRead(i: nat)
    // the Gateway
    | Arrive
    | ArriveLate(i: nat)
    | OtherWrites(content: string, base: Option<Revision>)
    | CheckHead
    | CommitHead
    | FailHead
    | CommitHeadUnanswered
    | Reread
    | LoseReply

  ghost predicate Enabled(s: System, step: Step) {
    match step
    case ResumeSave(w) => MayResume(s.editor, w)
    case TakeReply => s.exchange.Some? && s.exchange.value.Answered?
    case TestLoop => s.editor.pass.Looping?
    case ClearPass => s.editor.pass.Settling?
    case DeliverRead(i) => i < |s.replies|
    case DropRead(i) => i < |s.replies|
    case Arrive => s.exchange == Some(Sent)
    case ArriveLate(i) => i < |s.abandoned|
    case CheckHead => s.queue != [] && s.checked == None
    case CommitHead => s.queue != [] && s.checked.Some?
    case FailHead => s.queue != []
    case CommitHeadUnanswered => s.queue != [] && s.checked.Some?
    case Reread => s.exchange == Some(Rereading)
    case LoseReply => s.exchange.Some? && !s.exchange.value.Answered?
    case _ => true
  }

  /** The editor after a block of its own; a write it sent opens a new exchange. */
  function Editing(s: System, e: Editor): System {
    if e.writes != s.editor.writes then s.(editor := e, exchange := Some(Sent)) else s.(editor := e)
  }

  /** The write that is out, under its number. */
  function OwnJob(s: System): Job {
    var request := if s.editor.pass.Writing? then s.editor.pass.request else Request("", RevisionOf(""));
    Job(Some(s.editor.writes), request.content, Some(request.base))
  }

  /** The head leaves the queue; only the awaited write has anyone to answer. */
  function Dequeue(s: System, answer: Exchange): System
    requires s.queue != []
  {
    var mine := s.queue[0].ticket == Some(s.editor.writes) && s.exchange == Some(Queued);
    s.(queue := s.queue[1..], checked := None, exchange := if mine then Some(answer) else s.exchange)
  }

  function Without<T>(list: seq<T>, i: nat): seq<T>
    requires i < |list|
  {
    list[..i] + list[i + 1..]
  }

  function RevisionOn(disk: Option<string>): Option<Revision> {
    if disk == None then None else Some(RevisionOf(disk.value))
  }

  function Learn(known: set<Revision>, reply: ReadReply): set<Revision> {
    if reply.Read? then known + {reply.file.revision} else known
  }

  function LearnOutcome(known: set<Revision>, outcome: Outcome): set<Revision> {
    match outcome
    case Written(r) => known + {r}
    case Refused(current) => known + {current.revision}
    case Failed(_) => known
  }

  ghost function Next(s: System, step: Step): System
    requires Enabled(s, step)
    requires (step.CheckHead? || step.CommitHead? || step.FailHead? || step.CommitHeadUnanswered?) ==> s.queue != []
    requires step.TakeReply? ==> s.editor.pass.Writing?
  {
    match step
    case Edit(draft) => Editing(s, Apply(s.editor, Edited(draft)))
    case ChooseMine => Editing(s, Apply(s.editor, KeepMine))
    case ChooseDisk => Editing(s, Apply(s.editor, KeepDisk))
    case ChooseBoth => Editing(s, Apply(s.editor, KeepBoth))
    case CallSave => Editing(s, Save(s.editor))
    case ResumeSave(w) => Editing(s, Resume(s.editor, w))
    case TakeReply =>
      var outcome := s.exchange.value.outcome;
      s.(editor := Replied(s.editor, outcome), exchange := None, known := LearnOutcome(s.known, outcome))
    case TestLoop => Editing(s, LoopTest(s.editor))
    case ClearPass => Editing(s, Settle(s.editor))
    case ServeRead => s.(replies := s.replies + [if s.disk == None then NotFound else Read(FileAt(s.disk.value))])
    case ServeNotText => s.(replies := s.replies + [NotText])
    case ServeFailure => s.(replies := s.replies + [ReadFailed])
    case DeliverRead(i) =>
      s.(editor := Delivered(s.editor, s.replies[i]), known := Learn(s.known, s.replies[i]), replies := Without(s.replies, i))
    case DropRead(i) => s.(replies := Without(s.replies, i))
    case Arrive => s.(exchange := Some(Queued), queue := s.queue + [OwnJob(s)])
    case ArriveLate(i) => s.(queue := s.queue + [s.abandoned[i]], abandoned := Without(s.abandoned, i))
    case OtherWrites(content, base) => s.(queue := s.queue + [Job(None, content, base)])
    case CheckHead =>
      if s.queue[0].base.Some? && s.queue[0].base != RevisionOn(s.disk) then Dequeue(s, Rereading)
      else s.(checked := Some(s.disk))
    case CommitHead =>
      Dequeue(s, Answered(Written(RevisionOf(s.queue[0].content)))).(disk := Some(s.queue[0].content))
    case FailHead => Dequeue(s, Answered(Failed("")))
    case CommitHeadUnanswered =>
      Dequeue(s, Answered(Failed(""))).(disk := Some(s.queue[0].content))
    case Reread =>
      s.(exchange := Some(Answered(if s.disk == None then Failed("") else Refused(FileAt(s.disk.value)))))
    case LoseReply =>
      s.(exchange := Some(Answered(Failed(""))), abandoned := if s.exchange == Some(Sent) then s.abandoned + [OwnJob(s)] else s.abandoned)
  }

  /** A step as the editor sees it. */
  ghost function EditorAfter(s: System, step: Step): Editor
    requires Enabled(s, step) && (step.TakeReply? ==> s.editor.pass.Writing?)
  {
    match step
    case Edit(draft) => Apply(s.editor, Edited(draft))
    case ChooseMine => Apply(s.editor, KeepMine)
    case ChooseDisk => Apply(s.editor, KeepDisk)
    case ChooseBoth => Apply(s.editor, KeepBoth)
    case CallSave => Save(s.editor)
    case ResumeSave(w) => Resume(s.editor, w)
    case TakeReply => Replied(s.editor, s.exchange.value.outcome)
    case TestLoop => LoopTest(s.editor)
    case ClearPass => Settle(s.editor)
    case DeliverRead(i) => Delivered(s.editor, s.replies[i])
    case _ => s.editor
  }

  lemma {:induction false} EditorMoves(s: System, step: Step)
    requires Enabled(s, step) && (step.TakeReply? ==> s.editor.pass.Writing?)
    ensures Next(s, step).editor == EditorAfter(s, step)
  {
    hide Reduce, Save, Resume, Replied, LoopTest, Settle, Delivered;
  }

  // ---------------------------------------------------------------- the invariant

  ghost predicate ServedTruly(reply: ReadReply) {
    reply.Read? ==> reply.file.revision == RevisionOf(reply.file.content)
  }

  /** A write is out exactly while the editor waits for one, and the editor still shows what it sent. */
  ghost predicate OneExchange(s: System) {
    && (s.exchange.Some? <==> s.editor.pass.Writing?)
    && (s.editor.state.status.Saving? ==>
          && s.editor.pass.Writing?
          && s.editor.pass.request == Request(s.editor.state.draft, s.editor.state.status.revision))
    && (s.editor.pass.Writing? ==> s.editor.pass.request.base in s.known)
    && (s.exchange.Some? && s.exchange.value.Answered? ==>
          match s.exchange.value.outcome
          case Written(r) => r == RevisionOf(s.editor.pass.request.content)
          case Refused(current) => current.revision == RevisionOf(current.content)
          case Failed(_) => true)
  }

  /** Before the first successful read nothing has been saved or can be. */
  ghost predicate FirstReadFirst(s: System) {
    s.editor.firstRead ==>
      && s.editor.pass.NoPass?
      && (s.editor.state.status.Loading? || s.editor.state.status.Missing? || s.editor.state.status.Unreadable?)
  }

  ghost predicate StatusGrounded(s: System) {
    var status := s.editor.state.status;
    && (BaseRevision(status).Some? ==> BaseRevision(status).value in s.known)
    && (status.Clean? ==> status.revision == RevisionOf(s.editor.state.draft))
    && (status.Conflict? ==> status.disk.revision in s.known && status.disk.revision == RevisionOf(status.disk.content))
  }

  ghost predicate Grounded(s: System, j: Job) {
    j.ticket.Some? ==> j.ticket.value <= s.editor.writes && j.base.Some? && j.base.value in s.known
  }

  /** Every write of this editor names a base it knows, carries its own number, and is afloat at most once. */
  ghost predicate JobsGrounded(s: System) {
    && (forall j | j in s.abandoned :: j.ticket.Some? && Grounded(s, j))
    && (forall j | j in s.queue :: Grounded(s, j))
    && (forall i, k | 0 <= i < k < |s.queue| && s.queue[i].ticket.Some? :: s.queue[i].ticket != s.queue[k].ticket)
    && (forall i, k | 0 <= i < k < |s.abandoned| :: s.abandoned[i].ticket != s.abandoned[k].ticket)
    && (forall j, k | j in s.abandoned && k in s.queue :: j.ticket != k.ticket)
    && (s.exchange.Some? && !s.exchange.value.Answered? ==> forall j | j in s.abandoned :: j.ticket != Some(s.editor.writes))
    && (s.exchange == Some(Sent) ==> forall j | j in s.queue :: j.ticket != Some(s.editor.writes))
    && (forall j | j in s.queue && j.ticket == Some(s.editor.writes) && s.exchange == Some(Queued) ::
          s.editor.pass.Writing? && j.content == s.editor.pass.request.content)
  }

  /** The head that passed its check still finds the disk as it was checked. */
  ghost predicate CheckStands(s: System) {
    s.checked.Some? ==>
      && s.queue != []
      && s.checked.value == s.disk
      && (s.queue[0].base.Some? ==> s.queue[0].base == RevisionOn(s.disk))
  }

  ghost predicate Inv(s: System) {
    && OneExchange(s)
    && FirstReadFirst(s)
    && StatusGrounded(s)
    && JobsGrounded(s)
    && CheckStands(s)
    && forall reply | reply in s.replies :: ServedTruly(reply)
  }

  lemma StartsInv(disk: Option<string>)
    ensures Inv(Start(disk))
  {
  }

  ghost predicate IsEditorStep(step: Step) {
    step.Edit? || step.ChooseMine? || step.ChooseDisk? || step.ChooseBoth? ||
    step.CallSave? || step.ResumeSave? || step.TestLoop? || step.ClearPass?
  }

  /** Blocks that send nothing: they change the document, and the pass they end. */
  lemma {:induction false} ReplyIsQuiet(e: Editor, outcome: Outcome)
    requires e.pass.Writing?
    ensures Replied(e, outcome) == e.(state := Replied(e, outcome).state, pass := Looping)
  {
    hide Reduce;
  }

  lemma {:induction false} DeliveryIsQuiet(e: Editor, reply: ReadReply)
    ensures Delivered(e, reply) == e.(state := Delivered(e, reply).state, firstRead := Delivered(e, reply).firstRead)
  {
    hide Reduce, NOT_TEXT;
  }

  lemma {:induction false} QuietBlocks(s: System, step: Step)
    requires Enabled(s, step) && (step.TakeReply? ==> s.editor.pass.Writing?)
    ensures var (e, e') := (s.editor, EditorAfter(s, step));
            && (step.TakeReply? ==> e' == e.(state := e'.state, pass := Looping))
            && (step.ClearPass? ==> e' == e.(pass := NoPass, pending := false))
            && (!step.TakeReply? && !step.ClearPass? && !step.CallSave? && !step.ResumeSave? && !step.TestLoop? ==>
                  e' == e.(state := e'.state, firstRead := e'.firstRead))
  {
    hide Reduce, Save, Resume, LoopTest, Savable, Replied, Delivered;
    if step.TakeReply? {
      ReplyIsQuiet(s.editor, s.exchange.value.outcome);
    } else if step.DeliverRead? {
      DeliveryIsQuiet(s.editor, s.replies[step.i]);
    }
  }

  /** Blocks that may send. */
  lemma {:induction false} SaveSends(e: Editor)
    ensures if e.pass != NoPass then Save(e) == e.(pending := true, waiters := e.waiters + [e.passNumber])
            else if Savable(e.state.status) then
              && Save(e).writes == e.writes + 1 && Save(e).pass.Writing?
              && Save(e).passNumber == e.passNumber + 1 && Save(e).waiters == e.waiters
            else Save(e) == e
  {
    hide Reduce;
  }

  lemma {:induction false} LoopTestSends(e: Editor)
    requires e.pass.Looping?
    ensures LoopTest(e).waiters == e.waiters && LoopTest(e).passNumber == e.passNumber
    ensures if e.pending && Savable(e.state.status) then LoopTest(e).writes == e.writes + 1 && LoopTest(e).pass.Writing?
            else LoopTest(e).writes == e.writes && LoopTest(e).pass == if e.pending then Looping else Settling
  {
    hide Reduce;
  }

  /** A write is sent only when none is out; one that is out stays as it was sent. */
  lemma {:induction false} SendsWhenFree(s: System, step: Step)
    requires OneExchange(s) && Enabled(s, step) && (step.TakeReply? ==> s.editor.pass.Writing?)
    ensures var e := EditorAfter(s, step);
            if e.writes != s.editor.writes then
              s.exchange == None && e.writes == s.editor.writes + 1 && e.pass.Writing?
            else s.editor.pass.Writing? && !step.TakeReply? ==> e.pass == s.editor.pass
  {
    hide Reduce, Apply, Save, Replied, LoopTest, Settle, Delivered, Savable;
    QuietBlocks(s, step);
    SaveSends(s.editor);
    if step.ResumeSave? {
      SaveSends(Waiterless(s.editor, step.w));
    } else if step.TestLoop? {
      LoopTestSends(s.editor);
    }
  }

  function Waiterless(e: Editor, w: nat): Editor {
    if w < |e.waiters| then e.(waiters := e.waiters[..w] + e.waiters[w + 1..]) else e
  }

  lemma {:induction false} EditingKeepsJobs(s: System, e: Editor)
    requires JobsGrounded(s)
    requires if e.writes != s.editor.writes then s.exchange == None && e.writes == s.editor.writes + 1
             else (s.editor.pass.Writing? ==> e.pass == s.editor.pass)
    ensures JobsGrounded(Editing(s, e))
  {
  }

  lemma {:induction false} EditorStepKeepsJobs(s: System, step: Step)
    requires Inv(s) && Enabled(s, step) && IsEditorStep(step)
    ensures JobsGrounded(Next(s, step)) && CheckStands(Next(s, step))
  {
    hide StatusGrounded, ServedTruly, JobsGrounded, FirstReadFirst;
    EditorMoves(s, step);
    SendsWhenFree(s, step);
    hide Reduce, Save, Resume, LoopTest, Settle, EditorAfter, OneExchange;
    EditingKeepsJobs(s, Next(s, step).editor);
  }

  lemma {:induction false} EditorStepKeepsExchange(s: System, step: Step)
    requires Inv(s) && Enabled(s, step) && IsEditorStep(step)
    ensures OneExchange(Next(s, step)) && FirstReadFirst(Next(s, step))
  {
    hide JobsGrounded, CheckStands, ServedTruly;
  }

  lemma {:induction false} EditorStepKeepsStatus(s: System, step: Step)
    requires Inv(s) && Enabled(s, step) && IsEditorStep(step)
    ensures StatusGrounded(Next(s, step)) && Next(s, step).replies == s.replies
  {
    hide JobsGrounded, CheckStands, ServedTruly;
  }

  lemma {:induction false} EditorStepKeepsInv(s: System, step: Step)
    requires Inv(s) && Enabled(s, step) && IsEditorStep(step)
    ensures Inv(Next(s, step))
  {
    EditorStepKeepsJobs(s, step);
    EditorStepKeepsExchange(s, step);
    EditorStepKeepsStatus(s, step);
    hide JobsGrounded, CheckStands, ServedTruly, OneExchange, FirstReadFirst, StatusGrounded, Next;
  }

  lemma ReplyKeepsInv(s: System)
    requires Inv(s) && Enabled(s, TakeReply)
    ensures s.editor.pass.Writing? && Inv(Next(s, TakeReply))
  {
  }

  lemma {:induction false} DeliveryKeepsJobs(s: System, i: nat)
    requires Inv(s) && i < |s.replies|
    ensures JobsGrounded(Next(s, DeliverRead(i))) && CheckStands(Next(s, DeliverRead(i)))
    ensures forall reply | reply in Next(s, DeliverRead(i)).replies :: reply in s.replies
  {
    hide StatusGrounded, ServedTruly;
  }

  lemma {:induction false} DeliveryKeepsExchange(s: System, i: nat)
    requires Inv(s) && i < |s.replies|
    ensures OneExchange(Next(s, DeliverRead(i))) && FirstReadFirst(Next(s, DeliverRead(i)))
  {
    hide JobsGrounded, CheckStands, StatusGrounded, Without;
    assert ServedTruly(s.replies[i]);
  }

  lemma {:induction false} DeliveryKeepsStatus(s: System, i: nat)
    requires Inv(s) && i < |s.replies|
    ensures StatusGrounded(Next(s, DeliverRead(i)))
  {
    hide JobsGrounded, CheckStands, OneExchange, Without, NOT_TEXT;
    assert ServedTruly(s.replies[i]);
  }

  lemma {:induction false} DeliveryKeepsInv(s: System, i: nat)
    requires Inv(s) && i < |s.replies|
    ensures Inv(Next(s, DeliverRead(i)))
  {
    DeliveryKeepsJobs(s, i);
    DeliveryKeepsExchange(s, i);
    DeliveryKeepsStatus(s, i);
    hide JobsGrounded, CheckStands, OneExchange, FirstReadFirst, StatusGrounded, ServedTruly, Next;
  }

  lemma ReadKeepsInv(s: System, step: Step)
    requires Inv(s) && Enabled(s, step)
    requires step.ServeRead? || step.ServeNotText? || step.ServeFailure? || step.DeliverRead? || step.DropRead?
    ensures Inv(Next(s, step))
  {
    match step
    case DeliverRead(i) => DeliveryKeepsInv(s, i);
    case DropRead(i) => assert forall reply | reply in Without(s.replies, i) :: reply in s.replies;
    case _ =>
  }

  /** A job leaves the queue, and the awaited write gets an answer if the job was its own. */
  lemma {:induction false} DequeueKeepsJobs(s: System, answer: Exchange, disk: Option<string>)
    requires JobsGrounded(s) && s.queue != [] && !answer.Sent? && !answer.Queued?
    ensures JobsGrounded(Dequeue(s, answer).(disk := disk))
  {
    hide Grounded, Without;
    var s' := Dequeue(s, answer).(disk := disk);
    FirstOut(s.queue, s'.queue);
    SameGrounds(s, s');
  }

  lemma FirstOut(queue: seq<Job>, rest: seq<Job>)
    requires queue != [] && rest == queue[1..]
    ensures queue[0] in queue && (forall j | j in rest :: j in queue)
    ensures forall i | 0 <= i < |rest| :: rest[i] == queue[i + 1]
  {
  }

  lemma {:induction false} SameGrounds(s: System, s': System)
    requires s'.editor.writes == s.editor.writes && s'.known == s.known
    ensures forall j :: Grounded(s', j) == Grounded(s, j)
  {
  }

  lemma {:induction false} DequeueKeepsInv(s: System, answer: Exchange, disk: Option<string>)
    requires Inv(s) && s.queue != []
    requires answer == Rereading || answer == Answered(Failed("")) || answer == Answered(Written(RevisionOf(s.queue[0].content)))
    ensures Inv(Dequeue(s, answer).(disk := disk))
  {
    DequeueKeepsJobs(s, answer, disk);
    assert s.queue[0] in s.queue;
    assert OneExchange(Dequeue(s, answer).(disk := disk));
    hide JobsGrounded, OneExchange;
  }

  lemma {:induction false} ArrivalKeepsJobs(s: System, step: Step)
    requires Inv(s) && Enabled(s, step)
    requires step.Arrive? || step.ArriveLate? || step.OtherWrites?
    ensures JobsGrounded(Next(s, step))
  {
    hide StatusGrounded, CheckStands, FirstReadFirst, ServedTruly;
    var s' := Next(s, step);
    var last := s'.queue[|s.queue|];
    assert s'.queue == s.queue + [last];
    assert forall j :: j in s'.queue <==> j in s.queue || j == last;
    if step.ArriveLate? {
      LeavesOthers(s.abandoned, step.i);
      assert last in s.abandoned;
    }
  }

  lemma {:induction false} LeavesOthers(jobs: seq<Job>, i: nat)
    requires i < |jobs| && forall j, k | 0 <= j < k < |jobs| :: jobs[j].ticket != jobs[k].ticket
    ensures forall j | j in Without(jobs, i) :: j in jobs && j.ticket != jobs[i].ticket
    ensures var rest := Without(jobs, i); forall j, k | 0 <= j < k < |rest| :: rest[j].ticket != rest[k].ticket
  {
  }

  lemma {:induction false} ArrivalKeepsInv(s: System, step: Step)
    requires Inv(s) && Enabled(s, step)
    requires step.Arrive? || step.ArriveLate? || step.OtherWrites?
    ensures Inv(Next(s, step))
  {
    ArrivalKeepsJobs(s, step);
    hide JobsGrounded;
  }

  lemma {:induction false} AnswerKeepsJobs(s: System, step: Step)
    requires OneExchange(s) && JobsGrounded(s) && Enabled(s, step) && (step.Reread? || step.LoseReply?)
    ensures JobsGrounded(Next(s, step))
  {
    var s' := Next(s, step);
    assert forall j | j in s'.abandoned :: j in s.abandoned || j == OwnJob(s);
  }

  lemma {:induction false} AnswerKeepsInv(s: System, step: Step)
    requires Inv(s) && Enabled(s, step) && (step.Reread? || step.LoseReply?)
    ensures Inv(Next(s, step))
  {
    AnswerKeepsJobs(s, step);
    hide JobsGrounded;
  }

  lemma {:induction false} CheckKeepsInv(s: System)
    requires Inv(s) && s.queue != [] && (s.queue[0].base.Some? ==> s.queue[0].base == RevisionOn(s.disk))
    ensures Inv(s.(checked := Some(s.disk)))
  {
    var s' := s.(checked := Some(s.disk));
    assert forall j :: Grounded(s', j) == Grounded(s, j);
    assert JobsGrounded(s');
    hide JobsGrounded, Grounded;
  }

  lemma GatewayKeepsInv(s: System, step: Step)
    requires Inv(s) && Enabled(s, step)
    requires step.CheckHead? || step.CommitHead? || step.FailHead? || step.CommitHeadUnanswered? || step.Reread? || step.LoseReply?
    ensures Inv(Next(s, step))
  {
    hide Inv;
    match step
    case CheckHead =>
      if s.queue[0].base.Some? && s.queue[0].base != RevisionOn(s.disk) {
        DequeueKeepsInv(s, Rereading, s.disk);
      } else {
        CheckKeepsInv(s);
      }
    case CommitHead => DequeueKeepsInv(s, Answered(Written(RevisionOf(s.queue[0].content))), Some(s.queue[0].content));
    case FailHead => DequeueKeepsInv(s, Answered(Failed("")), s.disk);
    case CommitHeadUnanswered => DequeueKeepsInv(s, Answered(Failed("")), Some(s.queue[0].content));
    case Reread => AnswerKeepsInv(s, step);
    case LoseReply => AnswerKeepsInv(s, step);
  }

  lemma StepKeepsInv(s: System, step: Step)
    requires Inv(s) && Enabled(s, step)
    ensures step.TakeReply? ==> s.editor.pass.Writing?
    ensures Inv(Next(s, step))
  {
    hide Inv;
    if IsEditorStep(step) {
      EditorStepKeepsInv(s, step);
    } else if step.TakeReply? {
      ReplyKeepsInv(s);
    } else if step.ServeRead? || step.ServeNotText? || step.ServeFailure? || step.DeliverRead? || step.DropRead? {
      ReadKeepsInv(s, step);
    } else if step.Arrive? || step.ArriveLate? || step.OtherWrites? {
      ArrivalKeepsInv(s, step);
    } else {
      GatewayKeepsInv(s, step);
    }
  }

  // ---------------------------------------------------------------- over every run

  ghost predicate IsRun(trace: seq<System>, steps: seq<Step>) {
    && |trace| == |steps| + 1
    && forall i | 0 <= i < |steps| ::
         && Enabled(trace[i], steps[i])
         && (steps[i].TakeReply? ==> trace[i].editor.pass.Writing?)
         && trace[i + 1] == Next(trace[i], steps[i])
  }

  lemma {:induction false} EveryReachableState(disk: Option<string>, trace: seq<System>, steps: seq<Step>, n: nat)
    requires IsRun(trace, steps) && trace[0] == Start(disk) && n < |trace|
    ensures Inv(trace[n])
  {
    hide Inv, Next;
    if n == 0 {
      StartsInv(disk);
    } else {
      EveryReachableState(disk, trace, steps, n - 1);
      StepKeepsInv(trace[n - 1], steps[n - 1]);
    }
  }

  ghost predicate Commits(s: System, step: Step) {
    step.CommitHead? || step.CommitHeadUnanswered?
  }

  /**
   * No lost update: whenever a write of this editor reaches the disk, late or abandoned ones included,
   * it replaces a content whose revision the write named, and which this editor had read, been shown
   * in a conflict, or written itself.
   */
  lemma SaveReplacesWhatWasSeen(disk: Option<string>, trace: seq<System>, steps: seq<Step>, n: nat)
    requires IsRun(trace, steps) && trace[0] == Start(disk) && n < |steps|
    requires Commits(trace[n], steps[n]) && trace[n].queue[0].ticket.Some?
    ensures trace[n].disk.Some?
    ensures trace[n].queue[0].base == Some(RevisionOf(trace[n].disk.value))
    ensures RevisionOf(trace[n].disk.value) in trace[n].known
    ensures trace[n + 1].disk == Some(trace[n].queue[0].content)
  {
    EveryReachableState(disk, trace, steps, n);
    assert trace[n].queue[0] in trace[n].queue;
  }

  /** `Clean(r)` always means that the draft is the content stored under `r`. */
  lemma CleanMeansStored(disk: Option<string>, trace: seq<System>, steps: seq<Step>, n: nat)
    requires IsRun(trace, steps) && trace[0] == Start(disk) && n < |trace|
    requires trace[n].editor.state.status.Clean?
    ensures trace[n].editor.state.status.revision == RevisionOf(trace[n].editor.state.draft)
  {
    EveryReachableState(disk, trace, steps, n);
  }

  /**
   * Single flight: in every run the editor sends a write only when none of its own is out, and then one. What it has
   * sent is at the Gateway, or still on its way there, at most once.
   */
  lemma OneSaveInFlight(disk: Option<string>, trace: seq<System>, steps: seq<Step>, n: nat)
    requires IsRun(trace, steps) && trace[0] == Start(disk) && n < |steps|
    ensures trace[n + 1].editor.writes != trace[n].editor.writes ==>
              && trace[n].exchange == None && !trace[n].editor.pass.Writing?
              && trace[n + 1].editor.writes == trace[n].editor.writes + 1
              && trace[n + 1].exchange == Some(Sent)
    ensures trace[n].exchange.Some? <==> trace[n].editor.pass.Writing?
    ensures forall i, k | 0 <= i < |trace[n].queue| && 0 <= k < |trace[n].queue| && trace[n].queue[i].ticket.Some? ::
              trace[n].queue[i].ticket == trace[n].queue[k].ticket ==> i == k
    ensures forall j, k | j in trace[n].abandoned && k in trace[n].queue :: j.ticket != k.ticket
  {
    EveryReachableState(disk, trace, steps, n);
    hide Reduce, Save, Resume, LoopTest, Settle, Replied, Delivered;
    EditorMoves(trace[n], steps[n]);
    SendsWhenFree(trace[n], steps[n]);
    NewWriteIsSent(trace[n], steps[n]);
  }

  lemma {:induction false} NewWriteIsSent(s: System, step: Step)
    requires Enabled(s, step) && (step.TakeReply? ==> s.editor.pass.Writing?)
    ensures Next(s, step).editor.writes != s.editor.writes ==> Next(s, step).exchange == Some(Sent)
  {
    hide Reduce, Save, Resume, LoopTest, Settle;
  }

  /** The check still stands at the commit: nothing changed the file between the two. */
  lemma CommitSeesWhatWasChecked(disk: Option<string>, trace: seq<System>, steps: seq<Step>, n: nat)
    requires IsRun(trace, steps) && trace[0] == Start(disk) && n < |steps| && Commits(trace[n], steps[n])
    ensures trace[n].checked == Some(trace[n].disk)
    ensures trace[n].queue[0].base.Some? ==> trace[n].queue[0].base == RevisionOn(trace[n].disk)
  {
    EveryReachableState(disk, trace, steps, n);
  }

  // ---------------------------------------------------------------- no save is lost

  /** A save was asked for while pass `p` was under way, and its loop test is still to come. */
  ghost predicate Noted(e: Editor, p: nat) {
    e.pending && e.passNumber == p && (e.pass.Writing? || e.pass.Looping?)
  }

  /** A loop test that goes round for a noted save: what is unsaved by then is sent. */
  ghost predicate GoesRound(s: System, step: Step, s': System, p: nat) {
    && step.TestLoop? && Noted(s.editor, p)
    && (Savable(s.editor.state.status) ==>
          && s'.editor.writes == s.editor.writes + 1
          && s'.editor.pass == Writing(Request(s.editor.state.draft, s.editor.state.status.revision)))
  }

  lemma {:induction false} NotedUntilTested(s: System, step: Step, p: nat)
    requires Inv(s) && Enabled(s, step) && (step.TakeReply? ==> s.editor.pass.Writing?) && Noted(s.editor, p)
    ensures Noted(Next(s, step).editor, p) || GoesRound(s, step, Next(s, step), p)
  {
    EditorMoves(s, step);
    hide Inv, Next;
  }

  /**
   * A `save` called while a pass is writing is not lost: in every run, before that pass is over, its loop goes round
   * once more and sends whatever is unsaved then.
   */
  lemma {:induction false} PendingSaveRuns(disk: Option<string>, trace: seq<System>, steps: seq<Step>, i: nat, n: nat, p: nat)
    requires IsRun(trace, steps) && trace[0] == Start(disk) && i <= n < |trace|
    requires Noted(trace[i].editor, p) && !Noted(trace[n].editor, p)
    ensures exists k | i <= k < n :: GoesRound(trace[k], steps[k], trace[k + 1], p)
    decreases n - i
  {
    hide Inv, Next, Noted, GoesRound;
    EveryReachableState(disk, trace, steps, i);
    NotedUntilTested(trace[i], steps[i], p);
    if !GoesRound(trace[i], steps[i], trace[i + 1], p) {
      PendingSaveRuns(disk, trace, steps, i + 1, n, p);
    }
  }

  /** Calling `save` while a pass is writing is such a note. */
  lemma SaveIsNoted(s: System)
    requires s.editor.pass.Writing? || s.editor.pass.Looping?
    ensures Noted(Next(s, CallSave).editor, s.editor.passNumber)
  {
  }

  /** No one waits for a pass that has not begun. */
  ghost predicate WaitersKnown(e: Editor) {
    forall w | 0 <= w < |e.waiters| :: e.waiters[w] <= e.passNumber
  }

  lemma {:induction false} WaitersAreKnown(disk: Option<string>, trace: seq<System>, steps: seq<Step>, n: nat)
    requires IsRun(trace, steps) && trace[0] == Start(disk) && n < |trace|
    ensures WaitersKnown(trace[n].editor)
  {
    if n > 0 {
      hide Next, WaitersKnown;
      WaitersAreKnown(disk, trace, steps, n - 1);
      StepKeepsWaiters(trace[n - 1], steps[n - 1]);
    }
  }

  lemma {:induction false} StepKeepsWaiters(s: System, step: Step)
    requires Enabled(s, step) && (step.TakeReply? ==> s.editor.pass.Writing?) && WaitersKnown(s.editor)
    ensures WaitersKnown(Next(s, step).editor)
  {
    EditorMoves(s, step);
    hide Next, Reduce, Apply, Save, Replied, LoopTest, Settle, Delivered, Savable;
    QuietBlocks(s, step);
    SaveSends(s.editor);
    if step.ResumeSave? {
      SaveSends(Waiterless(s.editor, step.w));
    } else if step.TestLoop? {
      LoopTestSends(s.editor);
    }
  }

  /**
   * A `save` called after the last loop test waits instead, and its wait is over: it may go on from then until it
   * does, and unsaved text is then sent by a pass of its own if no other pass is under way.
   */
  lemma {:induction false} WaiterStaysReady(disk: Option<string>, trace: seq<System>, steps: seq<Step>, i: nat, n: nat, w: nat)
    requires IsRun(trace, steps) && trace[0] == Start(disk) && i <= n < |trace| && MayResume(trace[i].editor, w)
    requires forall k | i <= k < n :: !steps[k].ResumeSave?
    ensures MayResume(trace[n].editor, w) && trace[n].editor.waiters[w] == trace[i].editor.waiters[w]
    ensures trace[n].editor.pass == NoPass && Savable(trace[n].editor.state.status) ==>
              var e := trace[n].editor;
              Resume(e, w).pass == Writing(Request(e.state.draft, e.state.status.revision)) && Resume(e, w).writes == e.writes + 1
    decreases n - i
  {
    hide Next, MayResume;
    if i < n {
      WaitersAreKnown(disk, trace, steps, i);
      StepKeepsWaiter(trace[i], steps[i], w);
      WaiterStaysReady(disk, trace, steps, i + 1, n, w);
    }
  }

  lemma {:induction false} StepKeepsWaiter(s: System, step: Step, w: nat)
    requires Enabled(s, step) && (step.TakeReply? ==> s.editor.pass.Writing?) && MayResume(s.editor, w) && !step.ResumeSave?
    requires WaitersKnown(s.editor)
    ensures MayResume(Next(s, step).editor, w) && Next(s, step).editor.waiters[w] == s.editor.waiters[w]
  {
    EditorMoves(s, step);
    hide Next, Reduce, Apply, Save, Replied, LoopTest, Settle, Delivered, Savable;
    QuietBlocks(s, step);
    SaveSends(s.editor);
    if step.TestLoop? {
      LoopTestSends(s.editor);
    }
  }

  // ---------------------------------------------------------------- what the owner types

  /** The steps that may put another text before the owner than the one he sees. */
  ghost predicate Replaces(s: System, step: Step)
    requires Enabled(s, step)
  {
    var (e, status) := (s.editor, s.editor.state.status);
    match step
    case Edit(_) => true
    case ChooseDisk => status.Conflict?
    case ChooseBoth => status.Conflict?
    case DeliverRead(i) =>
      s.replies[i].Read? && (e.firstRead || status.Clean? || status.Loading? || status.Unreadable?)
    case _ => false
  }

  /** And the text that they put there. */
  ghost function Replacement(s: System, step: Step): string
    requires Enabled(s, step) && Replaces(s, step)
  {
    if step.Edit? then step.draft
    else if step.DeliverRead? then s.replies[step.i].file.content
    else s.editor.state.status.disk.content
  }

  /** No block of the save loop touches the text. */
  lemma {:induction false} LoopKeepsText(s: System, step: Step)
    requires Enabled(s, step) && (step.CallSave? || step.ResumeSave? || step.TestLoop? || step.ClearPass?)
    ensures Next(s, step).editor.state.draft == s.editor.state.draft
  {
    EditorMoves(s, step);
    hide Next;
  }

  lemma {:induction false} AnswerKeepsText(s: System)
    requires Enabled(s, TakeReply) && s.editor.pass.Writing?
    ensures Next(s, TakeReply).editor.state.draft == s.editor.state.draft
  {
    EditorMoves(s, TakeReply);
    hide Next;
  }

  lemma {:induction false} ReadShowsText(s: System, i: nat)
    requires Inv(s) && Enabled(s, DeliverRead(i))
    ensures Next(s, DeliverRead(i)).editor.state.draft ==
            if Replaces(s, DeliverRead(i)) then s.replies[i].file.content else s.editor.state.draft
  {
    EditorMoves(s, DeliverRead(i));
    hide Next, OneExchange, JobsGrounded, CheckStands, NOT_TEXT;
    assert ServedTruly(s.replies[i]);
  }

  lemma {:induction false} StepShowsText(s: System, step: Step)
    requires Inv(s) && Enabled(s, step) && (step.TakeReply? ==> s.editor.pass.Writing?)
    ensures Next(s, step).editor.state.draft ==
            if Replaces(s, step) then Replacement(s, step) else s.editor.state.draft
  {
    EditorMoves(s, step);
    hide Next, Inv, Delivered, Save, Resume, LoopTest, Settle, Replied;
    if step.DeliverRead? {
      ReadShowsText(s, step.i);
    } else if step.TakeReply? {
      AnswerKeepsText(s);
    } else if step.CallSave? || step.ResumeSave? || step.TestLoop? || step.ClearPass? {
      LoopKeepsText(s, step);
    }
  }

  /**
   * In every run the editor shows what the owner typed last, or what he chose or was first shown after that: nothing
   * else, and no save, answer, loss or late read, ever takes his text away.
   */
  lemma {:induction false} LastTextIsShown(disk: Option<string>, trace: seq<System>, steps: seq<Step>, k: nat, n: nat)
    requires IsRun(trace, steps) && trace[0] == Start(disk) && k < n < |trace|
    requires Replaces(trace[k], steps[k]) && forall j | k < j < n :: !Replaces(trace[j], steps[j])
    ensures trace[n].editor.state.draft == Replacement(trace[k], steps[k])
    decreases n
  {
    hide Inv, Next, Enabled, Replaces, Replacement;
    EveryReachableState(disk, trace, steps, n - 1);
    StepShowsText(trace[n - 1], steps[n - 1]);
    if k < n - 1 {
      LastTextIsShown(disk, trace, steps, k, n - 1);
    }
  }

  /** Before any of these steps the editor is empty. */
  lemma {:induction false} NothingIsShownBefore(disk: Option<string>, trace: seq<System>, steps: seq<Step>, n: nat)
    requires IsRun(trace, steps) && trace[0] == Start(disk) && n < |trace|
    requires forall j | 0 <= j < n :: !Replaces(trace[j], steps[j])
    ensures trace[n].editor.state.draft == ""
    decreases n
  {
    hide Inv, Next, Enabled, Replaces, Replacement;
    if n > 0 {
      EveryReachableState(disk, trace, steps, n - 1);
      StepShowsText(trace[n - 1], steps[n - 1]);
      NothingIsShownBefore(disk, trace, steps, n - 1);
    }
  }

  // ---------------------------------------------------------------- a save without interference stores

  /** Nothing of the editor's is under way and nothing waits at the Gateway. */
  ghost predicate AtRest(s: System) {
    s.editor.pass.NoPass? && s.queue == [] && s.checked == None
  }

  ghost predicate Storable(s: System) {
    AtRest(s) && Savable(s.editor.state.status) && RevisionOn(s.disk) == Some(s.editor.state.status.revision)
  }

  /** The save is sent, arrives, passes its check, commits and is answered, with nothing between. */
  ghost predicate SavedBy(s: System, trace: seq<System>) {
    && IsRun(trace, [CallSave, Arrive, CheckHead, CommitHead, TakeReply]) && trace[0] == s
  }

  lemma {:induction false} CallSends(s: System)
    requires Storable(s)
    ensures var (s', r, draft) := (Next(s, CallSave), s.editor.state.status.revision, s.editor.state.draft);
            && s' == s.(editor := s'.editor, exchange := Some(Sent)) && s'.editor.state == EditorState(draft, Saving(r))
            && s'.editor.pass == Writing(Request(draft, r))
  {
  }

  lemma {:induction false} ArrivesAndPasses(s: System, request: Request)
    requires s.editor.pass == Writing(request) && s.exchange == Some(Sent) && s.queue == [] && s.checked == None
    requires RevisionOn(s.disk) == Some(request.base)
    ensures var queued := Next(s, Arrive);
            && queued == s.(exchange := Some(Queued), queue := [OwnJob(s)])
            && Next(queued, CheckHead) == queued.(checked := Some(s.disk))
  {
  }

  lemma {:induction false} HeadCommits(s: System, content: string)
    requires |s.queue| == 1 && s.queue[0].content == content && s.queue[0].ticket == Some(s.editor.writes)
    requires s.exchange == Some(Queued) && s.checked.Some?
    ensures var s' := Next(s, CommitHead);
            && s'.editor == s.editor && s'.disk == Some(content) && s'.exchange == Some(Answered(Written(RevisionOf(content))))
  {
  }

  lemma {:induction false} AnswerShowsClean(s: System, draft: string, r: Revision, base: Revision)
    requires s.editor.pass.Writing? && s.exchange == Some(Answered(Written(r)))
    requires s.editor.state == EditorState(draft, Saving(base))
    ensures Next(s, TakeReply).disk == s.disk && Next(s, TakeReply).editor.state == EditorState(draft, Clean(r))
  {
  }

  /** A save whose base is what the disk holds stores the text, and the editor then shows it clean. */
  lemma {:induction false} SaveStores(s: System, trace: seq<System>)
    requires Storable(s) && SavedBy(s, trace)
    ensures var (s', draft) := (trace[5], s.editor.state.draft);
            && s'.disk == Some(draft) && s'.editor.state == EditorState(draft, Clean(RevisionOf(draft)))
  {
    var (draft, r) := (s.editor.state.draft, s.editor.state.status.revision);
    StepByStep(s, trace);
    hide Next, Enabled, SavedBy;
    CallSends(s);
    hide Storable;
    ArrivesAndPasses(trace[1], Request(draft, r));
    HeadCommits(trace[3], draft);
    AnswerShowsClean(trace[4], draft, RevisionOf(draft), r);
  }

  lemma {:induction false} StepByStep(s: System, trace: seq<System>)
    requires SavedBy(s, trace)
    ensures |trace| == 6 && trace[0] == s && trace[3].queue != [] && trace[4].editor.pass.Writing?
    ensures Enabled(s, CallSave) && Enabled(trace[1], Arrive) && Enabled(trace[2], CheckHead)
    ensures Enabled(trace[3], CommitHead) && Enabled(trace[4], TakeReply)
    ensures trace[1] == Next(s, CallSave) && trace[2] == Next(trace[1], Arrive) && trace[3] == Next(trace[2], CheckHead)
    ensures trace[4] == Next(trace[3], CommitHead) && trace[5] == Next(trace[4], TakeReply)
  {
    hide Next;
    var steps := [CallSave, Arrive, CheckHead, CommitHead, TakeReply];
    assert steps[0] == CallSave && steps[1] == Arrive && steps[2] == CheckHead && steps[3] == CommitHead && steps[4] == TakeReply;
  }

  /** The owner's text kept in a conflict is storable when the disk still holds the file he was shown. */
  lemma {:induction false} KeepMineIsStorable(s: System)
    requires Inv(s) && AtRest(s) && s.editor.state.status.Conflict? && s.disk == Some(s.editor.state.status.disk.content)
    ensures Storable(Next(s, ChooseMine)) && Next(s, ChooseMine).editor.state.draft == s.editor.state.draft
    ensures Next(s, ChooseMine).disk == s.disk
  {
    hide JobsGrounded, OneExchange;
  }

  /** So keeping it and saving replaces that file, and the editor shows the kept text clean. */
  lemma {:induction false} KeepMineStores(s: System, trace: seq<System>)
    requires Inv(s) && AtRest(s) && s.editor.state.status.Conflict? && s.disk == Some(s.editor.state.status.disk.content)
    requires SavedBy(Next(s, ChooseMine), trace)
    ensures var (s', draft) := (trace[5], s.editor.state.draft);
            && s'.disk == Some(draft) && s'.editor.state == EditorState(draft, Clean(RevisionOf(draft)))
  {
    KeepMineIsStorable(s);
    hide Inv, Next, Storable, SavedBy;
    SaveStores(Next(s, ChooseMine), trace);
  }
}
