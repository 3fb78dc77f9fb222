/** The editor's state and its reducer (apps/web/src/lib/workspace-editor.ts). */
module WorkspaceEditor {
  import opened Wrappers

  /** The hash of a file's bytes, taken to be injective: a revision is its content under another name. */
  datatype Revision = RevisionOf(content: string)

  datatype File = File(content: string, revision: Revision)

  datatype Status =
    | Loading
    | Clean(revision: Revision)
    | Dirty(revision: Revision)
    | Saving(revision: Revision)
    | Error(revision: Revision, message: string)
    | Conflict(base: Revision, disk: File)
    | Missing
    | Unreadable(message: string)

  datatype EditorState = EditorState(draft: string, status: Status)

  datatype EditorAction =
    | Loaded(file: File)
    | Edited(draft: string)
    | SaveStarted
    | SaveApplied(revision: Revision)
    | SaveConflicted(current: File)
    | SaveFailed(message: string)
    | External(file: File)
    | ExternalMissing
    | NotReadable(message: string)
    | KeepMine
    | KeepDisk
    | KeepBoth

  const Created := EditorState("", Loading)

  function BaseRevision(status: Status): Option<Revision> {
    match status
    case Clean(r) => Some(r)
    case Dirty(r) => Some(r)
    case Saving(r) => Some(r)
    case Error(r, _) => Some(r)
    case Conflict(base, _) => Some(base)
    case _ => None
  }

  function Reduce(state: EditorState, action: EditorAction): EditorState {
    var status := state.status;
    match action
    case Loaded(file) => EditorState(file.content, Clean(file.revision))
    case Edited(draft) =>
      if state.draft == draft then state
      else if status.Conflict? || status.Missing? || status.Loading? || status.Unreadable? then state.(draft := draft)
      else EditorState(draft, Dirty(BaseRevision(status).value))
    case SaveStarted =>
      if status.Dirty? || status.Error? then state.(status := Saving(status.revision)) else state
    case SaveApplied(revision) =>
      if status.Saving? then state.(status := Clean(revision))
      else if status.Dirty? then state.(status := Dirty(revision))
      else state
    case SaveConflicted(current) =>
      if status.Saving? || status.Dirty? then state.(status := Conflict(status.revision, current)) else state
    case SaveFailed(message) =>
      if status.Saving? || status.Dirty? then state.(status := Error(status.revision, message)) else state
    case External(file) => ReduceExternal(state, file)
    case ExternalMissing => state.(status := Missing)
    case NotReadable(message) => state.(status := Unreadable(message))
    case KeepMine =>
      if status.Conflict? then state.(status := Dirty(status.disk.revision)) else state
    case KeepDisk => TakeDisk(state)
    case KeepBoth => TakeDisk(state)
  }

  function TakeDisk(state: EditorState): EditorState {
    if state.status.Conflict? then EditorState(state.status.disk.content, Clean(state.status.disk.revision)) else state
  }

  function ReduceExternal(state: EditorState, file: File): EditorState {
    match state.status
    case Saving(_) => state
    case Conflict(base, _) => state.(status := Conflict(base, file))
    case Loading => EditorState(file.content, Clean(file.revision))
    case Unreadable(_) => EditorState(file.content, Clean(file.revision))
    case Missing =>
      if state.draft == file.content then state.(status := Clean(file.revision))
      else state.(status := Conflict(file.revision, file))
    case Clean(r) =>
      if r == file.revision then state else EditorState(file.content, Clean(file.revision))
    case Dirty(r) =>
      if r == file.revision then state else state.(status := Conflict(r, file))
    case Error(r, _) =>
      if r == file.revision then state else state.(status := Conflict(r, file))
  }

  /** Statuses in which the draft may hold text that exists nowhere else. */
  predicate HoldsUnsavedText(status: Status) {
    status.Dirty? || status.Saving? || status.Error? || status.Conflict? || status.Missing?
  }

  /** No reply and no outside change replaces an unsaved draft; only the owner's own choice, or a first read, does. */
  lemma DraftSurvives(state: EditorState, action: EditorAction)
    requires HoldsUnsavedText(state.status)
    ensures Reduce(state, action).draft != state.draft ==>
              action.Loaded? || action.Edited? || ((action.KeepDisk? || action.KeepBoth?) && state.status.Conflict?)
    ensures action.External? || action.ExternalMissing? || action.SaveStarted? || action.SaveApplied? || action.SaveConflicted? || action.SaveFailed? ==>
              Reduce(state, action).draft == state.draft
  {
  }

  /** What the owner types is always the draft; text with a base becomes unsaved on that base, also while a save is out. */
  lemma EditTakes(state: EditorState, draft: string)
    ensures var (status, next) := (state.status, Reduce(state, Edited(draft)));
            && next.draft == draft
            && (draft == state.draft ==> next == state)
            && (draft != state.draft && (status.Clean? || status.Dirty? || status.Saving? || status.Error?) ==>
                  next.status == Dirty(status.revision))
            && (status.Conflict? || status.Missing? || status.Loading? || status.Unreadable? ==> next.status == status)
  {
  }

  /** How a save that was refused or failed is shown: the text and its base stay, with what stood in the way. */
  lemma FailureIsShown(state: EditorState, current: File, message: string)
    requires state.status.Saving? || state.status.Dirty?
    ensures Reduce(state, SaveConflicted(current)) == EditorState(state.draft, Conflict(state.status.revision, current))
    ensures Reduce(state, SaveFailed(message)) == EditorState(state.draft, Error(state.status.revision, message))
  {
  }

  /**
   * How a file read from the disk is shown: over text without changes it is the text; beside unsaved text of another
   * revision it is a conflict on that text's own base; while a save is out it waits for the answer.
   */
  lemma NewsIsShown(state: EditorState, file: File)
    ensures var (status, next) := (state.status, Reduce(state, External(file)));
            && (status.Loading? || status.Unreadable? || (status.Clean? && status.revision != file.revision) ==>
                  next == EditorState(file.content, Clean(file.revision)))
            && ((status.Dirty? || status.Error?) && status.revision != file.revision ==>
                  next == EditorState(state.draft, Conflict(status.revision, file)))
            && ((status.Clean? || status.Dirty? || status.Error?) && status.revision == file.revision ==> next == state)
            && (status.Saving? ==> next == state)
            && (status.Conflict? ==> next == EditorState(state.draft, Conflict(status.base, file)))
            && (status.Missing? ==>
                  next == EditorState(state.draft, if state.draft == file.content then Clean(file.revision) else Conflict(file.revision, file)))
  {
  }

  /** A file that is gone, or is no text, is shown as that, with the draft as it was. */
  lemma LossIsShown(state: EditorState, message: string)
    ensures Reduce(state, ExternalMissing) == EditorState(state.draft, Missing)
    ensures Reduce(state, NotReadable(message)) == EditorState(state.draft, Unreadable(message))
  {
  }

  /** The owner's way out of a conflict: his text, unsaved on the revision he was shown, or the text he was shown. */
  lemma ConflictIsSettled(state: EditorState)
    requires state.status.Conflict?
    ensures var shown := state.status.disk;
            && Reduce(state, KeepMine) == EditorState(state.draft, Dirty(shown.revision))
            && Reduce(state, KeepDisk) == EditorState(shown.content, Clean(shown.revision))
            && Reduce(state, KeepBoth) == EditorState(shown.content, Clean(shown.revision))
  {
  }
}

/** The save loop of the editor component (apps/web/src/components/file-editor.tsx). */
module FileEditor {
  import opened Wrappers
  import opened WorkspaceEditor

  datatype Request = Request(content: string, base: Revision)

  datatype Outcome = Written(revision: Revision) | Refused(current: File) | Failed(message: string)

  /** Where the pass held by `writeRef` is: its write is out, its loop test is due, or it has settled and `save` is yet to clear it. */
  datatype Pass = NoPass | Writing(request: Request) | Looping | Settling

  /** `waiters`: the pass each blocked `save` call is waiting for. `writes` is history: the writes sent so far. */
  datatype Editor = Editor(
    state: EditorState, pass: Pass, pending: bool, passNumber: nat, waiters: seq<nat>, firstRead: bool, writes: nat)

  datatype ReadReply = Read(file: File) | NotFound | NotText | ReadFailed

  const Opened := Editor(Created, NoPass, false, 0, [], true, 0)

  predicate Savable(status: Status) {
    status.Dirty? || status.Error?
  }

  function Apply(e: Editor, action: EditorAction): Editor {
    e.(state := Reduce(e.state, action))
  }

  /** `writeDraft` up to its wait. */
  function WriteDraft(e: Editor): Editor {
    if !Savable(e.state.status) then e.(pass := Looping)
    else Apply(e, SaveStarted).(pass := Writing(Request(e.state.draft, e.state.status.revision)), writes := e.writes + 1)
  }

  function StartPass(e: Editor): Editor {
    WriteDraft(e.(pending := false, passNumber := e.passNumber + 1))
  }

  /** A call of `save`, and a waiter's return to its loop test. */
  function Save(e: Editor): Editor {
    if e.pass != NoPass then e.(pending := true, waiters := e.waiters + [e.passNumber])
    else if !Savable(e.state.status) then e
    else StartPass(e)
  }

  predicate MayResume(e: Editor, w: nat) {
    w < |e.waiters| && (e.waiters[w] < e.passNumber || e.pass.NoPass? || e.pass.Settling?)
  }

  function Resume(e: Editor, w: nat): Editor
    requires MayResume(e, w)
  {
    Save(e.(waiters := e.waiters[..w] + e.waiters[w + 1..]))
  }

  function Replied(e: Editor, outcome: Outcome): Editor
    requires e.pass.Writing?
  {
    Apply(e, match outcome
             case Written(r) => SaveApplied(r)
             case Refused(current) => SaveConflicted(current)
             case Failed(message) => SaveFailed(message)).(pass := Looping)
  }

  function LoopTest(e: Editor): Editor
    requires e.pass.Looping?
  {
    if e.pending then WriteDraft(e.(pending := false)) else e.(pass := Settling)
  }

  function Settle(e: Editor): Editor
    requires e.pass.Settling?
  {
    e.(pass := NoPass, pending := false)
  }

  const NOT_TEXT := "Not a text file. The editor opens UTF-8 text only."

  function Delivered(e: Editor, reply: ReadReply): Editor {
    match reply
    case Read(file) => Apply(e, if e.firstRead then Loaded(file) else External(file)).(firstRead := false)
    case NotFound => Apply(e, ExternalMissing)
    case NotText => Apply(e, NotReadable(NOT_TEXT))
    case ReadFailed => e
  }

  /**
   * The component's refs, with one method for each stretch of code between two waits. `sent` and `answered` are
   * history: every write it has sent, and how many of them have been answered.
   */
  class FileEditorRefs {
    var stateRef: EditorState
    var writeRef: Pass
    var pendingRef: bool
    var passNumber: nat
    var waiters: seq<nat>
    var firstReadRef: bool
    ghost var sent: seq<Request>
    ghost var answered: nat

    ghost function View(): Editor
      reads this
    {
      Editor(stateRef, writeRef, pendingRef, passNumber, waiters, firstReadRef, |sent|)
    }

    /** All writes but the one that is out have been answered, and a state that is saving is saving that one. */
    ghost predicate Valid()
      reads this
    {
      && |sent| == answered + (if writeRef.Writing? then 1 else 0)
      && (writeRef.Writing? ==> sent[|sent| - 1] == writeRef.request)
      && (stateRef.status.Saving? ==> writeRef == Writing(Request(stateRef.draft, stateRef.status.revision)))
    }

    constructor ()
      ensures Valid() && View() == Opened && sent == []
    {
      stateRef, writeRef, pendingRef, passNumber, waiters, firstReadRef := Created, NoPass, false, 0, [], true;
      sent, answered := [], 0;
    }

    /** An action of the owner's, or of a block below. */
    method Dispatch(action: EditorAction)
      requires !action.SaveStarted?
      requires Valid()
      requires stateRef.status.Saving? ==> !action.SaveApplied? && !action.SaveConflicted? && !action.SaveFailed?
      modifies this`stateRef
      ensures Valid() && View() == Apply(old(View()), action)
      ensures action.Edited? ==> stateRef.draft == action.draft
    {
      stateRef := Reduce(stateRef, action);
    }

    /** The draft as it is goes out when there is something to save. */
    method SendDraft()
      requires Valid() && !writeRef.Writing?
      modifies this`stateRef, this`writeRef, this`sent
      ensures Valid() && View() == WriteDraft(old(View()))
      ensures sent == if Savable(old(stateRef.status)) then old(sent) + [Request(old(stateRef.draft), old(stateRef.status.revision))] else old(sent)
    {
      if !stateRef.status.Dirty? && !stateRef.status.Error? {
        writeRef := Looping;
        return;
      }
      var request := Request(stateRef.draft, stateRef.status.revision);
      stateRef := Reduce(stateRef, SaveStarted);
      writeRef := Writing(request);
      sent := sent + [request];
    }

    /** While a pass is out a save sends nothing: it is noted and waits. Otherwise unsaved text is sent at once. */
    method RequestSave()
      requires Valid()
      modifies this
      ensures Valid() && View() == Save(old(View()))
      ensures old(writeRef) != NoPass ==>
                && pendingRef && waiters == old(waiters) + [passNumber]
                && sent == old(sent) && stateRef == old(stateRef) && writeRef == old(writeRef) && answered == old(answered)
      ensures old(writeRef) == NoPass && Savable(old(stateRef.status)) ==>
                && sent == old(sent) + [Request(old(stateRef.draft), old(stateRef.status.revision))]
                && writeRef == Writing(sent[|sent| - 1]) && stateRef.status.Saving?
      ensures old(writeRef) == NoPass && !Savable(old(stateRef.status)) ==> sent == old(sent) && stateRef == old(stateRef) && writeRef == NoPass
    {
      if writeRef != NoPass {
        pendingRef := true;
        waiters := waiters + [passNumber];
        return;
      }
      if !stateRef.status.Dirty? && !stateRef.status.Error? {
        return;
      }
      passNumber := passNumber + 1;
      pendingRef := false;
      SendDraft();
    }

    method ResumeWaiter(w: nat)
      requires Valid() && MayResume(View(), w)
      modifies this
      ensures Valid() && View() == Resume(old(View()), w)
      ensures old(writeRef) != NoPass ==> sent == old(sent)
    {
      waiters := waiters[..w] + waiters[w + 1..];
      RequestSave();
    }

    /** The reply saves the draft it was for: a draft edited meanwhile stays unsaved, on the new revision. */
    method WriteReplied(outcome: Outcome)
      requires Valid() && writeRef.Writing?
      modifies this`stateRef, this`writeRef, this`answered
      ensures Valid() && View() == Replied(old(View()), outcome)
      ensures answered == old(answered) + 1 && !writeRef.Writing? && stateRef.draft == old(stateRef.draft)
      ensures outcome.Written? && old(stateRef.status.Saving?) ==>
                stateRef.status == Clean(outcome.revision) && stateRef.draft == sent[|sent| - 1].content
      ensures outcome.Written? && old(stateRef.status.Dirty?) ==> stateRef.status == Dirty(outcome.revision)
    {
      match outcome {
        case Written(revision) => stateRef := Reduce(stateRef, SaveApplied(revision));
        case Refused(current) => stateRef := Reduce(stateRef, SaveConflicted(current));
        case Failed(message) => stateRef := Reduce(stateRef, SaveFailed(message));
      }
      writeRef := Looping;
      answered := answered + 1;
    }

    /** The loop goes round, and sends, exactly when a save was asked for meanwhile and text is unsaved. */
    method TestLoop()
      requires Valid() && writeRef.Looping?
      modifies this
      ensures Valid() && View() == LoopTest(old(View()))
      ensures !pendingRef
      ensures sent == if old(pendingRef) && Savable(old(stateRef.status))
                      then old(sent) + [Request(old(stateRef.draft), old(stateRef.status.revision))] else old(sent)
    {
      if pendingRef {
        pendingRef := false;
        SendDraft();
      } else {
        writeRef := Settling;
      }
    }

    method ClearPass()
      requires Valid() && writeRef.Settling?
      modifies this
      ensures Valid() && View() == Settle(old(View()))
      ensures sent == old(sent)
    {
      writeRef := NoPass;
      pendingRef := false;
    }

    method ReadReplied(reply: ReadReply)
      requires Valid() && (firstReadRef ==> !stateRef.status.Saving?)
      modifies this
      ensures Valid() && View() == Delivered(old(View()), reply)
      ensures sent == old(sent) && (old(stateRef.status.Saving?) && reply.Read? ==> stateRef == old(stateRef))
    {
      match reply {
        case Read(file) =>
          if firstReadRef {
            stateRef := Reduce(stateRef, Loaded(file));
          } else {
            stateRef := Reduce(stateRef, External(file));
          }
          firstReadRef := false;
        case NotFound => stateRef := Reduce(stateRef, ExternalMissing);
        case NotText => stateRef := Reduce(stateRef, NotReadable(NOT_TEXT));
        case ReadFailed =>
      }
    }
  }
}
