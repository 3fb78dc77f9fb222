/** What every step of the scheduler keeps, and what follows for every run of it. */
module SchedulerInvariants {
  import opened Wrappers
  import opened Occurrences
  import opened ScheduleTables
  import opened ClaimHistory
  import opened SchedulerSteps

  /** The work the scheduler holds: queued, or in the active map under its run's id. */
  ghost predicate Holds(c: Core, e: Pending) {
    e in c.pending || (e.runId in c.active && c.active[e.runId].pending == e)
  }

  ghost predicate HoldsFor(c: Core, id: Id) {
    exists e :: Holds(c, e) && e.schedule.id == id
  }

  ghost predicate Queued(c: Core, r: Id) {
    exists p :: p in c.pending && p.runId == r
  }

  /** Each entry sits in one place, and the active map is keyed by run. */
  ghost predicate Placed(c: Core) {
    && (forall i, j | 0 <= i < j < |c.pending| :: c.pending[i] != c.pending[j])
    && (forall r | r in c.active :: c.active[r].pending.runId == r)
    && (forall p | p in c.pending :: p.runId !in c.active)
  }

  /** The owned ids are exactly the schedules of the held work, one entry a schedule. */
  ghost predicate OwnedExactly(c: Core) {
    && (forall e, f | Holds(c, e) && Holds(c, f) && e.schedule.id == f.schedule.id :: e == f)
    && (forall id :: id in c.owned <==> HoldsFor(c, id))
  }

  ghost predicate HasRow(t: Tables, e: Pending) {
    e.runId in t.runs && t.runs[e.runId].scheduleId == e.schedule.id && t.runs[e.runId].claimed == e.schedule
  }

  /** A run row is `running` exactly while its work is queued or executing. */
  ghost predicate RunningExactly(c: Core) {
    && (forall e | Holds(c, e) :: HasRow(c.tables, e))
    && (forall r | r in c.tables.runs ::
          c.tables.runs[r].status == RunStatus.Running <==> Executing(c, r) || Queued(c, r))
  }

  ghost predicate Consistent(c: Core) {
    Placed(c) && OwnedExactly(c) && RunningExactly(c)
  }

  /** A cancelling stop leaves nothing queued and has asked everything active to end. */
  ghost predicate CancelAsked(cfg: Config, c: Core) {
    c.lifecycle.Stopping? && cfg.policy == Cancel ==>
      c.pending == [] && forall r | r in c.active :: c.active[r].abort.Some?
  }

  ghost predicate Idle(c: Core) {
    c.active == map[] && c.pending == []
  }

  ghost predicate StopPhased(c: Core) {
    && (c.stop == NotAsked <==> c.lifecycle.Idle? || c.lifecycle == Lifecycle.Running)
    && (c.stop == Done <==> c.lifecycle.Stopped?)
    && (c.stop == Waiting ==> !Idle(c))
    && (c.stop == Released || c.stop == Done ==> Idle(c))
  }

  /** A started scheduler always has a wake-up set or a scan about to set one; any other never has one. */
  ghost predicate WakePhased(c: Core) {
    && (c.lifecycle == Lifecycle.Running ==> c.wake.Some? || c.settlingScans > 0)
    && (c.wake.Some? ==> c.lifecycle == Lifecycle.Running)
  }

  ghost predicate CompletedCleanly(t: Tables) {
    forall r | r in t.runs && t.runs[r].status == Completed :: t.runs[r].exitCode == Some(0) && t.runs[r].error == None
  }

  ghost predicate Inv(cfg: Config, c: Core) {
    && HistoryKept(cfg.cron, c.tables)
    && Consistent(c)
    && |c.active| <= cfg.concurrency
    && CancelAsked(cfg, c)
    && StopPhased(c)
    && WakePhased(c)
    && CompletedCleanly(c.tables)
  }

  /** The part of `Inv` a block keeps between its own statements. */
  ghost predicate Sound(cfg: Config, c: Core) {
    && HistoryKept(cfg.cron, c.tables)
    && Consistent(c)
    && |c.active| <= cfg.concurrency
    && CompletedCleanly(c.tables)
  }

  /** Nothing waits in the queue while a slot is free. */
  ghost predicate WorkConserving(cfg: Config, c: Core) {
    MayDispatch(cfg, c.lifecycle) && c.pending != [] ==> |c.active| >= cfg.concurrency
  }

  ghost predicate SameSnapshot(run: RunRow, later: RunRow) {
    later == run.(status := later.status, exitCode := later.exitCode, error := later.error)
  }

  /**
   * What happens to stored rows from one state to a later one: a run row keeps what it was created
   * with and changes no more once it is terminal, a changed schedule row has a greater revision, and
   * no row becomes `completed` or `interrupted` unless `endings` holds that status.
   */
  ghost predicate TablesMove(t: Tables, t': Tables, endings: set<RunStatus>) {
    && (forall r | r in t.runs :: && r in t'.runs
                                  && SameSnapshot(t.runs[r], t'.runs[r])
                                  && (t.runs[r].status != RunStatus.Running ==> t'.runs[r] == t.runs[r]))
    && (forall id | id in t.schedules ::
          && id in t'.schedules
          && (t'.schedules[id] == t.schedules[id] || t'.schedules[id].def.revision > t.schedules[id].def.revision))
    && (forall r | r in t'.runs && t'.runs[r].status !in endings && (t'.runs[r].status == Completed || t'.runs[r].status == Interrupted) ::
          r in t.runs && t.runs[r].status == t'.runs[r].status)
  }

  lemma MovesCompose(t: Tables, t': Tables, t'': Tables, endings: set<RunStatus>)
    requires TablesMove(t, t', endings) && TablesMove(t', t'', endings)
    ensures TablesMove(t, t'', endings)
  {
  }

  lemma MovesWiden(t: Tables, t': Tables, endings: set<RunStatus>, wider: set<RunStatus>)
    requires TablesMove(t, t', endings) && endings <= wider
    ensures TablesMove(t, t', wider)
  {
  }

  // ---------------------------------------------------------------- one block at a time

  lemma FinishKeepsHistory(cron: CronParser, t: Tables, runId: Id, outcome: Outcome)
    requires HistoryKept(cron, t)
    ensures HistoryKept(cron, Finished(t, runId, outcome))
  {
    SettlingKeepsHistory(cron, t, Finished(t, runId, outcome));
  }

  lemma RecoveryMakesInv(cfg: Config, stored: Tables)
    requires ValidConfig(cfg) && HistoryKept(cfg.cron, stored) && CompletedCleanly(stored)
    ensures Inv(cfg, Fresh(stored))
    ensures WorkConserving(cfg, Fresh(stored))
  {
    RecoveryKeepsHistory(cfg.cron, stored);
    FreshIsConsistent(stored);
  }

  lemma RecoveryKeepsHistory(cron: CronParser, stored: Tables)
    requires HistoryKept(cron, stored)
    ensures HistoryKept(cron, InterruptRunning(stored))
  {
    var t := InterruptRunning(stored);
    forall r | r in stored.runs
      ensures t.runs[r] == stored.runs[r].(status := t.runs[r].status, exitCode := t.runs[r].exitCode, error := t.runs[r].error)
    {
    }
    SettlingKeepsHistory(cron, stored, t);
  }

  lemma FreshIsConsistent(stored: Tables)
    ensures Consistent(Fresh(stored))
  {
    var c := Fresh(stored);
    assert forall e :: !Holds(c, e);
    assert OwnedExactly(c);
    assert forall r :: !Executing(c, r) && !Queued(c, r);
  }

  lemma OwnedAfterAdding(c: Core, c': Core, p: Pending)
    requires OwnedExactly(c) && p.schedule.id !in c.owned
    requires forall e :: Holds(c', e) <==> Holds(c, e) || e == p
    requires c'.owned == c.owned + {p.schedule.id}
    ensures OwnedExactly(c')
  {
    forall e | Holds(c, e)
      ensures e.schedule.id != p.schedule.id
    {
      assert HoldsFor(c, e.schedule.id);
    }
    forall id
      ensures id in c'.owned <==> HoldsFor(c', id)
    {
      if id in c.owned {
        var e :| Holds(c, e) && e.schedule.id == id;
        assert Holds(c', e);
      } else if id == p.schedule.id {
        assert Holds(c', p);
      }
    }
  }

  lemma OwnedAfterRemoving(c: Core, c': Core, p: Pending)
    requires OwnedExactly(c) && Holds(c, p)
    requires forall e :: Holds(c', e) <==> Holds(c, e) && e != p
    requires c'.owned == c.owned - {p.schedule.id}
    ensures OwnedExactly(c')
  {
    forall id
      ensures id in c'.owned <==> HoldsFor(c', id)
    {
      if id in c'.owned {
        var e :| Holds(c, e) && e.schedule.id == id;
        assert Holds(c', e);
      }
    }
  }

  lemma OwnedAfterMoving(c: Core, c': Core)
    requires OwnedExactly(c)
    requires forall e :: Holds(c', e) <==> Holds(c, e)
    requires c'.owned == c.owned
    ensures OwnedExactly(c')
  {
    forall id
      ensures id in c'.owned <==> HoldsFor(c', id)
    {
      if id in c'.owned {
        var e :| Holds(c, e) && e.schedule.id == id;
        assert Holds(c', e);
      }
    }
  }

  /** The same work in the same places, over the same runs. */
  ghost predicate SameWork(c: Core, c': Core) {
    && c'.pending == c.pending && c'.owned == c.owned && c'.tables.runs == c.tables.runs
    && c'.active.Keys == c.active.Keys
    && forall r | r in c.active :: c'.active[r].pending == c.active[r].pending && c'.active[r].settled == c.active[r].settled
  }

  lemma {:induction false} SameWorkStaysConsistent(c: Core, c': Core)
    requires Consistent(c) && SameWork(c, c')
    ensures Consistent(c')
  {
    assert forall e :: Holds(c', e) <==> Holds(c, e);
    OwnedAfterMoving(c, c');
    assert forall r :: Queued(c', r) <==> Queued(c, r);
    assert forall r :: Executing(c', r) <==> Executing(c, r);
    assert forall e :: HasRow(c'.tables, e) <==> HasRow(c.tables, e);
    hide Holds, HoldsFor, Queued, HasRow, OwnedExactly;
  }

  /** One run is held by one entry. */
  lemma RunHeldOnce(c: Core, e: Pending, f: Pending)
    requires Consistent(c) && Holds(c, e) && Holds(c, f) && e.runId == f.runId
    ensures e == f
  {
    assert HasRow(c.tables, e) && HasRow(c.tables, f);
  }

  lemma EnqueueKeepsConsistent(c: Core, t: Tables, p: Pending)
    requires Consistent(c)
    requires p.schedule.id !in c.owned
    requires p.runId !in c.tables.runs && t.runs.Keys == c.tables.runs.Keys + {p.runId}
    requires forall r | r in c.tables.runs :: t.runs[r] == c.tables.runs[r]
    requires HasRow(t, p) && t.runs[p.runId].status == RunStatus.Running
    ensures Consistent(Enqueue(c, t, p))
  {
    var c' := Enqueue(c, t, p);
    forall e | Holds(c, e)
      ensures e.runId != p.runId && HasRow(c.tables, e) && HasRow(t, e)
    {
    }
    assert !Holds(c, p);
    assert Placed(c') by {
      forall r | r in c.active
        ensures r != p.runId
      {
        assert Holds(c, c.active[r].pending);
      }
    }
    OwnedAfterAdding(c, c', p);
    forall r
      ensures Queued(c', r) <==> Queued(c, r) || r == p.runId
    {
      if Queued(c, r) {
        var q :| q in c.pending && q.runId == r;
        assert q in c'.pending;
      } else if r == p.runId {
        assert p in c'.pending;
      }
    }
  }

  /** The queue without its head. */
  lemma TailOfQueue(c: Core, rest: seq<Pending>)
    requires Consistent(c) && c.pending != [] && rest == c.pending[1..]
    ensures forall q :: q in rest <==> q in c.pending && q != c.pending[0]
    ensures forall i, j | 0 <= i < j < |rest| :: rest[i] != rest[j]
    ensures forall q | q in rest :: q.runId != c.pending[0].runId
  {
    forall q
      ensures q in rest <==> q in c.pending && q != c.pending[0]
    {
      if q in rest {
        var i :| 0 <= i < |rest| && rest[i] == q;
        assert c.pending[0] != c.pending[i + 1];
      } else if q in c.pending {
        var i :| 0 <= i < |c.pending| && c.pending[i] == q;
      }
    }
    forall q | q in rest
      ensures q.runId != c.pending[0].runId
    {
      if q.runId == c.pending[0].runId {
        RunHeldOnce(c, q, c.pending[0]);
      }
    }
  }

  lemma QueuedWithoutHead(c: Core, c': Core)
    requires Consistent(c) && c.pending != [] && c'.pending == c.pending[1..]
    ensures forall r :: Queued(c, r) <==> Queued(c', r) || r == c.pending[0].runId
    ensures !Queued(c', c.pending[0].runId)
  {
    TailOfQueue(c, c'.pending);
    forall r
      ensures Queued(c, r) <==> Queued(c', r) || r == c.pending[0].runId
    {
      if Queued(c, r) {
        var q :| q in c.pending && q.runId == r;
        assert q == c.pending[0] || q in c'.pending;
      }
      if Queued(c', r) {
        var q :| q in c'.pending && q.runId == r;
        assert q in c.pending;
      }
      if r == c.pending[0].runId {
        assert c.pending[0] in c.pending;
      }
    }
  }

  /** Starting the head moves an entry and changes no one's ownership. */
  lemma DispatchKeepsConsistent(cfg: Config, c: Core, cwdExists: string -> bool)
    requires Consistent(c) && c.pending != []
    ensures Consistent(Dispatch(cfg, c, cwdExists))
    ensures forall e :: Holds(Dispatch(cfg, c, cwdExists), e) <==> Holds(c, e)
    ensures |Dispatch(cfg, c, cwdExists).active| == |c.active| + 1
  {
    var c' := Dispatch(cfg, c, cwdExists);
    var p := c.pending[0];
    assert p in c.pending && Holds(c, p) && Queued(c, p.runId);
    TailOfQueue(c, c'.pending);
    assert c'.active.Keys == c.active.Keys + {p.runId};
    DispatchMovesHead(cfg, c, cwdExists);
    hide Holds, Placed;
    OwnedAfterMoving(c, c');
    DispatchKeepsRows(cfg, c, cwdExists);
  }

  lemma {:induction false} DispatchMovesHead(cfg: Config, c: Core, cwdExists: string -> bool)
    requires Consistent(c) && c.pending != []
    ensures Placed(Dispatch(cfg, c, cwdExists))
    ensures forall e :: Holds(Dispatch(cfg, c, cwdExists), e) <==> Holds(c, e)
  {
    hide RunningExactly, OwnedExactly;
    var p := c.pending[0];
    assert p in c.pending && Holds(c, p);
    TailOfQueue(c, c.pending[1..]);
  }

  lemma DispatchKeepsRows(cfg: Config, c: Core, cwdExists: string -> bool)
    requires Consistent(c) && c.pending != []
    requires forall e :: Holds(Dispatch(cfg, c, cwdExists), e) <==> Holds(c, e)
    ensures RunningExactly(Dispatch(cfg, c, cwdExists))
  {
    var c' := Dispatch(cfg, c, cwdExists);
    var p := c.pending[0];
    assert p in c.pending && Holds(c, p) && HasRow(c.tables, p);
    QueuedWithoutHead(c, c');
    forall e | Holds(c', e)
      ensures HasRow(c'.tables, e)
    {
      assert HasRow(c.tables, e);
    }
    forall r | r in c'.tables.runs
      ensures c'.tables.runs[r].status == RunStatus.Running <==> Executing(c', r) || Queued(c', r)
    {
      if r != p.runId {
        assert c'.tables.runs[r] == c.tables.runs[r];
        assert Executing(c', r) <==> Executing(c, r);
      }
    }
  }

  lemma {:induction false} EndKeepsConsistent(c: Core, runId: Id, t: Tables, outcome: Outcome)
    requires Consistent(c) && Executing(c, runId)
    requires outcome.status != RunStatus.Running
    requires t == Finished(c.tables, runId, outcome)
    ensures Consistent(c.(active := c.active[runId := c.active[runId].(settled := true)], tables := t))
    ensures runId in c.tables.runs && t.runs == c.tables.runs[runId := Settled(c.tables.runs[runId], outcome)]
  {
    var c' := c.(active := c.active[runId := c.active[runId].(settled := true)], tables := t);
    EndFreezesRow(c, runId, t, outcome);
    assert Placed(c') && forall e :: Holds(c', e) <==> Holds(c, e);
    hide Holds, Placed;
    OwnedAfterMoving(c, c');
    hide OwnedExactly;
    EndKeepsRunning(c, c', runId, outcome);
  }

  lemma {:induction false} EndFreezesRow(c: Core, runId: Id, t: Tables, outcome: Outcome)
    requires Consistent(c) && Executing(c, runId) && t == Finished(c.tables, runId, outcome)
    ensures runId in c.tables.runs && t.runs == c.tables.runs[runId := Settled(c.tables.runs[runId], outcome)]
    ensures !Queued(c, runId)
  {
    hide OwnedExactly;
    assert Holds(c, c.active[runId].pending) && HasRow(c.tables, c.active[runId].pending);
  }

  lemma {:induction false} EndKeepsRunning(c: Core, c': Core, runId: Id, outcome: Outcome)
    requires RunningExactly(c) && Executing(c, runId) && !Queued(c, runId) && runId in c.tables.runs
    requires outcome.status != RunStatus.Running && c'.pending == c.pending
    requires c'.active == c.active[runId := c.active[runId].(settled := true)]
    requires c'.tables.runs == c.tables.runs[runId := Settled(c.tables.runs[runId], outcome)]
    requires forall e :: Holds(c', e) <==> Holds(c, e)
    ensures RunningExactly(c')
  {
    hide Holds;
    assert forall r :: Queued(c', r) <==> Queued(c, r);
    hide Queued;
    assert forall r | r != runId :: Executing(c', r) <==> Executing(c, r);
  }

  lemma ReleaseKeepsConsistent(c: Core, runId: Id)
    requires Consistent(c) && runId in c.active && c.active[runId].settled
    ensures Consistent(c.(active := c.active - {runId}, owned := c.owned - {c.active[runId].pending.schedule.id}))
  {
    var e := c.active[runId].pending;
    var c' := c.(active := c.active - {runId}, owned := c.owned - {e.schedule.id});
    assert Holds(c, e);
    assert forall f :: Holds(c', f) <==> Holds(c, f) && f != e;
    OwnedAfterRemoving(c, c', e);
    assert forall r :: Queued(c', r) <==> Queued(c, r);
    assert forall r :: Executing(c', r) <==> Executing(c, r);
  }

  lemma InterruptHeadKeepsConsistent(c: Core, c': Core)
    requires Consistent(c) && c.pending != []
    requires c' == c.(pending := c.pending[1..], owned := c.owned - {c.pending[0].schedule.id},
                      tables := Finished(c.tables, c.pending[0].runId, Outcome(Interrupted, None, Some(StoppedBeforeExecution))))
    ensures Consistent(c')
    ensures c.pending[0].runId in c.tables.runs
    ensures c'.tables.runs == c.tables.runs[c.pending[0].runId :=
              Settled(c.tables.runs[c.pending[0].runId], Outcome(Interrupted, None, Some(StoppedBeforeExecution)))]
  {
    var p := c.pending[0];
    assert p in c.pending && Holds(c, p) && HasRow(c.tables, p) && Queued(c, p.runId);
    TailOfQueue(c, c'.pending);
    QueuedWithoutHead(c, c');
    assert forall f :: Holds(c', f) <==> Holds(c, f) && f != p;
    OwnedAfterRemoving(c, c', p);
    assert forall r :: Executing(c', r) <==> Executing(c, r);
    assert RunningExactly(c');
  }

  // ---------------------------------------------------------------- whole blocks

  lemma FinishedMoves(t: Tables, runId: Id, outcome: Outcome)
    ensures TablesMove(t, Finished(t, runId, outcome), {outcome.status})
  {
  }

  lemma DispatchKeepsSound(cfg: Config, c: Core, cwdExists: string -> bool)
    requires Sound(cfg, c) && CanDispatch(cfg, c)
    ensures Sound(cfg, Dispatch(cfg, c, cwdExists))
    ensures TablesMove(c.tables, Dispatch(cfg, c, cwdExists).tables, {})
  {
    hide HistoryKept, Consistent;
    var p := c.pending[0];
    var refusal := StartRefusal(cfg, p.schedule, cwdExists);
    DispatchKeepsConsistent(cfg, c, cwdExists);
    if refusal.Some? {
      FinishKeepsHistory(cfg.cron, c.tables, p.runId, Outcome(Failed, None, refusal));
      FinishedMoves(c.tables, p.runId, Outcome(Failed, None, refusal));
      assert TablesMove(c.tables, Dispatch(cfg, c, cwdExists).tables, {});
    }
  }

  lemma {:induction false} DispatchAllKeepsSound(cfg: Config, c: Core, cwdExists: string -> bool)
    requires Sound(cfg, c)
    ensures var c' := DispatchAll(cfg, c, cwdExists);
            && Sound(cfg, c')
            && TablesMove(c.tables, c'.tables, {})
            && c' == c.(pending := c'.pending, active := c'.active, tables := c'.tables)
            && |c'.pending| + |c'.active| == |c.pending| + |c.active|
            && (c'.pending != [] ==> |c'.active| >= cfg.concurrency)
    decreases |c.pending|
  {
    if CanDispatch(cfg, c) {
      var next := Dispatch(cfg, c, cwdExists);
      DispatchKeepsSound(cfg, c, cwdExists);
      DispatchKeepsConsistent(cfg, c, cwdExists);
      DispatchAllKeepsSound(cfg, next, cwdExists);
      MovesCompose(c.tables, next.tables, DispatchAll(cfg, next, cwdExists).tables, {});
    }
  }

  lemma PumpKeepsSound(cfg: Config, c: Core, cwdExists: string -> bool)
    requires Sound(cfg, c)
    ensures var c' := Pump(cfg, c, cwdExists);
            && Sound(cfg, c')
            && TablesMove(c.tables, c'.tables, {})
            && c' == c.(pending := c'.pending, active := c'.active, tables := c'.tables, stop := c'.stop)
            && (c'.stop != c.stop ==> c.stop == Waiting && c'.stop == Released && Idle(c'))
            && |c'.pending| + |c'.active| == |c.pending| + |c.active|
            && WorkConserving(cfg, c')
            && (!MayDispatch(cfg, c.lifecycle) ==> c' == c)
            && (MayDispatch(cfg, c.lifecycle) && c'.stop == Waiting ==> !Idle(c'))
  {
    hide HistoryKept;
    if MayDispatch(cfg, c.lifecycle) {
      DispatchAllKeepsSound(cfg, c, cwdExists);
    }
  }

  /** A run created for a schedule nobody owns joins the queue. */
  lemma EnqueueKeepsSound(cfg: Config, c: Core, t: Tables, p: Pending)
    requires Sound(cfg, c) && HistoryKept(cfg.cron, t) && CompletedCleanly(t)
    requires p.schedule.id !in c.owned && p.runId !in c.tables.runs
    requires p.schedule.id in t.schedules
    requires t.runs == c.tables.runs[p.runId := NewRun(p.schedule, t.schedules[p.schedule.id].since, p.context)]
    ensures Sound(cfg, Enqueue(c, t, p))
  {
    hide HistoryKept, Consistent, CompletedCleanly;
    assert t.runs.Keys == c.tables.runs.Keys + {p.runId};
    assert HasRow(t, p) && t.runs[p.runId].status == RunStatus.Running;
    hide HasRow, NewRun;
    EnqueueKeepsConsistent(c, t, p);
  }

  lemma {:induction false} ClaimAllKeepsSound(cfg: Config, c: Core, due: seq<Definition>, nowMs: int, mint: Id -> Id)
    requires ValidConfig(cfg) && Sound(cfg, c)
    requires forall d | d in due :: d.nextRunAt.Some? && d.nextRunAt.value <= nowMs
    requires forall d | d in due && Live(c.tables, d.id) && c.tables.schedules[d.id].def.revision == d.revision :: c.tables.schedules[d.id].def == d
    requires forall i, j | 0 <= i < j < |due| :: due[i].id != due[j].id
    ensures var c' := ClaimAll(cfg, c, due, nowMs, mint).0;
            && Sound(cfg, c')
            && TablesMove(c.tables, c'.tables, {})
            && c' == c.(pending := c'.pending, owned := c'.owned, tables := c'.tables)
    decreases |due|
  {
    hide HistoryKept, Consistent, CompletedCleanly;
    if due != [] {
      var schedule := due[0];
      var rest := due[1..];
      assert forall d | d in rest :: d in due && d.id != schedule.id;
      if c.lifecycle != Lifecycle.Running || schedule.id in c.owned || schedule.nextRunAt == None {
        ClaimAllKeepsSound(cfg, c, rest, nowMs, mint);
      } else if ValidTrigger(cfg.cron, schedule.trigger) {
        var claim := ClaimOne(cfg, c.tables, schedule, nowMs, mint(schedule.id));
        if claim == Success(None) {
          ClaimAllKeepsSound(cfg, c, rest, nowMs, mint);
        } else if claim.Success? {
          var p := Pending(schedule, mint(schedule.id), Some(ScanContext(cfg, schedule, nowMs)));
          ClaimOneKeepsSound(cfg, c, schedule, nowMs, mint(schedule.id));
          var next := Enqueue(c, claim.value.value, p);
          ClaimAllKeepsSound(cfg, next, rest, nowMs, mint);
          MovesCompose(c.tables, next.tables, ClaimAll(cfg, next, rest, nowMs, mint).0.tables, {});
        }
      }
    }
  }

  lemma ClaimOneKeepsSound(cfg: Config, c: Core, schedule: Definition, nowMs: int, runId: Id)
    requires ValidConfig(cfg) && Sound(cfg, c)
    requires ValidTrigger(cfg.cron, schedule.trigger) && schedule.id !in c.owned
    requires schedule.nextRunAt.Some? && schedule.nextRunAt.value <= nowMs
    requires Live(c.tables, schedule.id) && c.tables.schedules[schedule.id].def.revision == schedule.revision ==> c.tables.schedules[schedule.id].def == schedule
    requires ClaimOne(cfg, c.tables, schedule, nowMs, runId).Success?
    requires ClaimOne(cfg, c.tables, schedule, nowMs, runId).value.Some?
    ensures var t := ClaimOne(cfg, c.tables, schedule, nowMs, runId).value.value;
            && Sound(cfg, Enqueue(c, t, Pending(schedule, runId, Some(ScanContext(cfg, schedule, nowMs)))))
            && TablesMove(c.tables, t, {})
  {
    hide HistoryKept, Consistent;
    var context := ScanContext(cfg, schedule, nowMs);
    var next := ComputeNextRunAt(cfg.cron, schedule.trigger, nowMs).value;
    var enabled := !schedule.trigger.At? && schedule.enabled;
    var t := ClaimOne(cfg, c.tables, schedule, nowMs, runId).value.value;
    NextIsLeastOccurrence(cfg.cron, schedule.trigger, nowMs);
    ClaimKeepsHistory(cfg.cron, c.tables, runId, schedule, nowMs, next, enabled, context);
    EnqueueKeepsSound(cfg, c, t, Pending(schedule, runId, Some(context)));
  }

  ghost predicate InterruptedUnstarted(t: Tables, r: Id) {
    r in t.runs && t.runs[r].status == Interrupted && t.runs[r].error == Some(StoppedBeforeExecution)
  }

  lemma {:induction false} InterruptQueuedKeepsSound(cfg: Config, c: Core)
    requires Sound(cfg, c)
    ensures var c' := InterruptQueued(c);
            && Sound(cfg, c')
            && TablesMove(c.tables, c'.tables, {Interrupted})
            && c' == c.(pending := [], owned := c'.owned, tables := c'.tables)
            && forall p | p in c.pending :: InterruptedUnstarted(c'.tables, p.runId)
    decreases |c.pending|
  {
    hide HistoryKept, Consistent;
    if c.pending != [] {
      var p := c.pending[0];
      var outcome := Outcome(Interrupted, None, Some(StoppedBeforeExecution));
      var next := c.(pending := c.pending[1..], owned := c.owned - {p.schedule.id}, tables := Finished(c.tables, p.runId, outcome));
      InterruptHeadKeepsConsistent(c, next);
      FinishKeepsHistory(cfg.cron, c.tables, p.runId, outcome);
      FinishedMoves(c.tables, p.runId, outcome);
      InterruptQueuedKeepsSound(cfg, next);
      MovesCompose(c.tables, next.tables, InterruptQueued(next).tables, {Interrupted});
      forall q | q in c.pending
        ensures InterruptedUnstarted(InterruptQueued(c).tables, q.runId)
      {
        if q != p {
          assert q in next.pending;
        }
      }
    }
  }

  lemma AbortActiveKeepsSound(cfg: Config, c: Core)
    requires Sound(cfg, c)
    ensures Sound(cfg, AbortActive(c))
    ensures AbortActive(c).active.Keys == c.active.Keys
    ensures forall r | r in c.active :: AbortActive(c).active[r].abort.Some?
  {
    hide HistoryKept, CompletedCleanly, Consistent;
    assert AbortActive(c).active.Keys == c.active.Keys;
    SameWorkStaysConsistent(c, AbortActive(c));
  }
}
