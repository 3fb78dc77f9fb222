/** What a scan does: every due schedule that nobody owns gets exactly one run, and nothing else changes. */
module SchedulerScans {
  import opened Wrappers
  import opened Occurrences
  import opened ScheduleTables
  import opened ClaimHistory
  import opened SchedulerSteps
  import opened SchedulerInvariants
  import opened SchedulerRuns
  import opened SchedulerTraces

  // ---------------------------------------------------------------- the loop of claims

  /** Each listed schedule is the stored row, due, and has an unused id minted for it alone. */
  ghost predicate AllDue(cfg: Config, c: Core, due: seq<Definition>, nowMs: int, mint: Id -> Id) {
    && c.lifecycle == Lifecycle.Running
    && (forall i | 0 <= i < |due| :: IsDue(c.tables, nowMs, due[i].id) && c.tables.schedules[due[i].id].def == due[i])
    && (forall i | 0 <= i < |due| :: ValidTrigger(cfg.cron, due[i].trigger) && mint(due[i].id) !in c.tables.runs)
    && (forall i, j | 0 <= i < j < |due| :: due[i].id != due[j].id && mint(due[i].id) != mint(due[j].id))
  }

  /** The claim of `d` as the tables and the queue show it. */
  ghost predicate IsClaimed(cfg: Config, t: Tables, c': Core, d: Definition, nowMs: int, runId: Id)
    requires SoundParser(cfg.cron) && ValidTrigger(cfg.cron, d.trigger) && d.nextRunAt.Some? && d.id in t.schedules
  {
    var (row, context) := (t.schedules[d.id], ScanContext(cfg, d, nowMs));
    && runId in c'.tables.runs && c'.tables.runs[runId] == NewRun(d, row.since, Some(context))
    && d.id in c'.tables.schedules
    && c'.tables.schedules[d.id]
       == Advanced(row, ComputeNextRunAt(cfg.cron, d.trigger, nowMs).value, !d.trigger.At? && d.enabled)
    && Pending(d, runId, Some(context)) in c'.pending
  }

  /** One turn of the loop, for a schedule nobody owns. */
  lemma {:induction false} HeadIsClaimed(cfg: Config, c: Core, due: seq<Definition>, nowMs: int, mint: Id -> Id) returns (next: Core)
    requires ValidConfig(cfg) && AllDue(cfg, c, due, nowMs, mint) && due != [] && due[0].id !in c.owned
    ensures ClaimAll(cfg, c, due, nowMs, mint) == ClaimAll(cfg, next, due[1..], nowMs, mint)
    ensures AllDue(cfg, next, due[1..], nowMs, mint) && next.owned == c.owned + {due[0].id}
    ensures IsClaimed(cfg, c.tables, next, due[0], nowMs, mint(due[0].id))
    ensures next.tables.runs.Keys == c.tables.runs.Keys + {mint(due[0].id)}
    ensures forall id | id in c.tables.schedules && id != due[0].id ::
              id in next.tables.schedules && next.tables.schedules[id] == c.tables.schedules[id]
  {
    hide ScanContext;
    var d := due[0];
    assert IsDue(c.tables, nowMs, d.id);
    NextIsLeastOccurrence(cfg.cron, d.trigger, nowMs);
    var context := ScanContext(cfg, d, nowMs);
    assert context.scheduledFor == d.nextRunAt.value by { ScanIsFor(cfg, d, nowMs); }
    var t := ClaimOne(cfg, c.tables, d, nowMs, mint(d.id)).value.value;
    next := Enqueue(c, t, Pending(d, mint(d.id), Some(context)));
    assert next.pending[|c.pending|] == Pending(d, mint(d.id), Some(context));
    RestIsDue(cfg, c, next, due, nowMs, mint);
    hide AllDue, ClaimAll;
  }

  lemma {:induction false} RestIsDue(cfg: Config, c: Core, next: Core, due: seq<Definition>, nowMs: int, mint: Id -> Id)
    requires AllDue(cfg, c, due, nowMs, mint) && due != [] && next.lifecycle == c.lifecycle
    requires next.tables.runs.Keys == c.tables.runs.Keys + {mint(due[0].id)}
    requires forall id | id in c.tables.schedules && id != due[0].id ::
               id in next.tables.schedules && next.tables.schedules[id] == c.tables.schedules[id]
    ensures AllDue(cfg, next, due[1..], nowMs, mint)
  {
    var rest := due[1..];
    assert forall i | 0 <= i < |rest| :: rest[i] == due[i + 1] && rest[i].id != due[0].id && mint(rest[i].id) != mint(due[0].id);
  }

  lemma ScanIsFor(cfg: Config, d: Definition, nowMs: int)
    requires SoundParser(cfg.cron) && ValidTrigger(cfg.cron, d.trigger) && d.nextRunAt.Some?
    ensures ScanContext(cfg, d, nowMs).scheduledFor == d.nextRunAt.value
  {
  }

  lemma {:induction false} HeadIsSkipped(cfg: Config, c: Core, due: seq<Definition>, nowMs: int, mint: Id -> Id)
    requires ValidConfig(cfg) && AllDue(cfg, c, due, nowMs, mint) && due != [] && due[0].id in c.owned
    ensures ClaimAll(cfg, c, due, nowMs, mint) == ClaimAll(cfg, c, due[1..], nowMs, mint)
    ensures AllDue(cfg, c, due[1..], nowMs, mint)
  {
  }

  /** What the rest of the loop leaves alone: rows that are not listed, and all that is queued. */
  lemma {:induction false} RestIsKept(cfg: Config, c: Core, due: seq<Definition>, nowMs: int, mint: Id -> Id, id: Id)
    requires ValidConfig(cfg) && AllDue(cfg, c, due, nowMs, mint)
    requires id in c.tables.schedules && (id in c.owned || forall i | 0 <= i < |due| :: due[i].id != id)
    ensures var c' := ClaimAll(cfg, c, due, nowMs, mint).0;
            && id in c'.tables.schedules && c'.tables.schedules[id] == c.tables.schedules[id]
            && c.pending <= c'.pending
    decreases |due|
  {
    if due != [] {
      hide AllDue, IsClaimed, ClaimAll;
      if due[0].id in c.owned {
        HeadIsSkipped(cfg, c, due, nowMs, mint);
        RestIsKept(cfg, c, due[1..], nowMs, mint, id);
      } else {
        var next := HeadIsClaimed(cfg, c, due, nowMs, mint);
        QueueGrows(cfg, c, due, nowMs, mint);
        RestIsKept(cfg, next, due[1..], nowMs, mint, id);
      }
    }
  }

  lemma {:induction false} QueueGrows(cfg: Config, c: Core, due: seq<Definition>, nowMs: int, mint: Id -> Id)
    requires SoundParser(cfg.cron)
    ensures c.pending <= ClaimAll(cfg, c, due, nowMs, mint).0.pending
  {
    var extra := ClaimAllAppends(cfg, c, due, nowMs, mint);
  }

  /** A claim stands when the loop goes on: its schedule is owned from then on. */
  lemma {:induction false} ClaimStands(cfg: Config, t: Tables, c: Core, due: seq<Definition>, nowMs: int, mint: Id -> Id, d: Definition)
    requires ValidConfig(cfg) && AllDue(cfg, c, due, nowMs, mint)
    requires ValidTrigger(cfg.cron, d.trigger) && d.nextRunAt.Some? && d.id in t.schedules && d.id in c.owned
    requires IsClaimed(cfg, t, c, d, nowMs, mint(d.id))
    ensures IsClaimed(cfg, t, ClaimAll(cfg, c, due, nowMs, mint).0, d, nowMs, mint(d.id))
  {
    hide AllDue, ClaimAll, ScanContext;
    RestIsKept(cfg, c, due, nowMs, mint, d.id);
    ClaimAllKeepsOld(cfg, c, due, nowMs, mint);
  }

  lemma {:induction false} ClaimAllClaims(cfg: Config, c: Core, due: seq<Definition>, nowMs: int, mint: Id -> Id, k: nat)
    requires ValidConfig(cfg) && AllDue(cfg, c, due, nowMs, mint) && k < |due| && due[k].id !in c.owned
    ensures IsClaimed(cfg, c.tables, ClaimAll(cfg, c, due, nowMs, mint).0, due[k], nowMs, mint(due[k].id))
    decreases |due|
  {
    hide ClaimAll, ScanContext;
    if due[0].id in c.owned {
      HeadIsSkipped(cfg, c, due, nowMs, mint);
      ClaimAllClaims(cfg, c, due[1..], nowMs, mint, k - 1);
    } else {
      var next := HeadIsClaimed(cfg, c, due, nowMs, mint);
      if k == 0 {
        hide AllDue, IsClaimed;
        ClaimStands(cfg, c.tables, next, due[1..], nowMs, mint, due[0]);
      } else {
        ClaimAllClaims(cfg, next, due[1..], nowMs, mint, k - 1);
      }
    }
  }

  /** The run was created by this scan, for a listed schedule that nobody owned. */
  ghost predicate IsMinted(c: Core, c': Core, due: seq<Definition>, mint: Id -> Id, r: Id)
    requires r in c'.tables.runs
  {
    exists i :: 0 <= i < |due| && due[i].id !in c.owned && r == mint(due[i].id) && c'.tables.runs[r].scheduleId == due[i].id
  }

  lemma {:induction false} NewAreMinted(cfg: Config, c: Core, due: seq<Definition>, nowMs: int, mint: Id -> Id, r: Id)
    requires ValidConfig(cfg) && AllDue(cfg, c, due, nowMs, mint)
    requires r in ClaimAll(cfg, c, due, nowMs, mint).0.tables.runs && r !in c.tables.runs
    ensures IsMinted(c, ClaimAll(cfg, c, due, nowMs, mint).0, due, mint, r)
    decreases |due|
  {
    var c' := ClaimAll(cfg, c, due, nowMs, mint).0;
    if due != [] {
      hide ClaimAll, ScanContext, AllDue;
      var rest := due[1..];
      var i: nat;
      if due[0].id in c.owned {
        HeadIsSkipped(cfg, c, due, nowMs, mint);
        NewAreMinted(cfg, c, rest, nowMs, mint, r);
        i :| i < |rest| && rest[i].id !in c.owned && r == mint(rest[i].id) && c'.tables.runs[r].scheduleId == rest[i].id;
        assert due[i + 1] == rest[i];
      } else {
        var next := HeadIsClaimed(cfg, c, due, nowMs, mint);
        if r in next.tables.runs {
          ClaimAllKeepsOld(cfg, next, rest, nowMs, mint);
          assert due[0].id !in c.owned && r == mint(due[0].id) && c'.tables.runs[r].scheduleId == due[0].id;
        } else {
          NewAreMinted(cfg, next, rest, nowMs, mint, r);
          i :| i < |rest| && rest[i].id !in next.owned && r == mint(rest[i].id) && c'.tables.runs[r].scheduleId == rest[i].id;
          assert due[i + 1] == rest[i];
        }
      }
    }
  }

  // ---------------------------------------------------------------- the dispatch after it

  /** Dispatch moves work from the queue to the active map, and touches no schedule. */
  lemma {:induction false} PumpKeepsHeld(cfg: Config, c: Core, cwdExists: string -> bool)
    requires Consistent(c)
    ensures var c' := Pump(cfg, c, cwdExists);
            (forall e :: Holds(c', e) <==> Holds(c, e)) && c'.tables.schedules == c.tables.schedules && c'.owned == c.owned
  {
    hide Consistent, DispatchAll;
    DispatchAllKeepsHeld(cfg, c, cwdExists);
  }

  lemma {:induction false} DispatchAllKeepsHeld(cfg: Config, c: Core, cwdExists: string -> bool)
    requires Consistent(c)
    ensures var c' := DispatchAll(cfg, c, cwdExists);
            (forall e :: Holds(c', e) <==> Holds(c, e)) && c'.tables.schedules == c.tables.schedules && c'.owned == c.owned
    decreases |c.pending|
  {
    hide Consistent, Holds;
    if CanDispatch(cfg, c) {
      DispatchKeepsConsistent(cfg, c, cwdExists);
      DispatchAllKeepsHeld(cfg, Dispatch(cfg, c, cwdExists), cwdExists);
    }
  }

  // ---------------------------------------------------------------- what a scan does

  lemma {:induction false} WakeListsTheDue(cfg: Config, c: Core, action: Action)
    requires ValidConfig(cfg) && Inv(cfg, c) && Enabled(c, action) && action.DoWake? && MintsFresh(c, action)
    ensures AllDue(cfg, c.(wake := None, settlingScans := c.settlingScans + 1), action.due, action.nowMs, action.mint)
  {
    hide Consistent, ClaimsRecorded, ClaimsOrdered, GridsTiled;
    DueIdsDiffer(c.tables, action.nowMs, action.due);
  }

  lemma {:induction false} ScanIsClaimsThenDispatch(cfg: Config, c: Core, action: Action) returns (begun: Core, claimed: Core)
    requires ValidConfig(cfg) && Inv(cfg, c) && Enabled(c, action) && action.DoWake? && MintsFresh(c, action)
    ensures begun.tables == c.tables && begun.owned == c.owned && begun.pending == c.pending
    ensures AllDue(cfg, begun, action.due, action.nowMs, action.mint)
    ensures claimed == ClaimAll(cfg, begun, action.due, action.nowMs, action.mint).0
    ensures var c' := Step(cfg, c, action);
            && SameRuns(claimed.tables, c'.tables) && c'.tables.schedules == claimed.tables.schedules
            && (forall e :: Holds(c', e) <==> Holds(claimed, e))
  {
    begun := c.(wake := None, settlingScans := c.settlingScans + 1);
    WakeListsTheDue(cfg, c, action);
    ScanIsWhole(cfg, c, action);
    claimed := WakeThenPump(cfg, c, begun, action);
    hide Step, Enabled, Inv, AllDue, Holds, SameRuns, Pump, Consistent, MintsFresh, ClaimAll;
    PumpKeepsRuns(cfg, claimed, action.cwdExists);
    PumpKeepsHeld(cfg, claimed, action.cwdExists);
  }

  lemma {:induction false} WakeThenPump(cfg: Config, c: Core, begun: Core, action: Action) returns (claimed: Core)
    requires SoundParser(cfg.cron) && Enabled(c, action) && action.DoWake?
    requires begun == c.(wake := None, settlingScans := c.settlingScans + 1) && c.lifecycle == Lifecycle.Running
    requires ClaimAll(cfg, begun, action.due, action.nowMs, action.mint).1
    ensures claimed == ClaimAll(cfg, begun, action.due, action.nowMs, action.mint).0
    ensures Step(cfg, c, action) == Pump(cfg, claimed, action.cwdExists)
  {
    hide ClaimAll, Pump, IsDueList;
    claimed := ClaimAll(cfg, begun, action.due, action.nowMs, action.mint).0;
  }

  lemma {:induction false} ScanIsWhole(cfg: Config, c: Core, action: Action)
    requires ValidConfig(cfg) && Inv(cfg, c) && Enabled(c, action) && action.DoWake? && MintsFresh(c, action)
    ensures var begun := c.(wake := None, settlingScans := c.settlingScans + 1);
            var (claimed, complete) := ClaimAll(cfg, begun, action.due, action.nowMs, action.mint);
            complete && Consistent(claimed) && c.lifecycle == Lifecycle.Running
  {
    hide HistoryKept, Consistent, CompletedCleanly, Holds;
    var begun := c.(wake := None, settlingScans := c.settlingScans + 1);
    FreshScanCompletes(cfg, c, action);
    DueIdsDiffer(c.tables, action.nowMs, action.due);
    TimersOnly(cfg, c, begun);
    hide ClaimAll;
    ClaimAllKeepsSound(cfg, begun, action.due, action.nowMs, action.mint);
  }

  /** `next` is the least occurrence after `nowMs`, or none when there is none. */
  ghost predicate IsNextOccurrence(cron: CronParser, trigger: Trigger, nowMs: int, next: Option<int>)
    requires ValidTrigger(cron, trigger)
  {
    match next
    case None => forall t | nowMs < t :: !Occurs(cron, trigger, t)
    case Some(u) => nowMs < u && Occurs(cron, trigger, u) && forall t | nowMs < t && Occurs(cron, trigger, t) :: u <= t
  }

  /** How many occurrences a claim at `nowMs` missed after the one it was due for. */
  ghost function MissedSince(cron: CronParser, trigger: Trigger, scheduledMs: int, nowMs: int): nat
    requires ValidTrigger(cron, trigger)
  {
    if trigger.At? then 0 else |set t | scheduledMs < t <= nowMs && Occurs(cron, trigger, t)|
  }

  lemma {:induction false} ScanContextSays(cfg: Config, c: Core, d: Definition, nowMs: int)
    requires ValidConfig(cfg) && Inv(cfg, c) && IsDue(c.tables, nowMs, d.id) && c.tables.schedules[d.id].def == d
    requires ValidTrigger(cfg.cron, d.trigger)
    ensures ScanContext(cfg, d, nowMs)
         == Context(d.nextRunAt.value, nowMs - d.nextRunAt.value, MissedSince(cfg.cron, d.trigger, d.nextRunAt.value, nowMs))
  {
    hide Consistent, ClaimsOrdered;
    if !d.trigger.At? {
      assert d.trigger.Every? ==> Tiled(c.tables, d.id);
      MissedCountsOccurrences(cfg.cron, d.trigger, d.nextRunAt.value, nowMs);
    }
  }

  /**
   * A scan claims all that is due: each listed schedule that nobody owns gets exactly one new run, of that very
   * definition, for its due time, with the delay and the missed occurrences of that moment; the run is queued or
   * executing afterwards, and the row goes on to its least occurrence after now.
   */
  lemma {:induction false} ScanClaimsWhatIsDue(cfg: Config, c: Core, action: Action, k: nat)
    requires ValidConfig(cfg) && Inv(cfg, c) && Enabled(c, action) && action.DoWake? && MintsFresh(c, action)
    requires k < |action.due| && action.due[k].id !in c.owned
    ensures var (d, r, c') := (action.due[k], action.mint(action.due[k].id), Step(cfg, c, action));
            && r !in c.tables.runs && r in c'.tables.runs
            && ValidTrigger(cfg.cron, d.trigger) && d.nextRunAt.Some? && d.nextRunAt.value <= action.nowMs
            && d.id in c'.tables.schedules
    ensures var (d, r, c') := (action.due[k], action.mint(action.due[k].id), Step(cfg, c, action));
            var run := c'.tables.runs[r];
            && run.scheduled && run.scheduleId == d.id && run.claimed == d && run.scheduledFor == d.nextRunAt
            && run.payload == d.payload && run.cwd == d.cwd && run.timeoutSeconds == d.timeoutSeconds
            && run.context == Some(Context(d.nextRunAt.value, action.nowMs - d.nextRunAt.value,
                                           MissedSince(cfg.cron, d.trigger, d.nextRunAt.value, action.nowMs)))
            && Holds(c', Pending(d, r, run.context))
    ensures var (d, r, c') := (action.due[k], action.mint(action.due[k].id), Step(cfg, c, action));
            forall q | q in c'.tables.runs && q !in c.tables.runs && c'.tables.runs[q].scheduleId == d.id :: q == r
    ensures var (d, c') := (action.due[k], Step(cfg, c, action));
            var row := c'.tables.schedules[d.id].def;
            && row == d.(revision := d.revision + 1, nextRunAt := row.nextRunAt, enabled := !d.trigger.At?)
            && IsNextOccurrence(cfg.cron, d.trigger, action.nowMs, row.nextRunAt)
  {
    var (d, r, c') := (action.due[k], action.mint(action.due[k].id), Step(cfg, c, action));
    var begun, claimed := ScanIsClaimsThenDispatch(cfg, c, action);
    assert IsDue(c.tables, action.nowMs, d.id) && ValidTrigger(cfg.cron, d.trigger) by { hide Step; }
    hide Step, Inv, Enabled, MintsFresh;
    ClaimAllClaims(cfg, begun, action.due, action.nowMs, action.mint, k);
    ScanContextSays(cfg, c, d, action.nowMs);
    NextIsLeastOccurrence(cfg.cron, d.trigger, action.nowMs);
    hide ScanContext, MissedSince, ClaimAll;
    assert Holds(claimed, Pending(d, r, claimed.tables.runs[r].context));
    forall q | q in c'.tables.runs && q !in c.tables.runs && c'.tables.runs[q].scheduleId == d.id
      ensures q == r
    {
      NewAreMinted(cfg, begun, action.due, action.nowMs, action.mint, q);
    }
  }

  /** And it changes no other row and creates no other run. */
  lemma {:induction false} ScanLeavesTheRest(cfg: Config, c: Core, action: Action)
    requires ValidConfig(cfg) && Inv(cfg, c) && Enabled(c, action) && action.DoWake? && MintsFresh(c, action)
    ensures var c' := Step(cfg, c, action);
            && (forall id | id in c.tables.schedules && (id in c.owned || forall d | d in action.due :: d.id != id) ::
                  id in c'.tables.schedules && c'.tables.schedules[id] == c.tables.schedules[id])
            && (forall q | q in c'.tables.runs && q !in c.tables.runs :: IsMinted(c, c', action.due, action.mint, q))
  {
    var c' := Step(cfg, c, action);
    var begun, claimed := ScanIsClaimsThenDispatch(cfg, c, action);
    hide Step, Inv, Enabled, MintsFresh, AllDue, ClaimAll, Holds;
    forall id | id in c.tables.schedules && (id in c.owned || forall d | d in action.due :: d.id != id)
      ensures id in c'.tables.schedules && c'.tables.schedules[id] == c.tables.schedules[id]
    {
      RestIsKept(cfg, begun, action.due, action.nowMs, action.mint, id);
    }
    forall q | q in c'.tables.runs && q !in c.tables.runs
      ensures IsMinted(c, c', action.due, action.mint, q)
    {
      NewAreMinted(cfg, begun, action.due, action.nowMs, action.mint, q);
    }
  }
}
