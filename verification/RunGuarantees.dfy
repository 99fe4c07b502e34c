/** What the run scheduler promises over every interleaving and restart. */
module RunGuarantees {
  import opened Wrappers
  import opened RunModel

  lemma AdmitOk(l: Limits, s: Service, id: RunId, r: Request, now: nat, existing: Option<RunId>, p: Party)
    requires Inv(l, s) && CanAdmit(l, s, id, r, now, existing) && (p == Starter || p == Orphan)
    ensures Inv(l, Admit(s, id, r, now, p)) && Evolves(s, Admit(s, id, r, now, p))
  {
    hide RunOk, RunEvolves, WithinLimits, KeysUnique, NewRow, Lookup, Decide;
    var s' := Admit(s, id, r, now, p);
    NewRunOk(s, id, r, now, p);
    forall x | x in s'.runs
      ensures RunOk(s', x) && (x in s.runs ==> RunEvolves(s.runs[x], s.jobs[x], s'.runs[x], s'.jobs[x]))
    {
      if x != id {
        OtherRunOk(s, id, r, now, p, x);
      }
    }
    AdmitWithinLimits(l, s, id, r, now, existing);
    AdmitKeysUnique(l, s, id, r, now, existing);
  }

  lemma OtherRunOk(s: Service, id: RunId, r: Request, now: nat, p: Party, x: RunId)
    requires RunOk(s, x) && x != id
    ensures RunOk(Admit(s, id, r, now, p), x)
    ensures var s' := Admit(s, id, r, now, p); RunEvolves(s.runs[x], s.jobs[x], s'.runs[x], s'.jobs[x])
  {
    hide LogOk, RowOk, RowEvolves, NewRow, JobOk, TerminalEvents, Terminals;
    RowEvolvesSelf(s.runs[x]);
  }

  lemma NewRunOk(s: Service, id: RunId, r: Request, now: nat, p: Party)
    requires p == Starter || p == Orphan
    ensures RunOk(Admit(s, id, r, now, p), id)
  {
    assert [QueuedEvent][..0] == [];
  }

  lemma AdmitWithinLimits(l: Limits, s: Service, id: RunId, r: Request, now: nat, existing: Option<RunId>)
    requires WithinLimits(l, s.runs) && id !in s.runs && Decide(l, s, r, now, existing).Admitted?
    ensures WithinLimits(l, s.runs[id := NewRow(r, now)])
  {
    hide ActiveRuns, LiveActiveRuns, LiveRunsOn;
    AdmittedCounts(s.runs, id, r, now);
    AdmittedLive(s.runs, id, r, now);
    var runs' := s.runs[id := NewRow(r, now)];
    assert |ActiveRuns(runs')| <= l.concurrency + l.queued;
    assert |LiveActiveRuns(runs')| <= l.live;
    forall day: nat ensures |LiveRunsOn(runs', day)| <= l.livePerDay {
      AdmittedOnDay(s.runs, id, r, now, day);
    }
  }

  lemma AdmittedCounts(runs: map<RunId, Row>, id: RunId, r: Request, now: nat)
    requires id !in runs
    ensures |ActiveRuns(runs[id := NewRow(r, now)])| == |ActiveRuns(runs)| + 1
  {
    assert ActiveRuns(runs[id := NewRow(r, now)]) == ActiveRuns(runs) + {id};
  }

  lemma AdmittedLive(runs: map<RunId, Row>, id: RunId, r: Request, now: nat)
    requires id !in runs
    ensures |LiveActiveRuns(runs[id := NewRow(r, now)])| == |LiveActiveRuns(runs)| + if r.live then 1 else 0
  {
    assert LiveActiveRuns(runs[id := NewRow(r, now)]) == LiveActiveRuns(runs) + if r.live then {id} else {};
  }

  lemma AdmittedOnDay(runs: map<RunId, Row>, id: RunId, r: Request, now: nat, day: nat)
    requires id !in runs
    ensures |LiveRunsOn(runs[id := NewRow(r, now)], day)|
         == |LiveRunsOn(runs, day)| + if r.live && now / DAY == day then 1 else 0
  {
    var mine := r.live && now / DAY == day;
    assert LiveRunsOn(runs[id := NewRow(r, now)], day) == LiveRunsOn(runs, day) + if mine then {id} else {};
  }

  lemma AdmitKeysUnique(l: Limits, s: Service, id: RunId, r: Request, now: nat, existing: Option<RunId>)
    requires KeysUnique(s.runs) && id !in s.runs && Lookup(s, r, existing)
    requires Decide(l, s, r, now, existing).Admitted?
    ensures KeysUnique(s.runs[id := NewRow(r, now)])
  {
    if r.key.Some? {
      forall x | x in s.runs ensures !SameKeyOwner(s.runs[x], NewRow(r, now)) {
        assert x !in SameKey(s.runs, r.owner, r.key.value);
      }
    }
  }

  lemma ManyRunsOk(l: Limits, s: Service, s': Service)
    requires Inv(l, s) && s'.runs.Keys == s.runs.Keys == s'.events.Keys == s'.jobs.Keys
    requires forall id :: id in s.runs && id in s.jobs ==>
      RunOk(s', id) && RunEvolves(s.runs[id], s.jobs[id], s'.runs[id], s'.jobs[id])
    ensures Inv(l, s') && Evolves(s, s')
  {
    hide RunOk, LogOk, RowOk, WithinLimits, RowEvolves, KeysUnique;
    FewerActive(l, s.runs, s'.runs);
    SameKeys(s.runs, s'.runs);
  }

  lemma KnownRuns(l: Limits, s: Service)
    requires Inv(l, s)
    ensures s.runs.Keys == s.events.Keys == s.jobs.Keys
    ensures forall id :: id in s.runs ==> RunOk(s, id)
  {
  }

  lemma ClosedRunOk(row: Row, log: seq<Event>, job: Job)
    requires RowOk(row) && JobOk(false, job, row) && LogOk(row, log, job.overruled)
    requires Terminals(log) == TerminalEvents(job, row)
    ensures RowOk(ClosedRow(row)) && JobOk(true, SnappedJob(job), ClosedRow(row))
    ensures LogOk(ClosedRow(row), ClosedLog(row, log), job.overruled)
    ensures Terminals(ClosedLog(row, log)) == TerminalEvents(SnappedJob(job), ClosedRow(row))
    ensures RunEvolves(row, job, ClosedRow(row), SnappedJob(job))
  {
    hide LogOk, Terminals;
    if !Terminal(row.status) && !row.cancelRequested {
      LogGrows(row, ClosedRow(row), log, CancellationRequested, job.overruled, job.overruled);
    } else {
      LogSame(row, ClosedRow(row), log, job.overruled);
    }
  }

  lemma CloseOk(l: Limits, s: Service)
    requires Inv(l, s)
    ensures Inv(l, Close(s)) && Evolves(s, Close(s))
  {
    hide Inv, Evolves, LogOk, RowOk, JobOk, Terminals, TerminalEvents, ClosedRow, ClosedLog, SnappedJob, RunEvolves;
    EvolvesSelf(s);
    KnownRuns(l, s);
    if !s.closed {
      var s' := Close(s);
      forall id | id in s.runs ensures RunOk(s', id) && RunEvolves(s.runs[id], s.jobs[id], s'.runs[id], s'.jobs[id]) {
        assert RunOk(s, id);
        SnappedKeepsOverruled(s.jobs[id]);
        ClosedRunOk(s.runs[id], s.events[id], s.jobs[id]);
      }
      ManyRunsOk(l, s, s');
    }
  }

  lemma SnappedKeepsOverruled(job: Job)
    ensures SnappedJob(job).overruled == job.overruled
  {
  }

  /** What opening the database does to one run. */
  lemma OpenedRunOk(closed: bool, row: Row, log: seq<Event>, job: Job, job': Job, now: nat)
    requires RowOk(row) && JobOk(closed, job, row) && LogOk(row, log, job.overruled)
    requires Terminals(log) == TerminalEvents(job, row)
    requires (exists elsewhere :: job' == RestartedJob(job, elsewhere)) || (Quiet(job) && job' == ReopenedJob(job))
    ensures RowOk(InterruptedRow(row, now)) && JobOk(false, job', InterruptedRow(row, now))
    ensures LogOk(InterruptedRow(row, now), InterruptedLog(row, log), job'.overruled)
    ensures Terminals(InterruptedLog(row, log)) == TerminalEvents(job', InterruptedRow(row, now))
    ensures RunEvolves(row, job, InterruptedRow(row, now), job')
  {
    hide LogOk, Terminals;
    if Terminal(row.status) {
      LogSame(row, InterruptedRow(row, now), log, job.overruled);
    } else {
      LogGrows(row, InterruptedRow(row, now), log, InterruptedEvent, job.overruled, job'.overruled);
    }
  }

  lemma OpenedOk(l: Limits, s: Service, now: nat, jobs: map<RunId, Job>, reopened: bool)
    requires Inv(l, s) && jobs.Keys == s.jobs.Keys
    requires forall id :: id in s.jobs ==>
      (exists elsewhere :: jobs[id] == RestartedJob(s.jobs[id], elsewhere))
      || (Quiet(s.jobs[id]) && jobs[id] == ReopenedJob(s.jobs[id]))
    ensures Inv(l, Opened(s, now, jobs, reopened)) && Evolves(s, Opened(s, now, jobs, reopened))
  {
    hide Inv, Evolves, LogOk, RowOk, JobOk, Terminals, TerminalEvents, InterruptedRow, InterruptedLog, RunEvolves,
      Quiet, RestartedJob, ReopenedJob;
    KnownRuns(l, s);
    var s' := Opened(s, now, jobs, reopened);
    forall id | id in s.runs ensures RunOk(s', id) && RunEvolves(s.runs[id], s.jobs[id], s'.runs[id], s'.jobs[id]) {
      assert RunOk(s, id);
      OpenedRunOk(s.closed, s.runs[id], s.events[id], s.jobs[id], jobs[id], now);
    }
    ManyRunsOk(l, s, s');
  }

  lemma ReopenOk(l: Limits, s: Service, now: nat)
    requires Inv(l, s)
    ensures Inv(l, Reopen(s, now)) && Evolves(s, Reopen(s, now))
  {
    hide Inv, Evolves, Opened, ReopenedJob, Quiet;
    EvolvesSelf(s);
    if CanReopen(s) {
      OpenedOk(l, s, now, map id | id in s.jobs :: ReopenedJob(s.jobs[id]), true);
    }
  }

  lemma RestartOk(l: Limits, s: Service, now: nat, elsewhere: bool)
    requires Inv(l, s)
    ensures Inv(l, Restart(s, now, elsewhere)) && Evolves(s, Restart(s, now, elsewhere))
  {
    hide Inv, Evolves, Opened, RestartedJob;
    OpenedOk(l, s, now, map id | id in s.jobs :: RestartedJob(s.jobs[id], elsewhere), s.reopened && elsewhere);
  }

  /** This step opens the database while a start() that it will not stop stands
      between its insert and the lock. */
  predicate OvertakesStart(s: Service, op: Op) {
    || (op.DoReopen? && CanReopen(s)
        && exists id :: id in s.jobs && (s.jobs[id].party.Starter? || s.jobs[id].party.Orphan?))
    || (op.DoRestart? && op.elsewhere && exists id :: id in s.jobs && s.jobs[id].party.Orphan?)
  }

  lemma UnclaimedAdmit(s: Service, id: RunId, r: Request, now: nat, p: Party)
    requires s.runs.Keys == s.jobs.Keys
    ensures Unclaimed(s) ==> Unclaimed(Admit(s, id, r, now, p))
  {
  }

  lemma UnclaimedOpen(l: Limits, s: Service, op: Op)
    requires Inv(l, s) && Unclaimed(s) && !OvertakesStart(s, op)
    requires op.DoClose? || op.DoReopen? || op.DoRestart?
    ensures Unclaimed(Step(l, s, op))
  {
    hide Inv, Quiet, Terminal;
    SameTables(l, s);
    ClosedStatus();
  }

  lemma ClosedStatus()
    ensures forall row :: Terminal(ClosedRow(row).status) <==> Terminal(row.status)
  {
  }

  lemma StepOk(l: Limits, s: Service, op: Op)
    requires Inv(l, s)
    ensures Inv(l, Step(l, s, op)) && Evolves(s, Step(l, s, op))
    ensures Unclaimed(s) && !OvertakesStart(s, op) ==> Unclaimed(Step(l, s, op))
  {
    hide Inv, Evolves, Unclaimed, CanAdmit, Submit, Begin, RecordTrace, Complete, End, AskCancel, CancelFuture, Discard,
      Close, Stop, StopFinish, Reopen, Restart, Admit, OvertakesStart;
    EvolvesSelf(s);
    SameTables(l, s);
    match op
    case DoAdmit(id, r, now, existing) =>
      if CanAdmit(l, s, id, r, now, existing) {
        AdmitOk(l, s, id, r, now, existing, Starter);
        UnclaimedAdmit(s, id, r, now, Starter);
      }
    case DoAdmitLate(id, r, now, existing) =>
      if s.reopened && CanAdmit(l, s, id, r, now, existing) {
        AdmitOk(l, s, id, r, now, existing, Orphan);
        UnclaimedAdmit(s, id, r, now, Orphan);
      }
    case DoSubmit(id, now) => SubmitOk(l, s, id, now);
    case DoEnter(id) => EnterOk(l, s, id);
    case DoBegin(id, now) => BeginOk(l, s, id, now);
    case DoTrace(id) => TraceOk(l, s, id);
    case DoComplete(id, payload, checked, finished) => CompleteOk(l, s, id, payload, checked, finished);
    case DoEnd(id, ending, now) => EndOk(l, s, id, ending, now);
    case DoRequestCancel(id) => AskCancelOk(l, s, id);
    case DoCancelFuture(id, now) => CancelFutureOk(l, s, id, now);
    case DoDiscard(id) => DiscardOk(l, s, id);
    case DoStop(id) => StopOk(l, s, id);
    case DoStopFinish(id, now) => StopFinishOk(l, s, id, now);
    case DoClose =>
      CloseOk(l, s);
      UnclaimedOpening(l, s, op);
    case DoReopen(now) =>
      ReopenOk(l, s, now);
      UnclaimedOpening(l, s, op);
    case DoRestart(now, elsewhere) =>
      RestartOk(l, s, now, elsewhere);
      UnclaimedOpening(l, s, op);
  }

  lemma UnclaimedOpening(l: Limits, s: Service, op: Op)
    requires Inv(l, s) && (op.DoClose? || op.DoReopen? || op.DoRestart?)
    ensures Unclaimed(s) && !OvertakesStart(s, op) ==> Unclaimed(Step(l, s, op))
  {
    hide Inv, Unclaimed, OvertakesStart, Step;
    if Unclaimed(s) && !OvertakesStart(s, op) {
      UnclaimedOpen(l, s, op);
    }
  }

  lemma EvolvesTransitive(a: Service, b: Service, c: Service)
    requires Evolves(a, b) && Evolves(b, c)
    ensures Evolves(a, c)
  {
    hide RunEvolves;
    forall id | id in a.runs && id in a.jobs
      ensures id in c.runs && id in c.jobs && RunEvolves(a.runs[id], a.jobs[id], c.runs[id], c.jobs[id])
    {
      RunEvolvesTransitive(a.runs[id], a.jobs[id], b.runs[id], b.jobs[id], c.runs[id], c.jobs[id]);
    }
  }

  lemma RunEvolvesTransitive(a: Row, j: Job, b: Row, k: Job, c: Row, m: Job)
    ensures RunEvolves(a, j, b, k) && RunEvolves(b, k, c, m) ==> RunEvolves(a, j, c, m)
  {
  }

  lemma {:induction false} RunSafe(l: Limits, s: Service, ops: seq<Op>)
    requires Inv(l, s)
    ensures Inv(l, Run(l, s, ops)) && Evolves(s, Run(l, s, ops))
    decreases |ops|
  {
    hide Inv, Evolves, Step, Unclaimed, OvertakesStart;
    if ops == [] {
      EvolvesSelf(s);
    } else {
      StepOk(l, s, ops[0]);
      RunSafe(l, Step(l, s, ops[0]), ops[1..]);
      EvolvesTransitive(s, Step(l, s, ops[0]), Run(l, s, ops));
    }
  }

  lemma EmptyOk(l: Limits)
    ensures Inv(l, EMPTY)
  {
    forall day: nat ensures LiveRunsOn(EMPTY.runs, day) == {} {
    }
  }

  /** Admission caps hold in every reachable state: open runs, open live runs,
      and live runs admitted on any one UTC day. */
  lemma AdmissionSafety(l: Limits, ops: seq<Op>, day: nat)
    ensures var runs := Run(l, EMPTY, ops).runs;
      && |ActiveRuns(runs)| <= l.concurrency + l.queued
      && |LiveActiveRuns(runs)| <= l.live
      && |LiveRunsOn(runs, day)| <= l.livePerDay
  {
    EmptyOk(l);
    RunSafe(l, EMPTY, ops);
  }

  /** The result of a finished run never changes, a completed row never changes
      at all, and neither does the status of a run that no orphan holds. */
  lemma TerminalIsFinal(l: Limits, before: seq<Op>, after: seq<Op>, id: RunId)
    requires id in Run(l, EMPTY, before).runs && Terminal(Run(l, EMPTY, before).runs[id].status)
    ensures var s := Run(l, EMPTY, before);
      var s' := Run(l, s, after);
      && id in s.jobs && id in s'.runs && Terminal(s'.runs[id].status) && s'.runs[id].result == s.runs[id].result
      && (s.runs[id].status.Completed? ==> s'.runs[id] == s.runs[id])
      && (!s.jobs[id].party.Orphan? ==> s'.runs[id].status == s.runs[id].status)
  {
    hide RunOk, WithinLimits, KeysUnique;
    EmptyOk(l);
    RunSafe(l, EMPTY, before);
    RunSafe(l, Run(l, EMPTY, before), after);
    var s, s' := Run(l, EMPTY, before), Run(l, Run(l, EMPTY, before), after);
    assert RunEvolves(s.runs[id], s.jobs[id], s'.runs[id], s'.jobs[id]);
  }

  // ---------- finality and reopening ----------

  /** In every continuation the run keeps its status. */
  ghost predicate Final(l: Limits, s: Service, id: RunId) {
    forall after: seq<Op> ::
      id in Run(l, s, after).runs && id in s.runs && Run(l, s, after).runs[id].status == s.runs[id].status
  }

  ghost predicate FinishedAreFinal(l: Limits, s: Service) {
    forall id :: id in s.runs && Terminal(s.runs[id].status) ==> Final(l, s, id)
  }

  /** At no time during the run can a terminal status still change. */
  ghost predicate AlwaysFinal(l: Limits, s: Service, ops: seq<Op>)
    decreases |ops|
  {
    FinishedAreFinal(l, s) && (ops != [] ==> AlwaysFinal(l, Step(l, s, ops[0]), ops[1..]))
  }

  ghost predicate NeverOvertakes(l: Limits, s: Service, ops: seq<Op>)
    decreases |ops|
  {
    ops != [] ==> !OvertakesStart(s, ops[0]) && NeverOvertakes(l, Step(l, s, ops[0]), ops[1..])
  }

  lemma UnclaimedIsFinal(l: Limits, s: Service)
    requires Inv(l, s) && Unclaimed(s)
    ensures FinishedAreFinal(l, s)
  {
    hide RunOk, WithinLimits, KeysUnique, RowEvolves;
    forall id, after: seq<Op> | id in s.runs && Terminal(s.runs[id].status)
      ensures id in Run(l, s, after).runs && Run(l, s, after).runs[id].status == s.runs[id].status
    {
      RunSafe(l, s, after);
      var s' := Run(l, s, after);
      assert RunEvolves(s.runs[id], s.jobs[id], s'.runs[id], s'.jobs[id]);
    }
  }

  /** After an overtaking step, the overtaken start() cancels an interrupted run. */
  lemma OvertakingIsNotFinal(l: Limits, s: Service, op: Op)
    requires Inv(l, s) && OvertakesStart(s, op)
    ensures !FinishedAreFinal(l, Step(l, s, op))
  {
    hide Inv, Step, CanReopen, FinishedAreFinal, Run, RowOk, RevocationOk;
    SameTables(l, s);
    var id :| id in s.jobs && (s.jobs[id].party.Orphan? || (op.DoReopen? && s.jobs[id].party.Starter?));
    OwnedFacts(l, s, id);
    OpenedForOrphan(l, s, op, id);
    OrphanCancels(l, Step(l, s, op), id);
    StatusChanges(l, Step(l, s, op), id, [DoSubmit(id, 0)]);
  }

  lemma OrphanCancels(l: Limits, s: Service, id: RunId)
    requires Owned(s, id, Orphan)
    ensures id in Run(l, s, [DoSubmit(id, 0)]).runs && Run(l, s, [DoSubmit(id, 0)]).runs[id].status == Cancelled
  {
    var ops := [DoSubmit(id, 0)];
    assert ops[1..] == [];
    assert Run(l, s, ops) == Submit(s, id, 0);
  }

  lemma StatusChanges(l: Limits, s: Service, id: RunId, after: seq<Op>)
    requires id in s.runs && Terminal(s.runs[id].status)
    requires id in Run(l, s, after).runs && Run(l, s, after).runs[id].status != s.runs[id].status
    ensures !FinishedAreFinal(l, s)
  {
    hide Run;
    assert !Final(l, s, id);
  }

  lemma OpenedForOrphan(l: Limits, s: Service, op: Op, id: RunId)
    requires OvertakesStart(s, op) && id in s.runs && id in s.events && id in s.jobs
    requires s.jobs[id].party.Orphan? || (op.DoReopen? && s.jobs[id].party.Starter?)
    requires PartyFits(s.jobs[id].party, s.runs[id])
    ensures Owned(Step(l, s, op), id, Orphan) && Step(l, s, op).runs[id].status == Interrupted
  {
    hide CanReopen, Step, InterruptedLog;
    StepIs(l, s, op);
  }

  /** Over every run: no terminal status can ever still change if and only if no
      service opens the database while a start() of a closed one is in flight. */
  lemma {:induction false} FinalIff(l: Limits, s: Service, ops: seq<Op>)
    requires Inv(l, s) && Unclaimed(s)
    ensures AlwaysFinal(l, s, ops) <==> NeverOvertakes(l, s, ops)
    decreases |ops|
  {
    hide Inv, Unclaimed, OvertakesStart, FinishedAreFinal, Step;
    UnclaimedIsFinal(l, s);
    if ops != [] {
      var s' := Step(l, s, ops[0]);
      StepOk(l, s, ops[0]);
      if OvertakesStart(s, ops[0]) {
        OvertakingIsNotFinal(l, s, ops[0]);
      } else {
        FinalIff(l, s', ops[1..]);
      }
    }
  }

  /** From an empty database. */
  lemma StatusIsFinalIff(l: Limits, ops: seq<Op>)
    ensures AlwaysFinal(l, EMPTY, ops) <==> NeverOvertakes(l, EMPTY, ops)
  {
    EmptyOk(l);
    FinalIff(l, EMPTY, ops);
  }

  ghost predicate NoOrphans(s: Service) {
    !s.reopened && forall id :: id in s.jobs ==> !s.jobs[id].party.Orphan?
  }

  lemma NoOrphansStep(l: Limits, s: Service, op: Op)
    requires NoOrphans(s) && !op.DoReopen?
    ensures NoOrphans(Step(l, s, op)) && !OvertakesStart(s, op)
  {
    hide Decide, Lookup, Quiet;
  }

  /** Process death alone overtakes nobody: its orphans die with it. */
  lemma {:induction false} DeathOvertakesNobody(l: Limits, s: Service, ops: seq<Op>)
    requires NoOrphans(s) && forall i :: 0 <= i < |ops| ==> !ops[i].DoReopen?
    ensures NeverOvertakes(l, s, ops)
    decreases |ops|
  {
    hide NoOrphans, OvertakesStart, Step;
    if ops != [] {
      NoOrphansStep(l, s, ops[0]);
      DeathOvertakesNobody(l, Step(l, s, ops[0]), ops[1..]);
    }
  }

  lemma {:induction false} UnclaimedRun(l: Limits, s: Service, ops: seq<Op>)
    requires Inv(l, s) && Unclaimed(s) && NeverOvertakes(l, s, ops)
    ensures Unclaimed(Run(l, s, ops))
    decreases |ops|
  {
    hide Inv, Unclaimed, OvertakesStart, Step;
    if ops != [] {
      StepOk(l, s, ops[0]);
      UnclaimedRun(l, Step(l, s, ops[0]), ops[1..]);
    }
  }

  /** A result exists exactly for completed runs; those were never asked to stop
      and met their deadline when it was checked; and a run that nobody holds is
      over. */
  lemma OutcomeSafety(l: Limits, ops: seq<Op>, id: RunId)
    requires id in Run(l, EMPTY, ops).runs
    ensures var s := Run(l, EMPTY, ops);
      && id in s.jobs && (s.runs[id].result.Some? <==> s.runs[id].status.Completed?)
      && (s.runs[id].status.Completed? ==>
            !s.runs[id].cancelRequested && s.runs[id].finished.Some? && s.jobs[id].checked.Some?
            && s.jobs[id].checked.value < s.runs[id].deadline
            && s.jobs[id].checked.value <= s.runs[id].finished.value)
      && (s.jobs[id].party == Nobody ==> Terminal(s.runs[id].status))
  {
    hide LogOk;
    EmptyOk(l);
    RunSafe(l, EMPTY, ops);
    KnownRun(l, Run(l, EMPTY, ops), id);
  }

  ghost predicate KeptResult(s: Service, t: Service, id: RunId)
    requires id in t.runs
  {
    id in s.runs && s.runs[id].status.Completed? && t.runs[id].result == s.runs[id].result
    && t.runs[id].finished == s.runs[id].finished
  }

  ghost predicate Delivers(s: Service, op: Op, t: Service, id: RunId)
    requires id in t.runs
  {
    && op.DoComplete? && op.id == id && Owned(s, id, Working) && !s.runs[id].cancelRequested
    && op.checked < s.runs[id].deadline && op.checked <= op.finished
    && t.runs[id] == s.runs[id].(status := Completed, result := Some(op.payload), error := None,
                                 finished := Some(op.finished))
  }

  lemma CompletionCompletes(l: Limits, s: Service, op: Op, id: RunId)
    requires op.DoComplete? && var t := Step(l, s, op); id in t.runs && t.runs[id].status.Completed?
    ensures KeptResult(s, Step(l, s, op), id) || Delivers(s, op, Step(l, s, op), id)
  {
    hide Step;
    StepIs(l, s, op);
  }

  lemma NothingElseCompletes(l: Limits, s: Service, op: Op, id: RunId)
    requires !op.DoComplete? && var t := Step(l, s, op); id in t.runs && t.runs[id].status.Completed?
    ensures KeptResult(s, Step(l, s, op), id)
  {
    hide Step, KeptResult;
    if op.DoClose? || op.DoReopen? || op.DoRestart? {
      SweepsCompleteNothing(l, s, op, id);
    } else {
      OneRowCompletesNothing(l, s, op, id);
    }
  }

  lemma SweepsCompleteNothing(l: Limits, s: Service, op: Op, id: RunId)
    requires op.DoClose? || op.DoReopen? || op.DoRestart?
    requires var t := Step(l, s, op); id in t.runs && t.runs[id].status.Completed?
    ensures KeptResult(s, Step(l, s, op), id)
  {
    hide Step, CanReopen, ClosedLog, InterruptedLog, SnappedJob, ReopenedJob, RestartedJob;
    StepIs(l, s, op);
  }

  lemma OneRowCompletesNothing(l: Limits, s: Service, op: Op, id: RunId)
    requires !op.DoComplete? && !op.DoClose? && !op.DoReopen? && !op.DoRestart?
    requires var t := Step(l, s, op); id in t.runs && t.runs[id].status.Completed?
    ensures KeptResult(s, Step(l, s, op), id)
  {
    hide Complete, CanAdmit, Close, Reopen, Restart;
  }

  /** The result in a completed row comes from one completing step. */
  lemma OnlyCompletionCompletes(l: Limits, s: Service, op: Op, id: RunId)
    requires var t := Step(l, s, op); id in t.runs && t.runs[id].status.Completed?
    ensures KeptResult(s, Step(l, s, op), id) || Delivers(s, op, Step(l, s, op), id)
  {
    hide Step, KeptResult, Delivers;
    if op.DoComplete? {
      CompletionCompletes(l, s, op, id);
    } else {
      NothingElseCompletes(l, s, op, id);
    }
  }

  lemma {:induction false} RunLast(l: Limits, s: Service, ops: seq<Op>)
    requires ops != []
    ensures Run(l, s, ops) == Step(l, Run(l, s, ops[..|ops| - 1]), ops[|ops| - 1])
    decreases |ops|
  {
    hide Step;
    if |ops| > 1 {
      assert ops[1..][..|ops| - 2] == ops[..|ops| - 1][1..];
      RunLast(l, Step(l, s, ops[0]), ops[1..]);
    } else {
      assert ops[..0] == [] && ops[1..] == [];
    }
  }

  /** Step i of the run completes this run, in the hands of its worker, before the
      deadline and without a cancellation request. */
  ghost predicate CompletedAt(l: Limits, ops: seq<Op>, i: nat, id: RunId, result: Option<string>,
                              finished: Option<nat>) {
    && i < |ops| && ops[i].DoComplete? && ops[i].id == id
    && var s := Run(l, EMPTY, ops[..i]);
      && Owned(s, id, Working) && !s.runs[id].cancelRequested && ops[i].checked < s.runs[id].deadline
      && ops[i].checked <= ops[i].finished
      && result == Some(ops[i].payload) && finished == Some(ops[i].finished)
  }

  /** What a completed run holds is what its own worker delivered: over every run
      from an empty database the result is the payload of a completing step. */
  lemma {:induction false} ResultIsDelivered(l: Limits, ops: seq<Op>, id: RunId)
    requires var s := Run(l, EMPTY, ops); id in s.runs && s.runs[id].status.Completed?
    ensures var row := Run(l, EMPTY, ops).runs[id];
      exists i: nat :: CompletedAt(l, ops, i, id, row.result, row.finished)
    decreases |ops|
  {
    hide Step, Owned;
    if ops != [] {
      var n := |ops| - 1;
      var before, row := Run(l, EMPTY, ops[..n]), Run(l, EMPTY, ops).runs[id];
      RunLast(l, EMPTY, ops);
      OnlyCompletionCompletes(l, before, ops[n], id);
      if ops[n].DoComplete? && ops[n].id == id && CompletedAt(l, ops, n, id, row.result, row.finished) {
      } else {
        ResultIsDelivered(l, ops[..n], id);
        var i: nat :| CompletedAt(l, ops[..n], i, id, before.runs[id].result, before.runs[id].finished);
        assert ops[..n][..i] == ops[..i];
        assert CompletedAt(l, ops, i, id, row.result, row.finished);
      }
    }
  }

  /** Once cancellation was requested the run can no longer complete. */
  lemma CancelRequestIsHonoured(l: Limits, before: seq<Op>, after: seq<Op>, id: RunId)
    requires id in Run(l, EMPTY, before).runs && Run(l, EMPTY, before).runs[id].cancelRequested
    ensures var s' := Run(l, Run(l, EMPTY, before), after);
      id in s'.runs && !s'.runs[id].status.Completed? && s'.runs[id].result.None?
  {
    hide LogOk, WithinLimits, KeysUnique;
    EmptyOk(l);
    RunSafe(l, EMPTY, before);
    RunSafe(l, Run(l, EMPTY, before), after);
    assert RowEvolves(Run(l, EMPTY, before).runs[id], Run(l, Run(l, EMPTY, before), after).runs[id]);
    KnownRun(l, Run(l, Run(l, EMPTY, before), after), id);
  }

  /** No progress event follows a terminal event: at most acknowledgements do.
      The last event names the outcome, and all terminal events name it exactly
      when no orphan overruled an interruption. */
  lemma EventOrder(l: Limits, ops: seq<Op>, id: RunId)
    requires var s := Run(l, EMPTY, ops); id in s.runs && Terminal(s.runs[id].status)
    ensures var s := Run(l, EMPTY, ops);
      && id in s.events && id in s.jobs && s.events[id] != []
      && s.events[id][|s.events[id]| - 1] == EventOf(s.runs[id].status)
      && (forall i, j :: 0 <= i < j < |s.events[id]| && TerminalEvent(s.events[id][i]) ==>
            s.events[id][j].CancellationAcknowledged?)
      && (AllNameOutcome(s, id) <==> !s.jobs[id].overruled)
  {
    hide Inv, Run, Terminals, TerminalEvents, RevocationOk;
    EmptyOk(l);
    RunSafe(l, EMPTY, ops);
    KnownRun(l, Run(l, EMPTY, ops), id);
    var s := Run(l, EMPTY, ops);
    forall i | 0 <= i < |s.events[id]| && TerminalEvent(s.events[id][i]) && !s.jobs[id].overruled
      ensures s.events[id][i] == EventOf(s.runs[id].status)
    {
      assert NamesOutcome(s.runs[id], s.events[id][i], s.jobs[id].overruled);
    }
    if s.jobs[id].overruled {
      var i :| 0 <= i < |s.events[id]| && s.events[id][i] == InterruptedEvent;
    }
  }

  ghost predicate AllNameOutcome(s: Service, id: RunId)
    requires id in s.runs && id in s.events && Terminal(s.runs[id].status)
  {
    forall i :: 0 <= i < |s.events[id]| && TerminalEvent(s.events[id][i]) ==>
      s.events[id][i] == EventOf(s.runs[id].status)
  }

  /** No orphan overrules an interruption in a run in which no service opens the
      database while a start() is in flight. */
  lemma NobodyOverruled(l: Limits, ops: seq<Op>, id: RunId)
    requires NeverOvertakes(l, EMPTY, ops) && id in Run(l, EMPTY, ops).runs
    ensures id in Run(l, EMPTY, ops).jobs && !Run(l, EMPTY, ops).jobs[id].overruled
  {
    EmptyOk(l);
    RunSafe(l, EMPTY, ops);
    UnclaimedRun(l, EMPTY, ops);
  }

  /** A finished run that close() is through with has one terminal event in its
      log, unless it was overruled, or its future was in the copy that close()
      took and cancel() revoked it nevertheless; if a process death kept close()
      from acknowledging, it takes two cancel() calls. */
  lemma OneTerminalEventIff(l: Limits, ops: seq<Op>, id: RunId)
    requires var s := Run(l, EMPTY, ops);
      id in s.runs && Terminal(s.runs[id].status) && id in s.jobs && !s.jobs[id].due && !s.jobs[id].stopping
    ensures var s := Run(l, EMPTY, ops);
      var job := s.jobs[id];
      && id in s.events && Terminals(s.events[id]) >= 1
      && (Terminals(s.events[id]) == 1
          <==> !job.overruled && !(job.snapped && job.cancels >= if job.cut then 2 else 1))
  {
    hide WithinLimits, KeysUnique, RowOk, LogOk;
    EmptyOk(l);
    RunSafe(l, EMPTY, ops);
    KnownRun(l, Run(l, EMPTY, ops), id);
  }

  /** One idempotency key names at most one run of an owner, for good. */
  lemma OneRunPerKey(l: Limits, ops: seq<Op>, a: RunId, b: RunId)
    requires var runs := Run(l, EMPTY, ops).runs;
      a in runs && b in runs && runs[a].key.Some? && runs[a].key == runs[b].key && runs[a].owner == runs[b].owner
    ensures a == b
  {
    EmptyOk(l);
    RunSafe(l, EMPTY, ops);
    assert SameKeyOwner(Run(l, EMPTY, ops).runs[a], Run(l, EMPTY, ops).runs[b]);
  }

  // ---------- witnesses ----------

  /** A request without a key for an offline run. */
  predicate Plain(l: Limits, r: Request) {
    l.concurrency + l.queued >= 1 && r.key.None? && !r.live
  }

  /** A database that holds one run. */
  function Only(id: RunId, row: Row, log: seq<Event>, job: Job, closed: bool, reopened: bool): Service {
    Service(map[id := row], map[id := log], map[id := job], closed, reopened)
  }

  lemma FirstAdmission(l: Limits, id: RunId, r: Request)
    requires Plain(l, r)
    ensures Step(l, EMPTY, DoAdmit(id, r, 0, None))
         == Only(id, NewRow(r, 0), [QueuedEvent], NewJob(Starter), false, false)
  {
    assert ActiveRuns(EMPTY.runs) == {};
  }

  lemma RunStep(l: Limits, s: Service, op: Op, ops: seq<Op>)
    ensures Run(l, s, [op] + ops) == Run(l, Step(l, s, op), ops)
    ensures Run(l, Step(l, s, op), []) == Step(l, s, op)
  {
    assert ([op] + ops)[0] == op && ([op] + ops)[1..] == ops;
  }

  lemma RunOfFour(l: Limits, s: Service, a: Op, b: Op, c: Op, d: Op)
    ensures Run(l, s, [a, b, c]) == Step(l, Step(l, Step(l, s, a), b), c)
    ensures Run(l, s, [a, b, c, d]) == Step(l, Step(l, Step(l, Step(l, s, a), b), c), d)
  {
    hide Step, Run;
    var s1, s2, s3 := Step(l, s, a), Step(l, Step(l, s, a), b), Step(l, Step(l, Step(l, s, a), b), c);
    RunStep(l, s, a, [b, c, d]);
    RunStep(l, s1, b, [c, d]);
    RunStep(l, s2, c, [d]);
    RunStep(l, s3, d, []);
    RunStep(l, s, a, [b, c]);
    RunStep(l, s1, b, [c]);
    RunStep(l, s2, c, []);
    assert [a] + [b, c, d] == [a, b, c, d] && [b] + [c, d] == [b, c, d] && [c] + [d] == [c, d] && [d] + [] == [d];
    assert [a] + [b, c] == [a, b, c] && [b] + [c] == [b, c] && [c] + [] == [c];
  }

  /** The steps of the runs below. */
  /** Which transaction a step is. */
  lemma StepIs(l: Limits, s: Service, op: Op)
    ensures op.DoClose? ==> Step(l, s, op) == Close(s)
    ensures op.DoReopen? ==> Step(l, s, op) == Reopen(s, op.now)
    ensures op.DoRestart? ==> Step(l, s, op) == Restart(s, op.now, op.elsewhere)
    ensures op.DoAdmit? && CanAdmit(l, s, op.id, op.request, op.now, op.existing) ==>
      Step(l, s, op) == Admit(s, op.id, op.request, op.now, Starter)
    ensures op.DoAdmitLate? && s.reopened && CanAdmit(l, s, op.id, op.request, op.now, op.existing) ==>
      Step(l, s, op) == Admit(s, op.id, op.request, op.now, Orphan)
    ensures op.DoSubmit? ==> Step(l, s, op) == Submit(s, op.id, op.now)
    ensures op.DoEnter? && Owned(s, op.id, Pending) ==> Step(l, s, op) == Passed(s, op.id, Entered)
    ensures op.DoBegin? ==> Step(l, s, op) == Begin(s, op.id, op.now)
    ensures op.DoTrace? ==> Step(l, s, op) == RecordTrace(s, op.id)
    ensures op.DoComplete? ==> Step(l, s, op) == Complete(s, op.id, op.payload, op.checked, op.finished)
    ensures op.DoEnd? ==> Step(l, s, op) == End(s, op.id, op.ending, op.now)
    ensures op.DoDiscard? ==> Step(l, s, op) == Discard(s, op.id)
    ensures op.DoRequestCancel? ==> Step(l, s, op) == AskCancel(s, op.id)
    ensures op.DoCancelFuture? ==> Step(l, s, op) == CancelFuture(s, op.id, op.now)
    ensures op.DoStop? ==> Step(l, s, op) == Stop(s, op.id)
    ensures op.DoStopFinish? ==> Step(l, s, op) == StopFinish(s, op.id, op.now)
  {
    hide CanAdmit, Admit, Submit, Begin, RecordTrace, Complete, End, AskCancel, CancelFuture, Discard, Close, Stop,
      StopFinish, Reopen, Restart, Passed;
  }

  lemma TwoAcknowledgements()
    ensures [QueuedEvent] + [CancellationRequested] + [CancellationRequested] + [CancellationAcknowledged]
              + [CancellationAcknowledged]
         == [QueuedEvent, CancellationRequested, CancellationRequested, CancellationAcknowledged,
             CancellationAcknowledged]
  {
  }

  lemma CloseOnly(id: RunId, row: Row, log: seq<Event>, job: Job)
    requires !Terminal(row.status) && !row.cancelRequested
    ensures Close(Only(id, row, log, job, false, false))
         == Only(id, row.(cancelRequested := true, status := Cancelling), log + [CancellationRequested],
                 SnappedJob(job), true, false)
  {
  }

  lemma ReopenOnly(id: RunId, row: Row, log: seq<Event>, now: nat)
    requires !Terminal(row.status)
    ensures Reopen(Only(id, row, log, NewJob(Starter), true, false), now)
         == Only(id, InterruptedRow(row, now), log + [InterruptedEvent], NewJob(Orphan), false, true)
  {
  }

  lemma SubmitOnly(id: RunId, row: Row, log: seq<Event>, now: nat)
    ensures Submit(Only(id, row, log, NewJob(Starter), false, false), id, now)
         == Only(id, row, log, NewJob(Pending).(listed := true), false, false)
    ensures var s := Submit(Only(id, row, log, NewJob(Orphan), false, true), id, now);
      && id in s.runs && id in s.events
      && s.runs[id].status == Cancelled && s.events[id] == log + [CancellationAcknowledged]
  {
  }

  lemma AskCancelOnly(id: RunId, row: Row, log: seq<Event>, job: Job)
    requires !Terminal(row.status)
    ensures AskCancel(Only(id, row, log, job, true, false), id)
         == Only(id, row.(cancelRequested := true, status := Cancelling), log + [CancellationRequested],
                 job.(asking := job.asking + 1), true, false)
  {
  }

  /** The overtaken start(), from an empty database: a run is interrupted, and
      cancelled afterwards. */
  lemma ReopenOverturns(l: Limits, id: RunId, r: Request)
    requires Plain(l, r)
    ensures var ops := [DoAdmit(id, r, 0, None), DoClose, DoReopen(1), DoSubmit(id, 2)];
      var before, after := Run(l, EMPTY, ops[..3]), Run(l, EMPTY, ops);
      && id in before.runs && before.runs[id].status == Interrupted
      && id in after.runs && after.runs[id].status == Cancelled
      && id in after.events
      && after.events[id] == [QueuedEvent, CancellationRequested, InterruptedEvent, CancellationAcknowledged]
  {
    hide NewRow, Run, Step, Close, Reopen, Submit, AskCancel, CancelFuture, Stop, StopFinish;
    FirstAdmission(l, id, r);
    NewRowIsOpen(r, 0);
    var ops := [DoAdmit(id, r, 0, None), DoClose, DoReopen(1), DoSubmit(id, 2)];
    RunOfFour(l, EMPTY, ops[0], ops[1], ops[2], ops[3]);
    assert ops[..3] == [ops[0], ops[1], ops[2]] && ops == [ops[0], ops[1], ops[2], ops[3]];
    var s1 := Step(l, EMPTY, ops[0]);
    StepIs(l, s1, ops[1]);
    StepIs(l, Close(s1), ops[2]);
    StepIs(l, Reopen(Close(s1), 1), ops[3]);
    CloseOnly(id, NewRow(r, 0), [QueuedEvent], NewJob(Starter));
    var row := NewRow(r, 0).(cancelRequested := true, status := Cancelling);
    ReopenOnly(id, row, [QueuedEvent] + [CancellationRequested], 1);
    SubmitOnly(id, InterruptedRow(row, 1), [QueuedEvent] + [CancellationRequested] + [InterruptedEvent], 2);
    assert [QueuedEvent] + [CancellationRequested] + [InterruptedEvent] + [CancellationAcknowledged]
        == [QueuedEvent, CancellationRequested, InterruptedEvent, CancellationAcknowledged];
  }

  lemma NewRowIsOpen(r: Request, now: nat)
    ensures NewRow(r, now).status == Queued && !NewRow(r, now).cancelRequested
    ensures NewRow(r, now).deadline == now + r.seconds
  {
  }

  /** cancel() revokes a future that close() has copied: two acknowledgements,
      from an empty database. */
  lemma AcknowledgedTwice(l: Limits, id: RunId, r: Request)
    requires Plain(l, r)
    ensures var ops := [DoAdmit(id, r, 0, None), DoSubmit(id, 1), DoClose, DoRequestCancel(id)]
                       + [DoCancelFuture(id, 2), DoStop(id), DoStopFinish(id, 3)];
      var s := Run(l, EMPTY, ops);
      && id in s.runs && s.runs[id].status == Cancelled && id in s.events
      && s.events[id] == [QueuedEvent, CancellationRequested, CancellationRequested,
                          CancellationAcknowledged, CancellationAcknowledged]
  {
    hide NewRow, Run, Step, Close, Reopen, Submit, AskCancel, CancelFuture, Stop, StopFinish;
    FirstAdmission(l, id, r);
    NewRowIsOpen(r, 0);
    var first := [DoAdmit(id, r, 0, None), DoSubmit(id, 1), DoClose, DoRequestCancel(id)];
    RunOfFour(l, EMPTY, first[0], first[1], first[2], first[3]);
    assert first == [first[0], first[1], first[2], first[3]];
    var s1 := Step(l, EMPTY, first[0]);
    StepIs(l, s1, first[1]);
    StepIs(l, Submit(s1, id, 1), first[2]);
    StepIs(l, Close(Submit(s1, id, 1)), first[3]);
    var job := NewJob(Pending).(listed := true);
    SubmitOnly(id, NewRow(r, 0), [QueuedEvent], 1);
    CloseOnly(id, NewRow(r, 0), [QueuedEvent], job);
    var row := NewRow(r, 0).(cancelRequested := true, status := Cancelling);
    AskCancelOnly(id, row, [QueuedEvent] + [CancellationRequested], SnappedJob(job));
    var s4 := Run(l, EMPTY, first);
    RunAppend(l, EMPTY, first, [DoCancelFuture(id, 2), DoStop(id), DoStopFinish(id, 3)]);
    RevokedTwice(l, s4, id);
    TwoAcknowledgements();
  }

  lemma {:induction false} RunAppend(l: Limits, s: Service, a: seq<Op>, b: seq<Op>)
    ensures Run(l, s, a + b) == Run(l, Run(l, s, a), b)
    decreases |a|
  {
    hide Step;
    if a == [] {
      assert a + b == b;
    } else {
      assert (a + b)[0] == a[0] && (a + b)[1..] == a[1..] + b;
      RunAppend(l, Step(l, s, a[0]), a[1..], b);
    }
  }

  lemma RevokedTwice(l: Limits, s: Service, id: RunId)
    requires id in s.runs && Owned(s, id, Pending) && s.jobs[id].listed && s.jobs[id].due && s.jobs[id].asking == 1
    ensures var s' := Run(l, s, [DoCancelFuture(id, 2), DoStop(id), DoStopFinish(id, 3)]);
      && id in s'.runs && s'.runs[id].status == Cancelled && id in s'.events
      && s'.events[id] == s.events[id] + [CancellationAcknowledged] + [CancellationAcknowledged]
  {
    hide Run, Step, Close, Reopen, Submit, AskCancel, CancelFuture, Stop, StopFinish;
    var a, b, c := DoCancelFuture(id, 2), DoStop(id), DoStopFinish(id, 3);
    StepIs(l, s, a);
    StepIs(l, CancelFuture(s, id, 2), b);
    StepIs(l, Stop(CancelFuture(s, id, 2), id), c);
    RunOfFour(l, s, a, b, c, c);
    RevokedByCancel(s, id);
    StopsRevoked(CancelFuture(s, id, 2), id);
    AcknowledgedByClose(Stop(CancelFuture(s, id, 2), id), id);
  }

  lemma RevokedByCancel(s: Service, id: RunId)
    requires Owned(s, id, Pending) && s.jobs[id].listed && s.jobs[id].due && s.jobs[id].asking == 1
    ensures var s' := CancelFuture(s, id, 2);
      Owned(s', id, Revoked) && s'.jobs[id].due && s'.events[id] == s.events[id] + [CancellationAcknowledged]
  {
  }

  lemma StopsRevoked(s: Service, id: RunId)
    requires Owned(s, id, Revoked) && s.jobs[id].due
    ensures var s' := Stop(s, id); Owned(s', id, Revoked) && s'.jobs[id].stopping && s'.events[id] == s.events[id]
  {
  }

  lemma AcknowledgedByClose(s: Service, id: RunId)
    requires Owned(s, id, Revoked) && s.jobs[id].stopping
    ensures var s' := StopFinish(s, id, 3);
      && id in s'.runs && s'.runs[id].status == Cancelled
      && id in s'.events && s'.events[id] == s.events[id] + [CancellationAcknowledged]
  {
  }

  /** The finish time is read after the deadline check: a run that met its
      deadline can carry any later finish time. */
  lemma FinishedAfterDeadline(l: Limits, id: RunId, r: Request, payload: string, finished: nat)
    requires Plain(l, r) && r.seconds >= 1
    ensures var ops := [DoAdmit(id, r, 0, None), DoSubmit(id, 0), DoEnter(id), DoBegin(id, 0)]
                       + [DoComplete(id, payload, 0, finished)];
      var s := Run(l, EMPTY, ops);
      && id in s.runs && s.runs[id].status == Completed && s.runs[id].finished == Some(finished)
      && s.runs[id].deadline == r.seconds
  {
    hide NewRow, Run;
    FirstAdmission(l, id, r);
    NewRowIsOpen(r, 0);
    var first := [DoAdmit(id, r, 0, None), DoSubmit(id, 0), DoEnter(id), DoBegin(id, 0)];
    RunOfFour(l, EMPTY, first[0], first[1], first[2], first[3]);
    assert first == [first[0], first[1], first[2], first[3]];
    var s4 := Run(l, EMPTY, first);
    RunAppend(l, EMPTY, first, [DoComplete(id, payload, 0, finished)]);
    RunStep(l, s4, DoComplete(id, payload, 0, finished), []);
    assert [DoComplete(id, payload, 0, finished)] + [] == [DoComplete(id, payload, 0, finished)];
  }
}
