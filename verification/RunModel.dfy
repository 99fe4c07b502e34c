/** The run scheduler as a state machine. Each transaction, and each stretch of
    code under the service lock, is one step; a step may be taken by any thread
    whenever its guard holds. */
module RunModel {
  import opened Wrappers

  type RunId = string

  datatype Status = Queued | Running | Cancelling | Completed | Failed | Cancelled | TimedOut | Interrupted

  predicate Terminal(s: Status) {
    s.Completed? || s.Failed? || s.Cancelled? || s.TimedOut? || s.Interrupted?
  }

  /** The error column of a finished run. */
  datatype Reason =
    | StoppedBeforeStart | CancelledBeforeStart | AcknowledgedByWorker
    | DeadlineExceeded | ServiceRestarted | Raised(message: string)

  datatype Row = Row(owner: string, key: Option<string>, fingerprint: string, live: bool,
                     status: Status, created: nat, deadline: nat, cancelRequested: bool,
                     result: Option<string>, error: Option<Reason>, finished: Option<nat>)

  datatype Event =
    | QueuedEvent | Started | Trace | CancellationRequested
    | CompletedEvent | FailedEvent | CancellationAcknowledged | TimedOutEvent | InterruptedEvent

  predicate TerminalEvent(e: Event) {
    e.CompletedEvent? || e.FailedEvent? || e.CancellationAcknowledged? || e.TimedOutEvent? || e.InterruptedEvent?
  }

  /** Who may still finish a run. This is not stored anywhere in the source: it
      follows from where the call to start(), the future and the worker are. */
  datatype Party =
    | Starter          // start() has inserted the row, not yet reached the lock
    | Orphan           // the same, but its service was closed and the database opened by another
    | Pending          // a future is queued in the executor
    | Entered          // the executor runs the future, before its first transaction
    | Working          // the worker is past its first transaction
    | Revoked          // the future was cancelled before it ran
    | Nobody

  /** The side of a run that is not in the database. The first line is the state
      of its threads and future: whether _futures lists it, whether close() has
      still to reach it or to acknowledge it, and how many cancel() calls stand
      between their transaction and the lock. The rest is history: whether a
      snapshot of close() held it, whether a process death cut that close()
      short, how many cancel() calls and whether close() acknowledged it,
      whether an orphan finished it after it had ended, and the clock reading
      that was compared with its deadline. */
  datatype Job = Job(party: Party, listed: bool, due: bool, stopping: bool, asking: nat,
                     snapped: bool, cut: bool, cancels: nat, stopped: bool, overruled: bool, checked: Option<nat>)

  datatype Service = Service(runs: map<RunId, Row>, events: map<RunId, seq<Event>>, jobs: map<RunId, Job>,
                             closed: bool, reopened: bool)

  datatype Limits = Limits(concurrency: nat, queued: nat, live: nat, livePerDay: nat)

  const DAY: nat := 86400

  datatype Request = Request(owner: string, key: Option<string>, fingerprint: string, live: bool, seconds: nat)

  datatype Admission = Admitted | Existing(id: RunId) | KeyConflict | Full | LiveFull | DayFull

  // ---------- counting queries ----------

  function ActiveRuns(runs: map<RunId, Row>): set<RunId> {
    set id | id in runs && !Terminal(runs[id].status)
  }

  function LiveActiveRuns(runs: map<RunId, Row>): set<RunId> {
    set id | id in runs && !Terminal(runs[id].status) && runs[id].live
  }

  function LiveRunsOn(runs: map<RunId, Row>, day: nat): set<RunId> {
    set id | id in runs && runs[id].live && runs[id].created / DAY == day
  }

  function SameKey(runs: map<RunId, Row>, owner: string, key: string): set<RunId> {
    set id | id in runs && runs[id].owner == owner && runs[id].key == Some(key)
  }

  // ---------- steps ----------

  function NewRow(r: Request, now: nat): Row {
    Row(r.owner, r.key, r.fingerprint, r.live, Queued, now, now + r.seconds, false, None, None, None)
  }

  /** What the admission transaction of start() decides. */
  function Decide(l: Limits, s: Service, r: Request, now: nat, existing: Option<RunId>): Admission {
    if existing.Some? && existing.value in s.runs then
      if s.runs[existing.value].fingerprint != r.fingerprint then KeyConflict else Existing(existing.value)
    else if |ActiveRuns(s.runs)| >= l.concurrency + l.queued then Full
    else if r.live && |LiveActiveRuns(s.runs)| >= l.live then LiveFull
    else if r.live && |LiveRunsOn(s.runs, now / DAY)| >= l.livePerDay then DayFull
    else Admitted
  }

  /** The row an idempotency key already names, if any. */
  predicate Lookup(s: Service, r: Request, existing: Option<RunId>) {
    match existing
    case Some(id) => id in s.runs && r.key.Some? && s.runs[id].owner == r.owner && s.runs[id].key == r.key
    case None => r.key.Some? ==> SameKey(s.runs, r.owner, r.key.value) == {}
  }

  function NewJob(p: Party): Job {
    Job(p, false, false, false, 0, false, false, 0, false, false, None)
  }

  function Admit(s: Service, id: RunId, r: Request, now: nat, p: Party): Service {
    s.(runs := s.runs[id := NewRow(r, now)], events := s.events[id := [QueuedEvent]], jobs := s.jobs[id := NewJob(p)])
  }

  /** The unguarded update at the heart of the service. */
  function Finish(s: Service, id: RunId, status: Status, result: Option<string>, error: Option<Reason>, now: nat,
                  event: Event): Service
    requires id in s.runs && id in s.events
  {
    s.(runs := s.runs[id := s.runs[id].(status := status, result := result, error := error, finished := Some(now))],
       events := s.events[id := s.events[id] + [event]])
  }

  function Cancel(s: Service, id: RunId, reason: Reason, now: nat): Service
    requires id in s.runs && id in s.events
  {
    Finish(s, id, Cancelled, None, Some(reason), now, CancellationAcknowledged)
  }

  predicate Owned(s: Service, id: RunId, p: Party) {
    id in s.runs && id in s.events && id in s.jobs && s.jobs[id].party == p
  }

  function WithJob(s: Service, id: RunId, job: Job): Service {
    s.(jobs := s.jobs[id := job])
  }

  function Passed(s: Service, id: RunId, p: Party): Service
    requires id in s.jobs
  {
    WithJob(s, id, s.jobs[id].(party := p))
  }

  function RequestCancel(s: Service, id: RunId): Service
    requires id in s.runs && id in s.events
  {
    s.(runs := s.runs[id := s.runs[id].(cancelRequested := true, status := Cancelling)],
       events := s.events[id := s.events[id] + [CancellationRequested]])
  }

  /** What the worker ends with, besides completion. */
  datatype Ending = ByCancellation | ByTimeout | ByError(message: string)

  datatype Op =
    | DoAdmit(id: RunId, request: Request, now: nat, existing: Option<RunId>)
    | DoAdmitLate(id: RunId, request: Request, now: nat, existing: Option<RunId>)
    | DoSubmit(id: RunId, now: nat)
    | DoEnter(id: RunId)
    | DoBegin(id: RunId, now: nat)
    | DoTrace(id: RunId)
    | DoComplete(id: RunId, payload: string, checked: nat, finished: nat)
    | DoEnd(id: RunId, ending: Ending, now: nat)
    | DoRequestCancel(id: RunId)
    | DoCancelFuture(id: RunId, now: nat)
    | DoDiscard(id: RunId)
    | DoClose
    | DoStop(id: RunId)
    | DoStopFinish(id: RunId, now: nat)
    | DoReopen(now: nat)
    | DoRestart(now: nat, elsewhere: bool)

  /** start(), second half: hand the run to the executor, unless the service was
      closed in between. An orphan's service is closed, whatever has become of
      the row meanwhile. */
  function Submit(s: Service, id: RunId, now: nat): Service {
    if Owned(s, id, Orphan) then
      WithJob(Cancel(s, id, StoppedBeforeStart, now), id,
              s.jobs[id].(party := Nobody, overruled := s.runs[id].status.Interrupted?))
    else if !Owned(s, id, Starter) then s
    else if s.closed then Passed(Cancel(s, id, StoppedBeforeStart, now), id, Nobody)
    else WithJob(s, id, s.jobs[id].(party := Pending, listed := true))
  }

  /** The worker's first transaction. */
  function Begin(s: Service, id: RunId, now: nat): Service {
    if !Owned(s, id, Entered) then s
    else if !s.runs[id].status.Queued? && !s.runs[id].status.Cancelling? then Passed(s, id, Nobody)
    else if s.runs[id].cancelRequested then Passed(Cancel(s, id, CancelledBeforeStart, now), id, Nobody)
    else
      Passed(s.(runs := s.runs[id := s.runs[id].(status := Running)],
                events := s.events[id := s.events[id] + [Started]]), id, Working)
  }

  function RecordTrace(s: Service, id: RunId): Service {
    if id !in s.runs || id !in s.events || Terminal(s.runs[id].status) then s
    else s.(events := s.events[id := s.events[id] + [Trace]])
  }

  /** The worker's last transaction. The clock is read once for the deadline and
      once more, after the result was encoded, for the finish time. */
  function Complete(s: Service, id: RunId, payload: string, checked: nat, finished: nat): Service {
    if !Owned(s, id, Working) || finished < checked then s
    else if s.runs[id].cancelRequested then
      Passed(Cancel(s, id, AcknowledgedByWorker, finished), id, Nobody)
    else if checked >= s.runs[id].deadline then
      Passed(Finish(s, id, TimedOut, None, Some(DeadlineExceeded), finished, TimedOutEvent), id, Nobody)
    else
      WithJob(Finish(s, id, Completed, Some(payload), None, finished, CompletedEvent), id,
              s.jobs[id].(party := Nobody, checked := Some(checked)))
  }

  function End(s: Service, id: RunId, ending: Ending, now: nat): Service {
    if !Owned(s, id, Working) then s
    else
      var ended := match ending
        case ByCancellation => Cancel(s, id, AcknowledgedByWorker, now)
        case ByTimeout => Finish(s, id, TimedOut, None, Some(DeadlineExceeded), now, TimedOutEvent)
        case ByError(message) => Finish(s, id, Failed, None, Some(Raised(message)), now, FailedEvent);
      Passed(ended, id, Nobody)
  }

  /** cancel(), its transaction. */
  function AskCancel(s: Service, id: RunId): Service {
    if id !in s.runs || id !in s.events || id !in s.jobs || Terminal(s.runs[id].status) then s
    else WithJob(RequestCancel(s, id), id, s.jobs[id].(asking := s.jobs[id].asking + 1))
  }

  /** cancel(), under the lock: a listed future that has not started is revoked
      and the run finished. future.cancel() also returns true for a future that
      is already revoked; the first to revoke it takes it off the list. */
  function CancelFuture(s: Service, id: RunId, now: nat): Service {
    if id !in s.runs || id !in s.events || id !in s.jobs || s.jobs[id].asking == 0 then s
    else
      var job := s.jobs[id].(asking := s.jobs[id].asking - 1);
      if !job.listed || (!job.party.Pending? && !job.party.Revoked?) then WithJob(s, id, job)
      else
        WithJob(Cancel(s, id, CancelledBeforeStart, now), id,
                job.(party := Revoked, listed := job.party.Revoked?, cancels := job.cancels + 1))
  }

  /** The done-callback takes a finished or revoked future off the list. */
  function Discard(s: Service, id: RunId): Service {
    if id in s.jobs && (s.jobs[id].party.Revoked? || s.jobs[id].party.Nobody?) then
      WithJob(s, id, s.jobs[id].(listed := false))
    else s
  }

  function ClosedRow(row: Row): Row {
    if Terminal(row.status) then row else row.(cancelRequested := true, status := Cancelling)
  }

  function ClosedLog(row: Row, log: seq<Event>): seq<Event> {
    if Terminal(row.status) || row.cancelRequested then log else log + [CancellationRequested]
  }

  function SnappedJob(job: Job): Job {
    job.(due := job.listed, snapped := job.snapped || job.listed)
  }

  /** close(), under the lock: every open run is asked to stop, and the listed
      futures are copied. */
  function Close(s: Service): Service {
    if s.closed then s
    else
      Service(map id | id in s.runs :: ClosedRow(s.runs[id]),
              map id | id in s.events :: if id in s.runs then ClosedLog(s.runs[id], s.events[id]) else s.events[id],
              map id | id in s.jobs :: SnappedJob(s.jobs[id]), true, s.reopened)
  }

  /** close(), one future of its copy: future.cancel(). */
  function Stop(s: Service, id: RunId): Service {
    if id !in s.jobs || !s.jobs[id].due then s
    else
      var job := s.jobs[id].(due := false);
      WithJob(s, id, if job.party.Pending? || job.party.Revoked? then job.(party := Revoked, stopping := true) else job)
  }

  /** close(), the transaction after future.cancel() returned true. */
  function StopFinish(s: Service, id: RunId, now: nat): Service {
    if id !in s.runs || id !in s.events || id !in s.jobs || !s.jobs[id].stopping then s
    else
      WithJob(Cancel(s, id, StoppedBeforeStart, now), id, s.jobs[id].(stopping := false, stopped := true))
  }

  function InterruptedRow(row: Row, now: nat): Row {
    if Terminal(row.status) then row
    else row.(status := Interrupted, error := Some(ServiceRestarted), finished := Some(now))
  }

  function InterruptedLog(row: Row, log: seq<Event>): seq<Event> {
    if Terminal(row.status) then log else log + [InterruptedEvent]
  }

  /** Every way to open the database marks all open rows. */
  function Opened(s: Service, now: nat, jobs: map<RunId, Job>, reopened: bool): Service {
    Service(map id | id in s.runs :: InterruptedRow(s.runs[id], now),
            map id | id in s.events :: if id in s.runs then InterruptedLog(s.runs[id], s.events[id]) else s.events[id],
            jobs, false, reopened)
  }

  /** close() is through with a run: its future was reached and acknowledged,
      and no worker has it. */
  predicate Quiet(job: Job) {
    !job.due && !job.stopping && !job.party.Pending? && !job.party.Entered? && !job.party.Working?
  }

  function ReopenedJob(job: Job): Job {
    job.(party := if job.party.Starter? || job.party.Orphan? then Orphan else Nobody, listed := false, asking := 0)
  }

  predicate CanReopen(s: Service) {
    s.closed && forall id :: id in s.jobs ==> Quiet(s.jobs[id])
  }

  /** close() has joined the workers and released the process lock, and another
      service opens the database. A start() between its insert and the lock was
      not waited for. */
  function Reopen(s: Service, now: nat): Service {
    if !CanReopen(s) then s
    else Opened(s, now, map id | id in s.jobs :: ReopenedJob(s.jobs[id]), true)
  }

  function RestartedJob(job: Job, elsewhere: bool): Job {
    job.(party := if elsewhere && job.party.Orphan? then Orphan else Nobody, listed := false, due := false,
         stopping := false, asking := 0, cut := job.cut || job.due || job.stopping)
  }

  /** The service's process dies and a new one opens the same database; orphans
      survive when they live in another process. */
  function Restart(s: Service, now: nat, elsewhere: bool): Service {
    Opened(s, now, map id | id in s.jobs :: RestartedJob(s.jobs[id], elsewhere), s.reopened && elsewhere)
  }

  predicate CanAdmit(l: Limits, s: Service, id: RunId, r: Request, now: nat, existing: Option<RunId>) {
    id !in s.runs && Lookup(s, r, existing) && Decide(l, s, r, now, existing).Admitted?
  }

  function Step(l: Limits, s: Service, op: Op): Service {
    match op
    case DoAdmit(id, r, now, existing) =>
      if CanAdmit(l, s, id, r, now, existing) then Admit(s, id, r, now, Starter) else s
    case DoAdmitLate(id, r, now, existing) =>
      if s.reopened && CanAdmit(l, s, id, r, now, existing) then Admit(s, id, r, now, Orphan) else s
    case DoSubmit(id, now) => Submit(s, id, now)
    case DoEnter(id) => if Owned(s, id, Pending) then Passed(s, id, Entered) else s
    case DoBegin(id, now) => Begin(s, id, now)
    case DoTrace(id) => RecordTrace(s, id)
    case DoComplete(id, payload, checked, finished) => Complete(s, id, payload, checked, finished)
    case DoEnd(id, ending, now) => End(s, id, ending, now)
    case DoRequestCancel(id) => AskCancel(s, id)
    case DoCancelFuture(id, now) => CancelFuture(s, id, now)
    case DoDiscard(id) => Discard(s, id)
    case DoClose => Close(s)
    case DoStop(id) => Stop(s, id)
    case DoStopFinish(id, now) => StopFinish(s, id, now)
    case DoReopen(now) => Reopen(s, now)
    case DoRestart(now, elsewhere) => Restart(s, now, elsewhere)
  }

  function Run(l: Limits, s: Service, ops: seq<Op>): Service
    decreases |ops|
  {
    if ops == [] then s else Run(l, Step(l, s, ops[0]), ops[1..])
  }

  const EMPTY := Service(map[], map[], map[], false, false)

  // ---------- invariants ----------

  /** The status a run can have while this party may still finish it. */
  predicate PartyFits(p: Party, row: Row) {
    match p
    case Starter => row.status.Queued? || row.status.Cancelling?
    case Orphan => row.status.Queued? || row.status.Cancelling? || row.status.Interrupted?
    case Pending => row.status.Queued? || row.status.Cancelling?
    case Entered => row.status.Queued? || row.status.Cancelling?
    case Working => row.status.Running? || row.status.Cancelling?
    case Revoked => row.cancelRequested && (row.status.Cancelling? || row.status.Cancelled?)
    case Nobody => Terminal(row.status)
  }

  /** What future.cancel() calls can have happened, and who still has to act. */
  predicate RevocationOk(closed: bool, job: Job, row: Row) {
    && (job.asking > 0 ==> row.cancelRequested)
    && (job.due ==> closed && job.snapped && !job.stopping && !job.stopped)
    && (job.stopping ==> closed && job.snapped && !job.stopped && job.party.Revoked?)
    && (job.due || job.stopping || job.listed ==> !job.cut)
    && (job.due && !Terminal(row.status) ==> row.cancelRequested)
    && (job.listed ==> !job.party.Starter? && !job.party.Orphan?)
    && (job.listed && job.party.Revoked? ==> closed && job.snapped)
    && (job.listed && (job.cancels > 0 || job.stopped) ==> job.party.Revoked?)
    && (job.party.Pending? ==> job.listed && (job.snapped ==> job.due))
    && (job.party.Starter? || job.party.Orphan? ==> !job.snapped && !job.cut)
    && (job.cancels > 0 || job.stopped ==> row.status.Cancelled? && (job.party.Revoked? || job.party.Nobody?))
    && (job.party.Revoked? ==> job.cancels > 0 || job.stopped || job.stopping)
    && (job.party.Revoked? && Terminal(row.status) ==> job.cancels > 0 || job.stopped)
    && (job.due && job.cancels > 0 ==> job.party.Revoked?)
    && (job.cancels > 0 ==> (job.stopped || job.due || job.stopping <==> job.snapped && !job.cut))
    && (job.stopped ==> job.snapped && !job.cut)
    && (job.cancels >= 2 ==> job.snapped)
  }

  /** How many terminal events the log of the run holds. */
  function TerminalEvents(job: Job, row: Row): nat {
    if job.cancels > 0 || job.stopped then job.cancels + if job.stopped then 1 else 0
    else if !Terminal(row.status) then 0
    else if job.overruled then 2
    else 1
  }

  predicate JobOk(closed: bool, job: Job, row: Row) {
    && PartyFits(job.party, row) && RevocationOk(closed, job, row)
    && (job.overruled ==> job.party.Nobody? && row.status.Cancelled? && job.cancels == 0 && !job.stopped)
    && (row.status.Completed? ==>
          job.checked.Some? && row.finished.Some? && job.checked.value < row.deadline
          && job.checked.value <= row.finished.value)
  }

  predicate RowOk(row: Row) {
    && (row.result.Some? <==> row.status.Completed?)
    && (row.status.Completed? ==> !row.cancelRequested)
    && (row.status.Cancelling? <==> row.cancelRequested && !Terminal(row.status))
    && (row.finished.Some? <==> Terminal(row.status))
  }

  function EventOf(s: Status): Event
    requires Terminal(s)
  {
    match s
    case Completed => CompletedEvent
    case Failed => FailedEvent
    case Cancelled => CancellationAcknowledged
    case TimedOut => TimedOutEvent
    case Interrupted => InterruptedEvent
  }

  function Terminals(log: seq<Event>): nat {
    if log == [] then 0 else Terminals(log[..|log| - 1]) + if TerminalEvent(log[|log| - 1]) then 1 else 0
  }

  /** A terminal event names the final status, or an interruption that was
      overruled. */
  predicate NamesOutcome(row: Row, e: Event, overruled: bool) {
    TerminalEvent(e) && Terminal(row.status) ==> e == EventOf(row.status) || (overruled && e.InterruptedEvent?)
  }

  /** The last event names the final status, an open run has no terminal event,
      and nothing but acknowledgements follows a terminal event. */
  ghost predicate LogOk(row: Row, log: seq<Event>, overruled: bool) {
    && (Terminal(row.status) ==> log != [] && log[|log| - 1] == EventOf(row.status))
    && (forall i :: 0 <= i < |log| ==> NamesOutcome(row, log[i], overruled))
    && (overruled ==> InterruptedEvent in log)
    && (forall i :: 0 <= i < |log| && !Terminal(row.status) ==> !TerminalEvent(log[i]))
    && (forall i, j :: 0 <= i < j < |log| && TerminalEvent(log[i]) ==> log[j].CancellationAcknowledged?)
  }

  ghost predicate RunOk(s: Service, id: RunId) {
    id in s.runs && id in s.events && id in s.jobs
    && RowOk(s.runs[id]) && JobOk(s.closed, s.jobs[id], s.runs[id])
    && LogOk(s.runs[id], s.events[id], s.jobs[id].overruled)
    && Terminals(s.events[id]) == TerminalEvents(s.jobs[id], s.runs[id])
  }

  ghost predicate WithinLimits(l: Limits, runs: map<RunId, Row>) {
    && |ActiveRuns(runs)| <= l.concurrency + l.queued
    && |LiveActiveRuns(runs)| <= l.live
    && forall day: nat :: |LiveRunsOn(runs, day)| <= l.livePerDay
  }

  ghost predicate SameKeyOwner(a: Row, b: Row) {
    a.key.Some? && a.key == b.key && a.owner == b.owner
  }

  ghost predicate KeysUnique(runs: map<RunId, Row>) {
    forall a, b :: a in runs && b in runs && SameKeyOwner(runs[a], runs[b]) ==> a == b
  }

  ghost predicate Inv(l: Limits, s: Service) {
    && s.runs.Keys == s.events.Keys == s.jobs.Keys
    && (forall id :: id in s.runs ==> RunOk(s, id))
    && WithinLimits(l, s.runs) && KeysUnique(s.runs)
  }

  /** How a row may develop: a result is final, and so is a terminal status but
      for an interruption that an orphan turns into a cancellation. */
  predicate RowEvolves(a: Row, b: Row) {
    && b.owner == a.owner && b.key == a.key && b.fingerprint == a.fingerprint && b.live == a.live
    && b.created == a.created && b.deadline == a.deadline
    && (a.cancelRequested ==> b.cancelRequested)
    && (Terminal(a.status) ==>
          (b.status == a.status || (a.status.Interrupted? && b.status.Cancelled?))
          && b.result == a.result && b.cancelRequested == a.cancelRequested)
    && (a.status.Completed? ==> b == a)
  }

  /** Nobody holds a right to finish this run once more with another status. */
  predicate Settled(job: Job, row: Row) {
    Terminal(row.status) && !job.party.Orphan?
  }

  predicate RunEvolves(a: Row, job: Job, b: Row, job': Job) {
    RowEvolves(a, b) && (Settled(job, a) ==> Settled(job', b) && b.status == a.status)
  }

  ghost predicate Evolves(a: Service, b: Service) {
    forall id :: id in a.runs && id in a.jobs ==>
      id in b.runs && id in b.jobs && RunEvolves(a.runs[id], a.jobs[id], b.runs[id], b.jobs[id])
  }

  predicate Calm(row: Row, job: Job) {
    !job.overruled && (job.party.Orphan? ==> !Terminal(row.status))
  }

  /** No finished run is, or was, in the hands of an orphan. */
  ghost predicate Unclaimed(s: Service) {
    forall id :: id in s.runs && id in s.jobs ==> Calm(s.runs[id], s.jobs[id])
  }

  /** What every step but an overtaking one does to a service. */
  ghost predicate Legal(l: Limits, s: Service, s': Service) {
    Inv(l, s') && Evolves(s, s') && (Unclaimed(s) ==> Unclaimed(s'))
  }

  // ---------- steps on one run ----------

  /** s2 is s1 but for run id. */
  ghost predicate OnlyRun(s1: Service, s2: Service, id: RunId) {
    && id in s1.runs && s2.closed == s1.closed
    && s2.runs.Keys == s1.runs.Keys && s2.events.Keys == s1.events.Keys && s2.jobs.Keys == s1.jobs.Keys
    && forall r :: r in s1.runs && r != id && r in s1.events && r in s1.jobs ==>
         s2.runs[r] == s1.runs[r] && s2.events[r] == s1.events[r] && s2.jobs[r] == s1.jobs[r]
  }

  lemma OneRunOk(l: Limits, s1: Service, s2: Service, id: RunId)
    requires Inv(l, s1) && OnlyRun(s1, s2, id)
    requires RunOk(s2, id) && RunEvolves(s1.runs[id], s1.jobs[id], s2.runs[id], s2.jobs[id])
    ensures Inv(l, s2) && Evolves(s1, s2)
  {
    hide LogOk, RowOk, JobOk, TerminalEvents, Terminals, RowEvolves;
    forall r | r in s2.runs
      ensures RunOk(s2, r) && RunEvolves(s1.runs[r], s1.jobs[r], s2.runs[r], s2.jobs[r])
    {
      assert RunOk(s1, r);
      RowEvolvesSelf(s1.runs[r]);
    }
    FewerActive(l, s1.runs, s2.runs);
    SameKeys(s1.runs, s2.runs);
  }

  lemma RowEvolvesSelf(row: Row)
    ensures RowEvolves(row, row)
  {
  }

  lemma SameKeys(a: map<RunId, Row>, b: map<RunId, Row>)
    ensures a.Keys == b.Keys && KeysUnique(a) && (forall r :: r in a ==> RowEvolves(a[r], b[r])) ==> KeysUnique(b)
  {
  }

  /** Rows that only evolve never raise a count the admission caps look at. */
  lemma FewerActive(l: Limits, a: map<RunId, Row>, b: map<RunId, Row>)
    requires a.Keys == b.Keys && forall r :: r in a ==> RowEvolves(a[r], b[r])
    requires WithinLimits(l, a)
    ensures WithinLimits(l, b)
  {
    SubsetSize(ActiveRuns(b), ActiveRuns(a));
    SubsetSize(LiveActiveRuns(b), LiveActiveRuns(a));
    forall day: nat ensures |LiveRunsOn(b, day)| <= l.livePerDay {
      assert LiveRunsOn(b, day) == LiveRunsOn(a, day);
    }
  }

  lemma {:induction false} SubsetSize<D>(a: set<D>, b: set<D>)
    requires a <= b
    ensures |a| <= |b|
  {
    if a != {} {
      var x :| x in a;
      SubsetSize(a - {x}, b - {x});
    }
  }

  lemma LogGrows(row: Row, row': Row, log: seq<Event>, e: Event, overruled: bool, overruled': bool)
    requires LogOk(row, log, overruled)
    requires if Terminal(row.status) then row'.status == Cancelled && e == CancellationAcknowledged
             else if Terminal(row'.status) then e == EventOf(row'.status)
             else !TerminalEvent(e)
    requires row.status == Interrupted ==> overruled'
    requires row.status != Interrupted && Terminal(row.status) ==> row.status == Cancelled && overruled' == overruled
    requires !Terminal(row.status) ==> overruled' == overruled
    ensures LogOk(row', log + [e], overruled')
    ensures Terminals(log + [e]) == Terminals(log) + if TerminalEvent(e) then 1 else 0
  {
    var log' := log + [e];
    assert log'[..|log|] == log;
    forall i, j | 0 <= i < j < |log'| && TerminalEvent(log'[i]) ensures log'[j].CancellationAcknowledged? {
      assert log'[i] == log[i];
    }
    forall i | 0 <= i < |log'|
      ensures NamesOutcome(row', log'[i], overruled') && (!Terminal(row'.status) ==> !TerminalEvent(log'[i]))
    {
      if i < |log| {
        assert log'[i] == log[i] && NamesOutcome(row, log[i], overruled);
      }
    }
    if row.status == Interrupted {
      assert log'[|log| - 1] == InterruptedEvent;
    } else if overruled {
      var i :| 0 <= i < |log| && log[i] == InterruptedEvent;
      assert log'[i] == InterruptedEvent;
    }
  }

  lemma LogSame(row: Row, row': Row, log: seq<Event>, overruled: bool)
    ensures LogOk(row, log, overruled)
            && (row.status == row'.status || (!Terminal(row.status) && !Terminal(row'.status))) ==>
      LogOk(row', log, overruled)
  {
  }

  lemma KnownRun(l: Limits, s: Service, id: RunId)
    ensures Inv(l, s) && id in s.runs ==> RunOk(s, id)
  {
  }

  function Updated(s: Service, id: RunId, row: Row, log: seq<Event>, job: Job): Service {
    Service(s.runs[id := row], s.events[id := log], s.jobs[id := job], s.closed, s.reopened)
  }

  /** Replacing one run by a legal successor. */
  lemma UpdateOk(l: Limits, s: Service, id: RunId, row: Row, log: seq<Event>, job: Job)
    requires Inv(l, s) && id in s.runs && id in s.jobs
    requires RowOk(row) && JobOk(s.closed, job, row) && LogOk(row, log, job.overruled)
    requires Terminals(log) == TerminalEvents(job, row)
    requires RunEvolves(s.runs[id], s.jobs[id], row, job)
    ensures Inv(l, Updated(s, id, row, log, job)) && Evolves(s, Updated(s, id, row, log, job))
    ensures Unclaimed(s) && Calm(row, job) ==> Unclaimed(Updated(s, id, row, log, job))
  {
    hide RowOk, JobOk, LogOk, RunEvolves, Evolves, TerminalEvents, Terminals, OnlyRun, RunOk, Inv, Calm, Unclaimed;
    SameTables(l, s);
    UpdatedOnly(s, id, row, log, job);
    UpdatedRunOk(s, id, row, log, job);
    OneRunOk(l, s, Updated(s, id, row, log, job), id);
    UpdatedUnclaimed(s, id, row, log, job);
  }

  lemma UpdatedUnclaimed(s: Service, id: RunId, row: Row, log: seq<Event>, job: Job)
    requires s.runs.Keys == s.jobs.Keys
    ensures Unclaimed(s) && Calm(row, job) ==> Unclaimed(Updated(s, id, row, log, job))
  {
    hide Calm;
  }

  lemma UpdatedOnly(s: Service, id: RunId, row: Row, log: seq<Event>, job: Job)
    requires s.runs.Keys == s.events.Keys == s.jobs.Keys && id in s.runs
    ensures OnlyRun(s, Updated(s, id, row, log, job), id)
  {
  }

  lemma UpdatedRunOk(s: Service, id: RunId, row: Row, log: seq<Event>, job: Job)
    requires RowOk(row) && JobOk(s.closed, job, row) && LogOk(row, log, job.overruled)
    requires Terminals(log) == TerminalEvents(job, row)
    ensures RunOk(Updated(s, id, row, log, job), id)
  {
    hide RowOk, JobOk, LogOk, TerminalEvents, Terminals;
  }

  function FinishedRow(row: Row, status: Status, result: Option<string>, error: Option<Reason>, now: nat): Row {
    row.(status := status, result := result, error := error, finished := Some(now))
  }

  /** Whoever may still finish a run can do so, whatever it finishes it with:
      the run is open, or was cancelled before, or was interrupted under an
      orphan. */
  lemma FinishOk(l: Limits, s: Service, id: RunId, status: Status, result: Option<string>, error: Option<Reason>,
                 now: nat, job: Job)
    requires Inv(l, s) && id in s.runs && id in s.events && id in s.jobs && Terminal(status)
    requires !Terminal(s.runs[id].status) || (status == Cancelled
      && (s.runs[id].status == Cancelled || (s.runs[id].status == Interrupted && s.jobs[id].party == Orphan)))
    requires result.Some? <==> status == Completed
    requires status == Completed ==> !s.runs[id].cancelRequested
    requires var row := FinishedRow(s.runs[id], status, result, error, now);
      JobOk(s.closed, job, row) && TerminalEvents(job, row) == TerminalEvents(s.jobs[id], s.runs[id]) + 1
    requires job.overruled == (s.jobs[id].overruled || s.runs[id].status.Interrupted?) && !job.party.Orphan?
    ensures var s' := WithJob(Finish(s, id, status, result, error, now, EventOf(status)), id, job);
      Legal(l, s, s')
  {
    hide LogOk, Inv, Evolves, JobOk, TerminalEvents, Terminals, Unclaimed;
    KnownRun(l, s, id);
    CalmRun(s, id);
    PartyOfJob(s.closed, s.jobs[id], s.runs[id]);
    var row := FinishedRow(s.runs[id], status, result, error, now);
    PartyOfJob(s.closed, job, row);
    LogGrows(s.runs[id], row, s.events[id], EventOf(status), s.jobs[id].overruled, job.overruled);
    UpdateOk(l, s, id, row, s.events[id] + [EventOf(status)], job);
  }

  lemma CalmRun(s: Service, id: RunId)
    ensures Unclaimed(s) && id in s.runs && id in s.jobs ==> Calm(s.runs[id], s.jobs[id])
  {
  }

  lemma PartyOfJob(closed: bool, job: Job, row: Row)
    ensures JobOk(closed, job, row) ==> PartyFits(job.party, row)
  {
  }

  /** A step that leaves the run open, with one more event in its log. */
  lemma OpenStepOk(l: Limits, s: Service, id: RunId, row: Row, e: Event, job: Job)
    requires Inv(l, s) && id in s.runs && !Terminal(s.runs[id].status) && !Terminal(row.status) && !TerminalEvent(e)
    requires RowOk(row) && RowEvolves(s.runs[id], row) && JobOk(s.closed, job, row)
    requires id in s.jobs && job.overruled == s.jobs[id].overruled
    ensures id in s.events
    ensures var s' := Updated(s, id, row, s.events[id] + [e], job);
      Legal(l, s, s')
  {
    hide LogOk, Inv, Evolves, RowOk, RowEvolves, Terminals, Unclaimed;
    KnownRun(l, s, id);
    CalmRun(s, id);
    LogGrows(s.runs[id], row, s.events[id], e, job.overruled, job.overruled);
    UpdateOk(l, s, id, row, s.events[id] + [e], job);
  }

  /** A step that changes nothing in the database. */
  lemma JobStepOk(l: Limits, s: Service, id: RunId, job: Job)
    requires Inv(l, s) && id in s.runs && id in s.jobs && JobOk(s.closed, job, s.runs[id])
    requires TerminalEvents(job, s.runs[id]) == TerminalEvents(s.jobs[id], s.runs[id])
    requires (job.party.Orphan? ==> s.jobs[id].party.Orphan?) && job.overruled == s.jobs[id].overruled
    ensures Legal(l, s, WithJob(s, id, job))
  {
    hide LogOk, Inv, Evolves, RowOk, JobOk, RowEvolves, TerminalEvents, Terminals, Unclaimed;
    KnownRun(l, s, id);
    CalmRun(s, id);
    RowEvolvesSelf(s.runs[id]);
    UpdateOk(l, s, id, s.runs[id], s.events[id], job);
    assert Updated(s, id, s.runs[id], s.events[id], job) == WithJob(s, id, job) by {
      assert s.runs[id := s.runs[id]] == s.runs && s.events[id := s.events[id]] == s.events;
    }
  }

  lemma OwnedFacts(l: Limits, s: Service, id: RunId)
    requires Inv(l, s) && id in s.runs
    ensures id in s.events && id in s.jobs && JobOk(s.closed, s.jobs[id], s.runs[id]) && RowOk(s.runs[id])
  {
    hide LogOk, JobOk, RowOk, Terminals, TerminalEvents;
    assert RunOk(s, id);
  }

  lemma SubmitOk(l: Limits, s: Service, id: RunId, now: nat)
    requires Inv(l, s)
    ensures Legal(l, s, Submit(s, id, now))
  {
    hide Inv, Evolves, Unclaimed;
    EvolvesSelf(s);
    if id in s.runs && (Owned(s, id, Starter) || Owned(s, id, Orphan)) {
      OwnedFacts(l, s, id);
      var job := s.jobs[id];
      if job.party.Orphan? {
        FinishOk(l, s, id, Cancelled, None, Some(StoppedBeforeStart), now,
                 job.(party := Nobody, overruled := s.runs[id].status.Interrupted?));
      } else if s.closed {
        FinishOk(l, s, id, Cancelled, None, Some(StoppedBeforeStart), now, job.(party := Nobody));
      } else {
        JobStepOk(l, s, id, job.(party := Pending, listed := true));
      }
    }
  }

  lemma EnterOk(l: Limits, s: Service, id: RunId)
    requires Inv(l, s)
    ensures Owned(s, id, Pending) ==> Legal(l, s, Passed(s, id, Entered))
  {
    hide Inv, Evolves, Unclaimed;
    if Owned(s, id, Pending) {
      OwnedFacts(l, s, id);
      JobStepOk(l, s, id, s.jobs[id].(party := Entered));
    }
  }

  lemma BeginOk(l: Limits, s: Service, id: RunId, now: nat)
    requires Inv(l, s)
    ensures Legal(l, s, Begin(s, id, now))
  {
    hide Inv, Evolves, Unclaimed;
    EvolvesSelf(s);
    if Owned(s, id, Entered) {
      OwnedFacts(l, s, id);
      var job := s.jobs[id];
      if s.runs[id].cancelRequested {
        FinishOk(l, s, id, Cancelled, None, Some(CancelledBeforeStart), now, job.(party := Nobody));
      } else {
        OpenStepOk(l, s, id, s.runs[id].(status := Running), Started, job.(party := Working));
      }
    }
  }

  lemma CompleteOk(l: Limits, s: Service, id: RunId, payload: string, checked: nat, finished: nat)
    requires Inv(l, s)
    ensures Legal(l, s, Complete(s, id, payload, checked, finished))
  {
    hide Inv, Evolves, Unclaimed;
    EvolvesSelf(s);
    if Owned(s, id, Working) && checked <= finished {
      OwnedFacts(l, s, id);
      var job := s.jobs[id].(party := Nobody);
      if s.runs[id].cancelRequested {
        FinishOk(l, s, id, Cancelled, None, Some(AcknowledgedByWorker), finished, job);
      } else if checked >= s.runs[id].deadline {
        FinishOk(l, s, id, TimedOut, None, Some(DeadlineExceeded), finished, job);
      } else {
        FinishOk(l, s, id, Completed, Some(payload), None, finished, job.(checked := Some(checked)));
      }
    }
  }

  lemma EndOk(l: Limits, s: Service, id: RunId, ending: Ending, now: nat)
    requires Inv(l, s)
    ensures Legal(l, s, End(s, id, ending, now))
  {
    hide Inv, Evolves, Unclaimed;
    EvolvesSelf(s);
    if Owned(s, id, Working) {
      OwnedFacts(l, s, id);
      var job := s.jobs[id].(party := Nobody);
      match ending
      case ByCancellation => FinishOk(l, s, id, Cancelled, None, Some(AcknowledgedByWorker), now, job);
      case ByTimeout => FinishOk(l, s, id, TimedOut, None, Some(DeadlineExceeded), now, job);
      case ByError(message) => FinishOk(l, s, id, Failed, None, Some(Raised(message)), now, job);
    }
  }

  lemma AskCancelOk(l: Limits, s: Service, id: RunId)
    requires Inv(l, s)
    ensures Legal(l, s, AskCancel(s, id))
  {
    hide Inv, Evolves, Unclaimed;
    EvolvesSelf(s);
    if id in s.runs && !Terminal(s.runs[id].status) {
      OwnedFacts(l, s, id);
      var row := s.runs[id].(cancelRequested := true, status := Cancelling);
      OpenStepOk(l, s, id, row, CancellationRequested, s.jobs[id].(asking := s.jobs[id].asking + 1));
    }
  }

  lemma TraceOk(l: Limits, s: Service, id: RunId)
    requires Inv(l, s)
    ensures Legal(l, s, RecordTrace(s, id))
  {
    hide Inv, Evolves, Unclaimed, JobOk;
    EvolvesSelf(s);
    if id in s.runs && !Terminal(s.runs[id].status) {
      OwnedFacts(l, s, id);
      OpenStepOk(l, s, id, s.runs[id], Trace, s.jobs[id]);
      assert s.jobs[id := s.jobs[id]] == s.jobs && s.runs[id := s.runs[id]] == s.runs;
    }
  }

  lemma CancelFutureOk(l: Limits, s: Service, id: RunId, now: nat)
    requires Inv(l, s)
    ensures Legal(l, s, CancelFuture(s, id, now))
  {
    hide Inv, Evolves, Unclaimed;
    EvolvesSelf(s);
    if id in s.runs {
      OwnedFacts(l, s, id);
      if s.jobs[id].asking > 0 {
        var job := s.jobs[id].(asking := s.jobs[id].asking - 1);
        if job.listed && (job.party.Pending? || job.party.Revoked?) {
          FinishOk(l, s, id, Cancelled, None, Some(CancelledBeforeStart), now,
                   job.(party := Revoked, listed := job.party.Revoked?, cancels := job.cancels + 1));
        } else {
          JobStepOk(l, s, id, job);
        }
      }
    }
  }

  lemma DiscardOk(l: Limits, s: Service, id: RunId)
    requires Inv(l, s)
    ensures Legal(l, s, Discard(s, id))
  {
    hide Inv, Evolves, Unclaimed;
    EvolvesSelf(s);
    SameTables(l, s);
    if id in s.jobs && (s.jobs[id].party.Revoked? || s.jobs[id].party.Nobody?) {
      OwnedFacts(l, s, id);
      JobStepOk(l, s, id, s.jobs[id].(listed := false));
    }
  }

  lemma SameTables(l: Limits, s: Service)
    ensures Inv(l, s) ==> s.runs.Keys == s.events.Keys == s.jobs.Keys
  {
  }

  lemma StopOk(l: Limits, s: Service, id: RunId)
    requires Inv(l, s)
    ensures Legal(l, s, Stop(s, id))
  {
    hide Inv, Evolves, Unclaimed;
    EvolvesSelf(s);
    SameTables(l, s);
    if id in s.jobs && s.jobs[id].due {
      OwnedFacts(l, s, id);
      var job := s.jobs[id].(due := false);
      var revoked := job.(party := Revoked, stopping := true);
      JobStepOk(l, s, id, if job.party.Pending? || job.party.Revoked? then revoked else job);
    }
  }

  lemma StopFinishOk(l: Limits, s: Service, id: RunId, now: nat)
    requires Inv(l, s)
    ensures Legal(l, s, StopFinish(s, id, now))
  {
    hide Inv, Evolves, Unclaimed;
    EvolvesSelf(s);
    if id in s.runs {
      OwnedFacts(l, s, id);
      if s.jobs[id].stopping {
        FinishOk(l, s, id, Cancelled, None, Some(StoppedBeforeStart), now,
                 s.jobs[id].(stopping := false, stopped := true));
      }
    }
  }

  lemma EvolvesSelf(s: Service)
    ensures Evolves(s, s)
  {
  }
}
