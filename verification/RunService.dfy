/** The run service object: its tables are fields, and each method is one
    transaction or one stretch of code under the lock. */
module RunServices {
  import opened Wrappers
  import opened RunModel
  import opened RunGuarantees

  class RunService {
    const limits: Limits
    var runs: map<RunId, Row>
    var events: map<RunId, seq<Event>>
    /** The future of each run, the threads around it, and its history. */
    var jobs: map<RunId, Job>
    var closed: bool
    /** A service closed earlier may still have calls in flight. */
    ghost var reopened: bool

    ghost function State(): Service
      reads this
    {
      Service(runs, events, jobs, closed, reopened)
    }

    ghost predicate Valid()
      reads this
    {
      Inv(limits, State())
    }

    constructor (limits: Limits)
      ensures State() == EMPTY && Valid() && this.limits == limits
    {
      this.limits := limits;
      runs, events, jobs, closed, reopened := map[], map[], map[], false, false;
      new;
      EmptyOk(limits);
    }

    /** The queries of the admission transaction: the row the key names decides, if
        there is one, and the three caps otherwise, in their order. */
    method DecideAdmission(r: Request, now: nat) returns (a: Admission, ghost existing: Option<RunId>)
      requires Valid()
      ensures Lookup(State(), r, existing) && a == Decide(limits, State(), r, now, existing)
      ensures forall x :: x in runs && Names(r, runs[x]) ==>
        a == if runs[x].fingerprint == r.fingerprint then Existing(x) else KeyConflict
      ensures (forall x :: x in runs ==> !Names(r, runs[x])) ==>
        a == if |set x | x in runs && !Terminal(runs[x].status)| >= limits.concurrency + limits.queued then Full
             else if r.live && |set x | x in runs && !Terminal(runs[x].status) && runs[x].live| >= limits.live
             then LiveFull
             else if r.live && |set x | x in runs && runs[x].live && runs[x].created / 86400 == now / 86400|
                               >= limits.livePerDay
             then DayFull
             else Admitted
    {
      hide Inv, Evolves;
      var found: Option<RunId> := None;
      if r.key.Some? {
        var named := SameKey(runs, r.owner, r.key.value);
        if named != {} {
          var id :| id in named;
          found := Some(id);
        }
      }
      existing := found;
      KeysAreUnique(limits, State(), r);
      forall x | x in runs && Names(r, runs[x]) ensures found == Some(x) {
        assert x in SameKey(runs, r.owner, r.key.value);
      }
      if found.Some? {
        a := if runs[found.value].fingerprint == r.fingerprint then Existing(found.value) else KeyConflict;
        return;
      }
      if |ActiveRuns(runs)| >= limits.concurrency + limits.queued {
        return Full, existing;
      }
      if r.live {
        if |LiveActiveRuns(runs)| >= limits.live {
          return LiveFull, existing;
        }
        if |LiveRunsOn(runs, now / DAY)| >= limits.livePerDay {
          return DayFull, existing;
        }
      }
      return Admitted, existing;
    }

    /** The admission transaction of start(). The id is freshly drawn. A late
        start() belongs to a service that was closed before the database was
        opened again. */
    method AdmitRun(id: RunId, r: Request, now: nat, late: bool) returns (a: Admission)
      requires Valid() && id !in runs && (late ==> reopened)
      modifies this
      ensures Valid() && Evolves(old(State()), State())
      ensures a.Admitted? ==> State() == Admit(old(State()), id, r, now, if late then Orphan else Starter)
      ensures a.Admitted? ==> exists existing ::
        State() == Step(limits, old(State()),
                        if late then DoAdmitLate(id, r, now, existing) else DoAdmit(id, r, now, existing))
      ensures !a.Admitted? ==> State() == old(State())
      ensures exists existing ::
        Lookup(old(State()), r, existing) && a == Decide(limits, old(State()), r, now, existing)
      ensures forall x :: x in old(runs) && Names(r, old(runs)[x]) ==>
        a == if old(runs)[x].fingerprint == r.fingerprint then Existing(x) else KeyConflict
      ensures (forall x :: x in old(runs) ==> !Names(r, old(runs)[x])) ==> !a.Existing? && !a.KeyConflict?
      ensures a.Admitted? ==>
        runs == old(runs)[id := Row(r.owner, r.key, r.fingerprint, r.live, Queued, now, now + r.seconds,
                                    false, None, None, None)]
        && events == old(events)[id := [QueuedEvent]]
    {
      hide Inv, Evolves, Decide, Step;
      ghost var s := State();
      EvolvesSelf(s);
      ghost var existing;
      a, existing := DecideAdmission(r, now);
      if !a.Admitted? {
        return;
      }
      var party := if late then Orphan else Starter;
      AdmitOk(limits, s, id, r, now, existing, party);
      StepIs(limits, s, if late then DoAdmitLate(id, r, now, existing) else DoAdmit(id, r, now, existing));
      runs := runs[id := NewRow(r, now)];
      events := events[id := [QueuedEvent]];
      jobs := jobs[id := NewJob(party)];
    }

    /** The update every ending goes through; it looks at nothing. */
    method FinishRow(id: RunId, status: Status, result: Option<string>, error: Option<Reason>, now: nat, event: Event)
      requires id in runs && id in events
      modifies this`runs, this`events
      ensures State() == Finish(old(State()), id, status, result, error, now, event)
    {
      runs := runs[id := runs[id].(status := status, result := result, error := error, finished := Some(now))];
      events := events[id := events[id] + [event]];
    }

    /** start(), under the lock: false when its service was closed meanwhile. */
    method SubmitRun(id: RunId, now: nat) returns (submitted: bool)
      requires Valid() && (Owned(State(), id, Starter) || Owned(State(), id, Orphan))
      modifies this
      ensures State() == Step(limits, old(State()), DoSubmit(id, now))
      ensures State() == Submit(old(State()), id, now) && Valid() && Evolves(old(State()), State())
      ensures submitted <==> !closed && old(Owned(State(), id, Starter))
      ensures submitted ==>
        runs == old(runs) && events == old(events) && id in jobs && jobs[id].party == Pending && jobs[id].listed
      ensures !submitted ==>
        Ended(old(runs), old(events), runs, events, id, Cancelled, None, Some(StoppedBeforeStart), now,
              CancellationAcknowledged)
    {
      hide Inv, Evolves, Step;
      StepIs(limits, State(), DoSubmit(id, now));
      SubmitOk(limits, State(), id, now);
      if closed || jobs[id].party.Orphan? {
        var interrupted := runs[id].status.Interrupted?;
        FinishRow(id, Cancelled, None, Some(StoppedBeforeStart), now, CancellationAcknowledged);
        jobs := jobs[id := if jobs[id].party.Orphan? then jobs[id].(party := Nobody, overruled := interrupted)
                           else jobs[id].(party := Nobody)];
        return false;
      }
      jobs := jobs[id := jobs[id].(party := Pending, listed := true)];
      return true;
    }

    /** The executor takes the future; from here it can no longer be cancelled. */
    method EnterWorker(id: RunId)
      requires Valid() && Owned(State(), id, Pending)
      modifies this`jobs
      ensures State() == Step(limits, old(State()), DoEnter(id))
      ensures State() == Passed(old(State()), id, Entered) && Valid()
      ensures jobs == old(jobs)[id := old(jobs)[id].(party := Entered)]
    {
      hide Inv, Evolves, Step;
      StepIs(limits, State(), DoEnter(id));
      EnterOk(limits, State(), id);
      jobs := jobs[id := jobs[id].(party := Entered)];
    }

    /** The worker's first transaction; true when the run goes ahead. */
    method BeginWork(id: RunId, now: nat) returns (started: bool)
      requires Valid() && Owned(State(), id, Entered)
      modifies this
      ensures State() == Step(limits, old(State()), DoBegin(id, now))
      ensures State() == Begin(old(State()), id, now) && Valid() && Evolves(old(State()), State())
      ensures started <==> !old(runs[id].cancelRequested)
      ensures started ==> runs == old(runs)[id := old(runs)[id].(status := Running)]
      ensures started ==> events == old(events)[id := old(events)[id] + [Started]] && jobs[id].party == Working
      ensures !started ==>
        Ended(old(runs), old(events), runs, events, id, Cancelled, None, Some(CancelledBeforeStart), now,
              CancellationAcknowledged)
    {
      hide Inv, Evolves, RevocationOk, Step;
      StepIs(limits, State(), DoBegin(id, now));
      BeginOk(limits, State(), id, now);
      OwnedFacts(limits, State(), id);
      if !runs[id].status.Queued? && !runs[id].status.Cancelling? {
        assert false;
      }
      if runs[id].cancelRequested {
        FinishRow(id, Cancelled, None, Some(CancelledBeforeStart), now, CancellationAcknowledged);
        jobs := jobs[id := jobs[id].(party := Nobody)];
        return false;
      }
      runs := runs[id := runs[id].(status := Running)];
      events := events[id := events[id] + [Started]];
      jobs := jobs[id := jobs[id].(party := Working)];
      return true;
    }

    /** Append a progress event unless the run is over. */
    method RecordTraceEvent(id: RunId)
      requires Valid()
      modifies this`events
      ensures State() == Step(limits, old(State()), DoTrace(id))
      ensures State() == RecordTrace(old(State()), id) && Valid()
      ensures id in runs && !Terminal(runs[id].status) ==>
        id in old(events) && events == old(events)[id := old(events)[id] + [Trace]]
      ensures id !in runs || Terminal(runs[id].status) ==> events == old(events)
    {
      hide Inv, Evolves, Step;
      StepIs(limits, State(), DoTrace(id));
      TraceOk(limits, State(), id);
      SameTables(limits, State());
      if id !in runs || id !in events || Terminal(runs[id].status) {
        return;
      }
      events := events[id := events[id] + [Trace]];
    }

    /** The worker's last transaction when the pipeline returned a result. The
        clock is read for the deadline check and again for the finish time. */
    method CompleteRun(id: RunId, payload: string, checked: nat, finished: nat)
      requires Valid() && Owned(State(), id, Working) && checked <= finished
      modifies this
      ensures State() == Step(limits, old(State()), DoComplete(id, payload, checked, finished))
      ensures State() == Complete(old(State()), id, payload, checked, finished) && Valid()
      ensures Evolves(old(State()), State())
      ensures old(runs[id].cancelRequested) ==>
        Ended(old(runs), old(events), runs, events, id, Cancelled, None, Some(AcknowledgedByWorker), finished,
              CancellationAcknowledged)
      ensures !old(runs[id].cancelRequested) && checked >= old(runs[id].deadline) ==>
        Ended(old(runs), old(events), runs, events, id, TimedOut, None, Some(DeadlineExceeded), finished,
              TimedOutEvent)
      ensures !old(runs[id].cancelRequested) && checked < old(runs[id].deadline) ==>
        Ended(old(runs), old(events), runs, events, id, Completed, Some(payload), None, finished, CompletedEvent)
      ensures !old(runs[id].cancelRequested) && checked < old(runs[id].deadline) ==>
        runs[id].result == Some(payload) && runs[id].finished == Some(finished)
    {
      hide Inv, Evolves, Step;
      StepIs(limits, State(), DoComplete(id, payload, checked, finished));
      CompleteOk(limits, State(), id, payload, checked, finished);
      if runs[id].cancelRequested {
        FinishRow(id, Cancelled, None, Some(AcknowledgedByWorker), finished, CancellationAcknowledged);
        jobs := jobs[id := jobs[id].(party := Nobody)];
      } else if checked >= runs[id].deadline {
        FinishRow(id, TimedOut, None, Some(DeadlineExceeded), finished, TimedOutEvent);
        jobs := jobs[id := jobs[id].(party := Nobody)];
      } else {
        FinishRow(id, Completed, Some(payload), None, finished, CompletedEvent);
        jobs := jobs[id := jobs[id].(party := Nobody, checked := Some(checked))];
      }
    }

    /** The worker's last transaction otherwise. */
    method EndRun(id: RunId, ending: Ending, now: nat)
      requires Valid() && Owned(State(), id, Working)
      modifies this
      ensures State() == Step(limits, old(State()), DoEnd(id, ending, now))
      ensures State() == End(old(State()), id, ending, now) && Valid()
      ensures Evolves(old(State()), State())
      ensures ending.ByCancellation? ==>
        Ended(old(runs), old(events), runs, events, id, Cancelled, None, Some(AcknowledgedByWorker), now,
              CancellationAcknowledged)
      ensures ending.ByTimeout? ==>
        Ended(old(runs), old(events), runs, events, id, TimedOut, None, Some(DeadlineExceeded), now, TimedOutEvent)
      ensures ending.ByError? ==>
        Ended(old(runs), old(events), runs, events, id, Failed, None, Some(Raised(ending.message)), now, FailedEvent)
    {
      hide Inv, Evolves, Step;
      StepIs(limits, State(), DoEnd(id, ending, now));
      EndOk(limits, State(), id, ending, now);
      match ending {
        case ByCancellation =>
          FinishRow(id, Cancelled, None, Some(AcknowledgedByWorker), now, CancellationAcknowledged);
        case ByTimeout => FinishRow(id, TimedOut, None, Some(DeadlineExceeded), now, TimedOutEvent);
        case ByError(message) => FinishRow(id, Failed, None, Some(Raised(message)), now, FailedEvent);
      }
      jobs := jobs[id := jobs[id].(party := Nobody)];
    }

    /** The transaction of cancel(); true when the run was still open. */
    method AskCancelRun(id: RunId) returns (asked: bool)
      requires Valid() && id in runs
      modifies this`runs, this`events, this`jobs
      ensures State() == Step(limits, old(State()), DoRequestCancel(id))
      ensures State() == AskCancel(old(State()), id) && Valid() && Evolves(old(State()), State())
      ensures asked <==> !old(Terminal(runs[id].status))
      ensures !asked ==> State() == old(State())
      ensures asked ==> runs == old(runs)[id := old(runs)[id].(cancelRequested := true, status := Cancelling)]
      ensures asked ==>
        id in old(events) && events == old(events)[id := old(events)[id] + [CancellationRequested]]
    {
      hide Inv, Evolves, JobOk, Step;
      StepIs(limits, State(), DoRequestCancel(id));
      AskCancelOk(limits, State(), id);
      OwnedFacts(limits, State(), id);
      if Terminal(runs[id].status) {
        return false;
      }
      runs := runs[id := runs[id].(cancelRequested := true, status := Cancelling)];
      events := events[id := events[id] + [CancellationRequested]];
      jobs := jobs[id := jobs[id].(asking := jobs[id].asking + 1)];
      return true;
    }

    /** cancel(), under the lock: revoke a listed future that has not started and
        finish the run. Revoking a pending future also takes it off the list. */
    method CancelListed(id: RunId, now: nat)
      requires Valid() && id in runs && id in jobs && jobs[id].asking > 0
      modifies this`runs, this`events, this`jobs
      ensures State() == Step(limits, old(State()), DoCancelFuture(id, now))
      ensures State() == CancelFuture(old(State()), id, now) && Valid() && Evolves(old(State()), State())
      ensures old(jobs[id].listed && (jobs[id].party.Pending? || jobs[id].party.Revoked?)) ==>
        Ended(old(runs), old(events), runs, events, id, Cancelled, None, Some(CancelledBeforeStart), now,
              CancellationAcknowledged)
      ensures !old(jobs[id].listed && (jobs[id].party.Pending? || jobs[id].party.Revoked?)) ==>
        runs == old(runs) && events == old(events)
    {
      hide Inv, Evolves, JobOk, Step;
      StepIs(limits, State(), DoCancelFuture(id, now));
      CancelFutureOk(limits, State(), id, now);
      OwnedFacts(limits, State(), id);
      var job := jobs[id].(asking := jobs[id].asking - 1);
      if !job.listed || (!job.party.Pending? && !job.party.Revoked?) {
        jobs := jobs[id := job];
        return;
      }
      FinishRow(id, Cancelled, None, Some(CancelledBeforeStart), now, CancellationAcknowledged);
      jobs := jobs[id := job.(party := Revoked, listed := job.party.Revoked?, cancels := job.cancels + 1)];
    }

    /** cancel(): mark the row, then take the future away from the executor if
        it has not started, and acknowledge on its behalf. */
    method CancelRun(id: RunId, now: nat)
      requires Valid() && id in runs
      modifies this
      ensures Valid() && Evolves(old(State()), State())
      ensures old(Terminal(runs[id].status)) ==> State() == old(State())
      ensures old(!Terminal(runs[id].status)) ==> id in runs && runs[id].cancelRequested
      ensures old(!Terminal(runs[id].status) && Owned(State(), id, Pending)) ==>
        && runs[id].status == Cancelled && runs[id].result == None && runs[id].error == Some(CancelledBeforeStart)
        && runs[id].finished == Some(now) && jobs[id].party == Revoked && !jobs[id].listed
      ensures forall x :: x in old(runs) && x != id ==> x in runs && runs[x] == old(runs)[x]
    {
      hide Inv, Evolves;
      ghost var s := State();
      EvolvesSelf(s);
      OwnedFacts(limits, s, id);
      var asked := AskCancelRun(id);
      if asked {
        ghost var between := State();
        CancelListed(id, now);
        EvolvesTransitive(s, between, State());
      }
    }

    /** The row loop of close()'s transaction. */
    method MarkOpenRuns()
      requires !closed && runs.Keys == events.Keys
      modifies this`runs, this`events
      ensures runs == Close(old(State())).runs && events == Close(old(State())).events
    {
      hide Close, ClosedLog, ClosedRow, Swept;
      ghost var s := State();
      var open := ActiveRuns(runs);
      CloseSweep(s);
      while open != {}
        invariant open <= ActiveRuns(s.runs) && Swept(s, Close(s), runs, events, open)
        decreases |open|
      {
        var id :| id in open;
        CloseSweepRow(s, id);
        SweptStep(s, Close(s), runs, events, open, id);
        open := open - {id};
        var requested := runs[id].cancelRequested;
        runs := runs[id := runs[id].(cancelRequested := true, status := Cancelling)];
        if !requested {
          events := events[id := events[id] + [CancellationRequested]];
        }
      }
      SweptAll(s, Close(s), runs, events);
    }

    /** The done-callback of a future that has run or was revoked. */
    method DiscardFuture(id: RunId)
      requires Valid() && id in jobs && (jobs[id].party.Revoked? || jobs[id].party.Nobody?)
      modifies this`jobs
      ensures State() == Step(limits, old(State()), DoDiscard(id)) && Valid()
      ensures jobs == old(jobs)[id := old(jobs)[id].(listed := false)]
    {
      hide Inv, Evolves, Step;
      StepIs(limits, State(), DoDiscard(id));
      DiscardOk(limits, State(), id);
      jobs := jobs[id := jobs[id].(listed := false)];
    }

    /** close(), under the lock: every open run is asked to stop, and the listed
        futures are copied. */
    method CloseTables()
      requires Valid()
      modifies this
      ensures State() == Step(limits, old(State()), DoClose)
      ensures State() == Close(old(State())) && Valid() && Evolves(old(State()), State()) && closed
      ensures !old(closed) ==> runs.Keys == old(runs).Keys && events.Keys == old(events).Keys
      ensures !old(closed) ==> forall x :: x in runs ==>
        if Terminal(old(runs)[x].status) then Untouched(old(runs), old(events), runs, events, x)
        else x in events && x in old(events)
             && runs[x] == old(runs)[x].(cancelRequested := true, status := Cancelling)
             && events[x] == old(events)[x]
                + (if old(runs)[x].cancelRequested then [] else [CancellationRequested])
    {
      hide Inv, Evolves, Close, SnappedJob, Step;
      StepIs(limits, State(), DoClose);
      CloseOk(limits, State());
      CloseFields(State());
      SameTables(limits, State());
      if closed {
        return;
      }
      ClosedTables(State());
      MarkOpenRuns();
      jobs := map id | id in jobs :: SnappedJob(jobs[id]);
      closed := true;
    }

    /** close(), one future of its copy: future.cancel(). */
    method StopFuture(id: RunId) returns (revoked: bool)
      requires Valid() && id in jobs && jobs[id].due
      modifies this`jobs
      ensures State() == Step(limits, old(State()), DoStop(id))
      ensures State() == Stop(old(State()), id) && Valid() && Evolves(old(State()), State())
      ensures revoked <==> jobs[id].stopping
      ensures revoked <==> old(jobs[id].party.Pending? || jobs[id].party.Revoked?)
      ensures jobs == old(jobs)[id := if revoked then old(jobs)[id].(due := false, party := Revoked, stopping := true)
                                      else old(jobs)[id].(due := false)]
    {
      hide Inv, Evolves, Step;
      StepIs(limits, State(), DoStop(id));
      StopOk(limits, State(), id);
      SameTables(limits, State());
      OwnedFacts(limits, State(), id);
      var job := jobs[id].(due := false);
      if job.party.Pending? || job.party.Revoked? {
        jobs := jobs[id := job.(party := Revoked, stopping := true)];
        return true;
      }
      jobs := jobs[id := job];
      return false;
    }

    /** close(), the transaction after future.cancel() returned true. */
    method StopFinishRun(id: RunId, now: nat)
      requires Valid() && id in runs && id in events && id in jobs && jobs[id].stopping
      modifies this`runs, this`events, this`jobs
      ensures State() == Step(limits, old(State()), DoStopFinish(id, now))
      ensures State() == StopFinish(old(State()), id, now) && Valid() && Evolves(old(State()), State())
      ensures Ended(old(runs), old(events), runs, events, id, Cancelled, None, Some(StoppedBeforeStart), now,
                    CancellationAcknowledged)
    {
      hide Inv, Evolves, Step;
      StepIs(limits, State(), DoStopFinish(id, now));
      StopFinishOk(limits, State(), id, now);
      FinishRow(id, Cancelled, None, Some(StoppedBeforeStart), now, CancellationAcknowledged);
      jobs := jobs[id := jobs[id].(stopping := false, stopped := true)];
    }

    /** The future loop of close(). */
    method StopListed(now: nat)
      requires Valid() && OpenAreMarked(runs) && Remaining(jobs, set id | id in jobs && jobs[id].due)
      modifies this`runs, this`events, this`jobs
      ensures Valid() && Evolves(old(State()), State())
      ensures OpenAreMarked(runs) && Remaining(jobs, {})
    {
      hide Inv, Evolves, OpenAreMarked, Remaining, Stop, StopFinish;
      ghost var s := State();
      EvolvesSelf(s);
      var queue := set id | id in jobs && jobs[id].due;
      while queue != {}
        invariant Valid() && Evolves(s, State()) && queue <= jobs.Keys
        invariant OpenAreMarked(runs) && Remaining(jobs, queue)
        decreases |queue|
      {
        var id :| id in queue;
        ghost var before := State();
        RemainingIsDue(limits, before, queue, id);
        var revoked := StopFuture(id);
        ghost var between := State();
        StopKeepsRemaining(before, queue, id);
        EvolvesTransitive(s, before, between);
        if revoked {
          SameTables(limits, between);
          StopFinishRun(id, now);
          EvolvesTransitive(s, between, State());
        }
        AcknowledgedRemaining(before, queue, id, now);
        queue := queue - {id};
      }
    }

    /** close(): afterwards nothing new starts, no future is left to stop, and
        whatever is still open is in the hands of a worker or of a start() that
        will see the closed flag. When a worker has closed an event loop that
        close() had copied, waking it up raises: then no future is stopped, and
        no second close() makes up for it. */
    method CloseService(now: nat, loopGone: bool) returns (raised: bool)
      requires Valid()
      modifies this
      ensures Valid() && Evolves(old(State()), State()) && closed
      ensures raised <==> loopGone && !old(closed)
      ensures old(closed) ==> State() == old(State())
      ensures raised ==> State() == Close(old(State()))
      ensures !old(closed) ==> forall id :: id in runs && !Terminal(runs[id].status) ==>
        runs[id].cancelRequested && (InHand(State(), id) || (raised && id in jobs && jobs[id].party.Pending?))
      ensures !old(closed) && !raised ==> Remaining(jobs, {})
    {
      hide Inv, Evolves, Close, Remaining, OpenAreMarked;
      ghost var s := State();
      EvolvesSelf(s);
      if closed {
        return false;
      }
      ClosedOpenRuns(s);
      CloseFields(s);
      ClosedRemaining(limits, s);
      CloseTables();
      ghost var marked := State();
      OpenHaveParty(limits, marked, set id | id in jobs && jobs[id].due);
      if loopGone {
        return true;
      }
      StopListed(now);
      EvolvesTransitive(s, marked, State());
      StoppedIsInHand(limits, State());
      return false;
    }

    /** The row loop of the startup transaction. */
    method InterruptOpenRuns(now: nat)
      requires runs.Keys == events.Keys
      modifies this`runs, this`events
      ensures var s := Opened(old(State()), now, jobs, reopened); runs == s.runs && events == s.events
    {
      hide Opened, InterruptedLog, InterruptedRow, Swept, ActiveRuns;
      ghost var s := State();
      ghost var t := Opened(s, now, jobs, reopened);
      var open := ActiveRuns(runs);
      OpenSweep(s, now, jobs, reopened);
      while open != {}
        invariant open <= ActiveRuns(s.runs) && Swept(s, t, runs, events, open)
        decreases |open|
      {
        var id :| id in open;
        OpenSweepRow(s, id, now, jobs, reopened);
        SweptStep(s, t, runs, events, open, id);
        open := open - {id};
        runs := runs[id := runs[id].(status := Interrupted, error := Some(ServiceRestarted), finished := Some(now))];
        events := events[id := events[id] + [InterruptedEvent]];
      }
      SweptAll(s, t, runs, events);
    }

    /** Startup after a process death: what was left open is interrupted. */
    method InterruptAbandonedRuns(now: nat, elsewhere: bool)
      requires Valid()
      modifies this
      ensures State() == Step(limits, old(State()), DoRestart(now, elsewhere))
      ensures State() == Restart(old(State()), now, elsewhere) && Valid() && Evolves(old(State()), State())
      ensures runs.Keys == old(runs).Keys && events.Keys == old(events).Keys && !closed
      ensures forall id :: id in runs ==>
        if Terminal(old(runs)[id].status) then Untouched(old(runs), old(events), runs, events, id)
        else Broken(old(runs), old(events), runs, events, id, now)
    {
      hide Inv, Evolves, RestartedJob, Untouched, Broken, Step, Opened, Restart;
      StepIs(limits, State(), DoRestart(now, elsewhere));
      RestartOk(limits, State(), now, elsewhere);
      OpenedService(State(), now, elsewhere);
      SameTables(limits, State());
      OpenedTables(State(), now, jobs, reopened);
      InterruptOpenRuns(now);
      closed := false;
      jobs := map id | id in jobs :: RestartedJob(jobs[id], elsewhere);
      reopened := reopened && elsewhere;
    }

    /** Startup after close(): the same transaction, while a start() of the
        closed service may still be in flight. */
    method InterruptAfterClose(now: nat)
      requires Valid() && CanReopen(State())
      modifies this
      ensures State() == Step(limits, old(State()), DoReopen(now))
      ensures State() == Reopen(old(State()), now) && Valid() && Evolves(old(State()), State())
      ensures runs.Keys == old(runs).Keys && events.Keys == old(events).Keys && !closed
      ensures forall id :: id in runs ==>
        if Terminal(old(runs)[id].status) then Untouched(old(runs), old(events), runs, events, id)
        else Broken(old(runs), old(events), runs, events, id, now)
    {
      hide Inv, Evolves, ReopenedJob, Untouched, Broken, Step, Opened, Reopen, CanReopen;
      StepIs(limits, State(), DoReopen(now));
      ReopenOk(limits, State(), now);
      OpenedService(State(), now, false);
      SameTables(limits, State());
      OpenedTables(State(), now, jobs, reopened);
      InterruptOpenRuns(now);
      closed := false;
      jobs := map id | id in jobs :: ReopenedJob(jobs[id]);
      reopened := true;
    }
  }

  /** The row is the one an idempotency key of this owner names. */
  predicate Names(r: Request, row: Row) {
    r.key.Some? && row.owner == r.owner && row.key == r.key
  }

  /** Row id ends with this status, result, error and time, and its log with this
      event; nothing else changes. */
  ghost predicate Ended(runs: map<RunId, Row>, events: map<RunId, seq<Event>>, runs': map<RunId, Row>,
                        events': map<RunId, seq<Event>>, id: RunId, status: Status, result: Option<string>,
                        error: Option<Reason>, now: nat, event: Event) {
    && id in runs && id in events
    && runs' == runs[id := runs[id].(status := status, result := result, error := error, finished := Some(now))]
    && events' == events[id := events[id] + [event]]
  }

  ghost predicate Untouched(runs: map<RunId, Row>, events: map<RunId, seq<Event>>, runs': map<RunId, Row>,
                            events': map<RunId, seq<Event>>, id: RunId) {
    id in runs && id in events && id in runs' && id in events' && runs'[id] == runs[id] && events'[id] == events[id]
  }

  /** The open row is interrupted, and its log says so. */
  ghost predicate Broken(runs: map<RunId, Row>, events: map<RunId, seq<Event>>, runs': map<RunId, Row>,
                         events': map<RunId, seq<Event>>, id: RunId, now: nat) {
    && id in runs && id in events && id in runs' && id in events'
    && runs'[id] == runs[id].(status := Interrupted, error := Some(ServiceRestarted), finished := Some(now))
    && events'[id] == events[id] + [InterruptedEvent]
  }

  lemma OpenedTables(s: Service, now: nat, jobs: map<RunId, Job>, reopened: bool)
    requires s.runs.Keys == s.events.Keys
    ensures var t := Opened(s, now, jobs, reopened);
      && t.runs.Keys == s.runs.Keys && t.events.Keys == s.events.Keys && !t.closed
      && forall id :: id in s.runs ==>
           if Terminal(s.runs[id].status) then Untouched(s.runs, s.events, t.runs, t.events, id)
           else Broken(s.runs, s.events, t.runs, t.events, id, now)
  {
  }

  lemma KeysAreUnique(l: Limits, s: Service, r: Request)
    requires Inv(l, s)
    ensures forall a, b :: a in s.runs && b in s.runs && Names(r, s.runs[a]) && Names(r, s.runs[b]) ==> a == b
  {
    hide RunOk, WithinLimits;
    forall a, b | a in s.runs && b in s.runs && Names(r, s.runs[a]) && Names(r, s.runs[b]) ensures a == b {
      assert SameKeyOwner(s.runs[a], s.runs[b]);
    }
  }

  lemma ClosedTables(s: Service)
    requires s.runs.Keys == s.events.Keys && !s.closed
    ensures var t := Close(s);
      && t.runs.Keys == s.runs.Keys && t.events.Keys == s.events.Keys
      && forall x :: x in s.runs ==>
           if Terminal(s.runs[x].status) then Untouched(s.runs, s.events, t.runs, t.events, x)
           else t.runs[x] == s.runs[x].(cancelRequested := true, status := Cancelling)
                && t.events[x] == s.events[x]
                   + (if s.runs[x].cancelRequested then [] else [CancellationRequested])
  {
  }

  /** The rows in `open` are as before, all others as in t. */
  ghost predicate Swept(s: Service, t: Service, runs: map<RunId, Row>, events: map<RunId, seq<Event>>,
                        open: set<RunId>) {
    && runs.Keys == events.Keys == s.runs.Keys == s.events.Keys == t.runs.Keys == t.events.Keys
    && (forall id :: id in runs ==> runs[id] == if id in open then s.runs[id] else t.runs[id])
    && (forall id :: id in events ==> events[id] == if id in open then s.events[id] else t.events[id])
  }

  ghost predicate OpenAreMarked(runs: map<RunId, Row>) {
    forall id :: id in runs && !Terminal(runs[id].status) ==> runs[id].cancelRequested
  }

  /** What close() still has to stop is in the queue. */
  ghost predicate Remaining(jobs: map<RunId, Job>, queue: set<RunId>) {
    forall id :: id in jobs ==>
      (jobs[id].due <==> id in queue) && !jobs[id].stopping && (jobs[id].party.Pending? ==> jobs[id].due)
  }

  lemma RemainingIsDue(l: Limits, s: Service, queue: set<RunId>, id: RunId)
    requires Inv(l, s) && Remaining(s.jobs, queue) && queue <= s.jobs.Keys && id in queue
    ensures id in s.runs && id in s.events && id in s.jobs && s.jobs[id].due
  {
    hide RunOk, WithinLimits, KeysUnique;
  }

  lemma StopKeepsRemaining(s: Service, queue: set<RunId>, id: RunId)
    requires id in s.jobs && s.jobs[id].due && id in s.runs && id in s.events
    ensures var s' := Stop(s, id); s'.runs == s.runs && s'.events == s.events && id in s'.jobs
  {
  }

  /** After one round of the loop the future is neither due nor pending. */
  lemma AcknowledgedRemaining(s: Service, queue: set<RunId>, id: RunId, now: nat)
    requires id in s.jobs && s.jobs[id].due && id in s.runs && id in s.events
    requires OpenAreMarked(s.runs) && Remaining(s.jobs, queue)
    ensures var s' := Stop(s, id);
      var s2 := if s'.jobs[id].stopping then StopFinish(s', id, now) else s';
      OpenAreMarked(s2.runs) && Remaining(s2.jobs, queue - {id}) && s2.jobs.Keys == s.jobs.Keys
  {
  }

  lemma ClosedRemaining(l: Limits, s: Service)
    requires Inv(l, s) && !s.closed
    ensures var jobs := Close(s).jobs; Remaining(jobs, set id | id in jobs && jobs[id].due)
    ensures OpenAreMarked(Close(s).runs)
  {
    hide Inv, Close;
    CloseFields(s);
    ClosedOpenRuns(s);
    KnownRuns(l, s);
    forall id | id in s.jobs ensures RevocationOk(false, s.jobs[id], s.runs[id]) {
      assert RunOk(s, id);
    }
  }

  lemma SweptStep(s: Service, t: Service, runs: map<RunId, Row>, events: map<RunId, seq<Event>>,
                  open: set<RunId>, id: RunId)
    requires Swept(s, t, runs, events, open) && id in open && id in s.runs
    ensures id in runs && id in events && id in t.runs && id in t.events && id in s.events
    ensures runs[id] == s.runs[id] && events[id] == s.events[id] && events[id := events[id]] == events
    ensures Swept(s, t, runs[id := t.runs[id]], events[id := t.events[id]], open - {id})
  {
  }

  lemma SweptAll(s: Service, t: Service, runs: map<RunId, Row>, events: map<RunId, seq<Event>>)
    ensures Swept(s, t, runs, events, {}) ==> runs == t.runs && events == t.events
  {
  }

  lemma CloseSweep(s: Service)
    ensures s.runs.Keys == s.events.Keys && !s.closed ==> Swept(s, Close(s), s.runs, s.events, ActiveRuns(s.runs))
  {
  }

  lemma CloseSweepRow(s: Service, id: RunId)
    requires s.runs.Keys == s.events.Keys && !s.closed && id in ActiveRuns(s.runs)
    ensures id in Close(s).runs && id in Close(s).events
    ensures Close(s).runs[id] == s.runs[id].(cancelRequested := true, status := Cancelling)
    ensures Close(s).events[id]
         == if s.runs[id].cancelRequested then s.events[id] else s.events[id] + [CancellationRequested]
  {
  }

  lemma CloseFields(s: Service)
    ensures !s.closed ==> Close(s).jobs == (map id | id in s.jobs :: SnappedJob(s.jobs[id]))
    ensures Close(s).closed && Close(s).reopened == s.reopened && (s.closed ==> Close(s) == s)
  {
  }

  lemma OpenSweep(s: Service, now: nat, jobs: map<RunId, Job>, reopened: bool)
    ensures s.runs.Keys == s.events.Keys ==>
      Swept(s, Opened(s, now, jobs, reopened), s.runs, s.events, ActiveRuns(s.runs))
  {
  }

  lemma OpenSweepRow(s: Service, id: RunId, now: nat, jobs: map<RunId, Job>, reopened: bool)
    requires s.runs.Keys == s.events.Keys && id in ActiveRuns(s.runs)
    ensures var t := Opened(s, now, jobs, reopened);
      && id in t.runs && id in t.events
      && t.runs[id] == s.runs[id].(status := Interrupted, error := Some(ServiceRestarted), finished := Some(now))
      && t.events[id] == s.events[id] + [InterruptedEvent]
  {
  }

  /** Both ways to open the database write the same rows and events. */
  lemma OpenedService(s: Service, now: nat, elsewhere: bool)
    ensures var t := Opened(s, now, s.jobs, s.reopened);
      && Restart(s, now, elsewhere)
         == Service(t.runs, t.events, map id | id in s.jobs :: RestartedJob(s.jobs[id], elsewhere), false,
                    s.reopened && elsewhere)
      && (CanReopen(s) ==>
            Reopen(s, now)
            == Service(t.runs, t.events, map id | id in s.jobs :: ReopenedJob(s.jobs[id]), false, true))
  {
    hide InterruptedRow, InterruptedLog, RestartedJob, ReopenedJob, CanReopen;
  }

  /** A worker has the run, or a start() that will find its service closed. */
  predicate InHand(s: Service, id: RunId) {
    id in s.jobs && (s.jobs[id].party.Starter? || s.jobs[id].party.Orphan? || s.jobs[id].party.Entered?
                     || s.jobs[id].party.Working?)
  }

  lemma ClosedOpenRuns(s: Service)
    ensures forall id :: id in Close(s).runs && !Terminal(Close(s).runs[id].status) && !s.closed ==>
      Close(s).runs[id].cancelRequested
  {
  }

  lemma OpenHaveParty(l: Limits, s: Service, queue: set<RunId>)
    requires Inv(l, s) && Remaining(s.jobs, queue)
    ensures forall id :: id in s.runs && !Terminal(s.runs[id].status) ==>
      InHand(s, id) || (id in s.jobs && s.jobs[id].party.Pending?)
  {
    hide LogOk, RowOk, WithinLimits, KeysUnique;
    forall id | id in s.runs && !Terminal(s.runs[id].status)
      ensures InHand(s, id) || (id in s.jobs && s.jobs[id].party.Pending?)
    {
      assert RunOk(s, id);
    }
  }

  lemma StoppedIsInHand(l: Limits, s: Service)
    requires Inv(l, s) && Remaining(s.jobs, {}) && OpenAreMarked(s.runs)
    ensures forall id :: id in s.runs && !Terminal(s.runs[id].status) ==> s.runs[id].cancelRequested && InHand(s, id)
  {
    hide LogOk, RowOk, WithinLimits, KeysUnique;
    forall id | id in s.runs && !Terminal(s.runs[id].status) ensures InHand(s, id) {
      assert RunOk(s, id);
    }
  }
}
