/** The entity research runner: its tables are fields, every public method is one
    or more transactions of ResearchModel, and run_pending schedules its workers
    in an arbitrary order. */
module EntityResearch {
  import opened Wrappers
  import opened ResearchModel

  /** What a handler does with a claimed item, once it is done acquiring. Escaped
      is an exception such as SystemExit, which the worker does not catch. */
  datatype Outcome = Returned(claim: Claim) | Raised(message: string) | Escaped

  type PoolSize = n: nat | 1 <= n <= 64 witness 1

  /** One pool worker: about to claim, or running a handler that will still make
      the given number of acquire calls, or finished, or ended by an exception
      that left its item running. */
  datatype Worker = Idle | Working(context: Context, acquires: nat) | Done | Lost(context: Context) {
    predicate Active() {
      Idle? || Working?
    }

    predicate Holds() {
      Working? || Lost?
    }
  }

  function Weight(pool: seq<Worker>): nat {
    if pool == [] then 0
    else Weight(pool[..|pool| - 1]) + match pool[|pool| - 1]
      case Idle => 1
      case Working(_, n) => 2 + n
      case _ => 0
  }

  lemma {:induction false} WeightUpdate(pool: seq<Worker>, i: nat, x: Worker)
    requires i < |pool|
    ensures Weight(pool[i := x]) == Weight(pool) - Weight([pool[i]]) + Weight([x])
  {
    var n := |pool| - 1;
    assert [pool[i]][..0] == [] && [x][..0] == [];
    if i < n {
      WeightUpdate(pool[..n], i, x);
      assert pool[i := x][..n] == pool[..n][i := x];
    } else {
      assert pool[i := x][..n] == pool[..n];
    }
  }

  ghost function Ready(db: Db, scope: Scope): set<WorkId> {
    set w | w in db.items && Claimable(db, scope, w)
  }

  /** The items of the scope that are being worked on. */
  ghost function RunningIn(db: Db, scope: Scope): set<WorkId> {
    set w | w in db.items && db.items[w].scope == scope && db.items[w].status == Running
  }

  /** Workers hold distinct items of the scope, and whatever else is running was
      running before. */
  ghost predicate PoolOk(db: Db, scope: Scope, pool: seq<Worker>, before: set<WorkId>) {
    && before <= RunningIn(db, scope)
    && (forall i :: 0 <= i < |pool| && pool[i].Holds() ==>
          && Current(db, pool[i].context) && pool[i].context.scope == scope
          && pool[i].context.work == WorkId(scope, pool[i].context.identity)
          && pool[i].context.work in RunningIn(db, scope) - before)
    && (forall i, j :: 0 <= i < j < |pool| && pool[i].Holds() && pool[j].Holds() ==>
          pool[i].context.work != pool[j].context.work)
    && (forall w :: w in RunningIn(db, scope) - before ==> HeldBy(pool, w))
  }

  ghost predicate HeldBy(pool: seq<Worker>, w: WorkId) {
    exists i :: 0 <= i < |pool| && pool[i].Holds() && pool[i].context.work == w
  }

  /** The call puts an item of the scope into the queue. */
  ghost predicate Queues(db: Db, op: Op, scope: Scope) {
    match op
    case DoSubmit(s, tasks, limits) =>
      s == scope && Submit(db, s, tasks, limits).1.None? && exists t :: t in tasks && IdOf(s, t) !in db.items
    case DoRetry(s, ids) =>
      s == scope && Retry(db, s, ids).Success? && exists w :: w in db.items && Retryable(db, s, ids, w)
    case _ => false
  }

  ghost predicate NoneQueues(db: Db, calls: seq<Op>, scope: Scope)
    decreases |calls|
  {
    calls == [] || (!Queues(db, calls[0], scope) && NoneQueues(Step(db, calls[0]), calls[1..], scope))
  }

  /** The calls among these steps that need no run lock, in order. */
  function UnlockedOf(ops: seq<Op>): seq<Op> {
    if ops == [] then []
    else UnlockedOf(ops[..|ops| - 1]) + if Unlocked(ops[|ops| - 1]) then [ops[|ops| - 1]] else []
  }

  class EntityResearchRunner {
    const maxConcurrency: PoolSize
    var datasets: map<Scope, Dataset>
    var items: map<WorkId, Item>
    var reservations: seq<Reservation>
    var closed: bool

    ghost function State(): Db
      reads this
    {
      Db(datasets, items, reservations)
    }

    /** Open a database, recovering what a previous process left running. */
    constructor (db: Db, maxConcurrency: PoolSize)
      ensures State() == Recover(db) == Step(db, DoRecover) && !closed && this.maxConcurrency == maxConcurrency
      ensures DbOk(db) ==> DbOk(State())
      ensures forall scope :: RunningIn(State(), scope) == {}
    {
      this.maxConcurrency := maxConcurrency;
      datasets, reservations := db.datasets, db.reservations;
      items := map w | w in db.items :: Recovered(db.items[w]);
      closed := false;
      new;
      if DbOk(db) {
        RecoverOk(db);
      }
    }

    /** All or nothing: a rejected submission leaves every table alone. */
    method SubmitTasks(scope: Scope, tasks: seq<Task>, limits: Limits) returns (error: Option<ResearchError>)
      modifies this
      ensures closed == old(closed)
      ensures if closed then error == Some(Closed) && State() == old(State())
              else (State(), error) == Submit(old(State()), scope, tasks, limits)
      ensures !closed ==> SubmitHolds(old(State()), scope, tasks, limits, State(), error)
    {
      hide AddTasks, TasksError, SubmitHolds;
      SubmitEffects(State(), scope, tasks, limits);
      if closed {
        return Some(Closed);
      }
      if tasks == [] || |tasks| > MAX_TASKS || exists t :: t in tasks && !ValidTask(t) {
        return Some(BadRequest);
      }
      if scope in datasets
         && (datasets[scope].maxCalls != limits.maxCalls || datasets[scope].maxCost != limits.maxCost) {
        return Some(DatasetConflict);
      }
      AddNothing(items, scope, tasks);
      var rows := items;
      var seen: set<WorkId> := {};
      var i := 0;
      while i < |tasks|
        modifies {}
        invariant 0 <= i <= |tasks|
        invariant forall w :: w in seen <==> exists j :: 0 <= j < i && w == IdOf(scope, tasks[j])
        invariant rows == AddTasks(items, scope, tasks[..i])
        invariant TasksError(items, scope, tasks, i) == None
      {
        var task := tasks[i];
        var id := IdOf(scope, task);
        AddTasksItem(items, scope, tasks[..i], id);
        AddTasksStep(items, scope, tasks, i);
        TasksErrorStep(items, scope, tasks, i);
        if id in seen {
          return Some(DuplicateTask);
        }
        seen := seen + {id};
        if id in rows {
          assert id in items by { NotAdded(items, scope, tasks, i); }
          if rows[id].fingerprint != task.fingerprint || rows[id].maxAttempts != task.maxAttempts {
            return Some(DatasetConflict);
          }
        } else {
          rows := rows[id := NewItem(scope, task)];
        }
        i := i + 1;
      }
      assert tasks[..i] == tasks;
      if scope !in datasets {
        datasets := datasets[scope := Dataset(limits.maxCalls, limits.maxCost, 0, 0)];
      }
      items := rows;
      return None;
    }

    /** Claim some queued item and hand out its snapshot. */
    method ClaimNext(scope: Scope) returns (r: Result<Option<Context>, ResearchError>)
      modifies this
      ensures closed == old(closed)
      ensures r == Failure(DatasetNotFound) <==> scope !in old(datasets)
      ensures r.Failure? ==> r == Failure(DatasetNotFound) && State() == old(State())
      ensures r == Success(None) ==> State() == old(State()) && Ready(State(), scope) == {}
      ensures r.Success? && r.value.Some? ==>
        var c := r.value.value;
        && Claimable(old(State()), scope, c.work) && State() == ClaimItem(old(State()), scope, c.work)
        && items == old(items)[c.work := old(items)[c.work].(status := Running, attempts := c.attempts,
                                                             lastError := None)]
        && c.attempts == old(items)[c.work].attempts + 1 && c.identity == old(items)[c.work].identity
        && old(items)[c.work].scope == scope && old(items)[c.work].status == Queued
        && old(items)[c.work].attempts < old(items)[c.work].maxAttempts
        && datasets == old(datasets) && reservations == old(reservations)
        && Current(State(), c) && c.scope == scope
        && (old(DbOk(State())) ==> c.work == WorkId(scope, c.identity) && DbOk(State()))
    {
      ghost var db := State();
      if scope !in datasets {
        return Failure(DatasetNotFound);
      }
      if !exists w :: w in items && items[w].scope == scope && items[w].status == Queued
                      && items[w].attempts < items[w].maxAttempts {
        return Success(None);
      }
      var w :| w in items && items[w].scope == scope && items[w].status == Queued
               && items[w].attempts < items[w].maxAttempts;
      var item := items[w];
      items := items[w := item.(status := Running, attempts := item.attempts + 1, lastError := None)];
      if DbOk(db) {
        assert ItemOk(w, db.items[w]);
        ClaimOk(db, scope, w);
      }
      return Success(Some(Context(w, item.scope, item.identity, item.attempts + 1)));
    }

    /** Book an upper bound before any provider is called. */
    method ReserveFor(c: Context, provider: string, calls: int, cost: int) returns (error: Option<ResearchError>)
      modifies this
      ensures closed == old(closed)
      ensures State() == Step(old(State()), DoReserve(c, provider, calls, cost))
      ensures error.None? <==> Reserve(old(State()), c, provider, calls, cost).Success?
      ensures error.Some? ==> Reserve(old(State()), c, provider, calls, cost) == Failure(error.value)
      ensures Evolves(old(State()), State()) && (error.Some? ==> State() == old(State()))
      ensures c.work == WorkId(c.scope, c.identity) && old(DbOk(State())) ==> DbOk(State())
      ensures error.None? <==>
        && calls >= 1 && cost >= 0 && old(Current(State(), c)) && old(items)[c.work].scope == c.scope
        && c.scope in old(datasets)
        && calls <= old(datasets)[c.scope].maxCalls - old(datasets)[c.scope].callsReserved
        && cost <= old(datasets)[c.scope].maxCost - old(datasets)[c.scope].costReserved
      ensures error == Some(BadRequest) <==> calls < 1 || cost < 0
      ensures calls >= 1 && cost >= 0 ==> (error == Some(NotRunning) <==> !old(Current(State(), c)))
      ensures error == Some(CallLimit) ==>
        c.scope in old(datasets)
        && calls > old(datasets)[c.scope].maxCalls - old(datasets)[c.scope].callsReserved
      ensures error == Some(CostLimit) ==>
        c.scope in old(datasets)
        && cost > old(datasets)[c.scope].maxCost - old(datasets)[c.scope].costReserved
      ensures error.None? ==> items == old(items)
      ensures error.None? ==>
        reservations == old(reservations) + [Reservation(c.work, provider, calls, cost, c.attempts)]
      ensures error.None? ==> c.scope in datasets && c.scope in old(datasets)
      ensures error.None? ==> datasets == old(datasets)[c.scope := datasets[c.scope]]
      ensures error.None? ==>
        datasets[c.scope].callsReserved == old(datasets)[c.scope].callsReserved + calls <= datasets[c.scope].maxCalls
      ensures error.None? ==>
        datasets[c.scope].costReserved == old(datasets)[c.scope].costReserved + cost <= datasets[c.scope].maxCost
    {
      hide DbOk, Evolves;
      StepEvolves(State(), DoReserve(c, provider, calls, cost));
      if c.work == WorkId(c.scope, c.identity) && DbOk(State()) {
        StepOk(State(), DoReserve(c, provider, calls, cost));
      }
      if calls < 1 || cost < 0 {
        return Some(BadRequest);
      }
      if c.work !in items || items[c.work].status != Running || items[c.work].attempts != c.attempts {
        return Some(NotRunning);
      }
      if items[c.work].scope != c.scope {
        return Some(IdentityMismatch);
      }
      if c.scope !in datasets {
        return Some(DatasetNotFound);
      }
      var d := datasets[c.scope];
      var nextCalls, nextCost := d.callsReserved + calls, d.costReserved + cost;
      if nextCalls > d.maxCalls {
        return Some(CallLimit);
      }
      if nextCost > d.maxCost {
        return Some(CostLimit);
      }
      datasets := datasets[c.scope := d.(callsReserved := nextCalls, costReserved := nextCost)];
      reservations := reservations + [Reservation(c.work, provider, calls, cost, c.attempts)];
      return None;
    }

    /** Store the claim of an attempt that is still running. */
    method CompleteItem(c: Context, claim: Claim) returns (error: Option<ResearchError>)
      modifies this
      ensures closed == old(closed)
      ensures State() == Step(old(State()), DoComplete(c, claim))
      ensures error.None? <==> Complete(old(State()), c, claim).Success?
      ensures error.Some? ==> Complete(old(State()), c, claim) == Failure(error.value)
      ensures Evolves(old(State()), State()) && (error.Some? ==> State() == old(State()))
      ensures c.work == WorkId(c.scope, c.identity) && old(DbOk(State())) ==> DbOk(State())
      ensures error.None? <==> ValidClaim(claim) && claim.identity == c.identity && old(Current(State(), c))
      ensures error.None? ==> c.work in items && items[c.work].claim == Some(claim)
      ensures error.None? ==>
        items == old(items)[c.work := old(items)[c.work].(status := Completed, claim := Some(claim), lastError := None)]
      ensures error == Some(BadClaim) <==> !ValidClaim(claim) || claim.identity != c.identity
      ensures datasets == old(datasets) && reservations == old(reservations)
    {
      hide DbOk, Evolves;
      StepEvolves(State(), DoComplete(c, claim));
      if c.work == WorkId(c.scope, c.identity) && DbOk(State()) {
        StepOk(State(), DoComplete(c, claim));
      }
      if !ValidClaim(claim) || claim.identity != c.identity {
        return Some(BadClaim);
      }
      if c.work !in items || items[c.work].status != Running || items[c.work].attempts != c.attempts {
        return Some(NotRunning);
      }
      items := items[c.work := items[c.work].(status := Completed, claim := Some(claim), lastError := None)];
      return None;
    }

    /** Fail an attempt that is still running; any other is left alone. */
    method FailItem(c: Context, message: string)
      modifies this
      ensures closed == old(closed)
      ensures State() == Step(old(State()), DoFail(c, message))
      ensures Evolves(old(State()), State()) && (old(DbOk(State())) ==> DbOk(State()))
      ensures !old(Current(State(), c)) ==> State() == old(State())
      ensures old(Current(State(), c)) ==>
        items == old(items)[c.work := old(items)[c.work].(status := Failed, lastError := Some(HandlerError(message)))]
      ensures datasets == old(datasets) && reservations == old(reservations)
    {
      hide DbOk, Evolves;
      StepEvolves(State(), DoFail(c, message));
      if DbOk(State()) {
        FailOk(State(), c, message);
      }
      if c.work in items && items[c.work].status == Running && items[c.work].attempts == c.attempts {
        items := items[c.work := items[c.work].(status := Failed, lastError := Some(HandlerError(message)))];
      }
    }

    /** Queue failed items again; the count is the number of items queued. */
    method RetryFailed(scope: Scope, ids: Option<set<WorkId>>) returns (r: Result<nat, ResearchError>)
      modifies this
      ensures closed == old(closed)
      ensures closed ==> r == Failure(Closed) && State() == old(State())
      ensures !closed ==> State() == Step(old(State()), DoRetry(scope, ids))
      ensures !closed ==> (r.Success? <==> RetryAccepted(old(State()), scope, ids))
      ensures r.Failure? ==> State() == old(State()) && r.error == (if closed then Closed else DatasetNotFound)
      ensures r.Success? ==> r.value == |set w | w in old(items) && Retryable(old(State()), scope, ids, w)|
      ensures r.Success? ==> RetryHolds(old(State()), scope, ids, State())
      ensures r.Success? ==> forall w :: w in old(items) && Retryable(old(State()), scope, ids, w) ==>
        Claimable(State(), scope, w)
    {
      hide Claimable, RetryHolds, Retry, Retryable;
      ghost var db := State();
      RetryEffects(db, scope, ids);
      if closed {
        return Failure(Closed);
      }
      if scope !in datasets {
        return Failure(DatasetNotFound);
      }
      if ids.Some? && exists w :: w in ids.value && !(w in items && items[w].scope == scope) {
        return Failure(DatasetNotFound);
      }
      var chosen := set w | w in items && items[w].scope == scope && items[w].status == Failed
                            && items[w].attempts < items[w].maxAttempts && (ids.None? || w in ids.value);
      RetryTables(db, scope, ids, chosen);
      items := map w | w in items ::
        if w in chosen then items[w].(status := Queued, lastError := None) else items[w];
      RetryRequeues(db, scope, ids);
      return Success(|chosen|);
    }

    /** One move of worker i of the pool, and the step it takes, if any. */
    method WorkerMove(scope: Scope, pool: seq<Worker>, i: nat, ghost before: set<WorkId>)
      returns (pool': seq<Worker>, ghost move: seq<Op>)
      requires i < |pool| && pool[i].Active() && scope in datasets
      requires DbOk(State()) && PoolOk(State(), scope, pool, before)
      modifies this
      ensures closed == old(closed)
      ensures |move| <= 1 && State() == Run(old(State()), move) && AllGenuine(move) && UnlockedOf(move) == []
      ensures DbOk(State()) && Evolves(old(State()), State()) && PoolOk(State(), scope, pool', before)
      ensures |pool'| == |pool| && (forall k :: 0 <= k < |pool| && k != i ==> pool'[k] == pool[k])
      ensures Ready(State(), scope) <= Ready(old(State()), scope)
      ensures pool'[i].Done? ==> Ready(State(), scope) == {}
      ensures |Ready(State(), scope)| < |Ready(old(State()), scope)|
        || (Ready(State(), scope) == Ready(old(State()), scope) && Weight(pool') < Weight(pool))
    {
      hide DbOk, Evolves, PoolOk, Ready, Weight, Run, Step;
      ghost var db := State();
      move := [];
      RunNothing(db);
      if pool[i].Idle? {
        var r := ClaimNext(scope);
        if r.value.None? {
          EvolvesSelf(db);
          IdleLeavesPool(db, scope, pool, i, before);
          return pool[i := Done], [];
        }
        var acquires: nat := *;
        pool' := pool[i := Working(r.value.value, acquires)];
        move := [DoClaim(scope, r.value.value.work)];
        OneMove(db, move[0]);
        ClaimJoinsPool(db, scope, pool, i, r.value.value, acquires, before);
        return;
      }
      var c, acquires := pool[i].context, pool[i].acquires;
      HeldContext(db, scope, pool, i, before);
      if acquires > 0 {
        var provider: string, calls: int, cost: int := *, *, *;
        move := [DoReserve(c, provider, calls, cost)];
        OneMove(db, move[0]);
        var error := ReserveFor(c, provider, calls, cost);
        ReserveKeepsPool(db, State(), scope, pool, i, c, acquires, before);
        return pool[i := Working(c, acquires - 1)], move;
      }
      var outcome: Outcome := *;
      match outcome {
        case Returned(claim) =>
          OneMove(db, DoComplete(c, claim));
          OneMove(db, DoFail(c, "claim rejected"));
          move := [DoComplete(c, claim)];
          var error := CompleteItem(c, claim);
          if error.Some? {
            move := [DoFail(c, "claim rejected")];
            FailItem(c, "claim rejected");
          }
        case Raised(message) =>
          move := [DoFail(c, message)];
          OneMove(db, move[0]);
          FailItem(c, message);
        case Escaped =>
          EvolvesSelf(db);
          EscapeKeepsPool(db, scope, pool, i, c, before);
          return pool[i := Lost(c)], [];
      }
      FinishLeavesPool(db, State(), scope, pool, i, before);
      return pool[i := Idle], move;
    }

    /** A submit or retry_failed of another thread, or of a handler. */
    method TakeCall(op: Op)
      requires Unlocked(op) && !closed
      modifies this
      ensures State() == Step(old(State()), op) && closed == old(closed)
    {
      if op.DoSubmit? {
        var _ := SubmitTasks(op.scope, op.tasks, op.limits);
      } else {
        var _ := RetryFailed(op.scope, op.ids);
      }
    }

    /** Calls made once every worker has ended, before run_pending returns. */
    method TakeCalls(calls: seq<Op>)
      requires DbOk(State()) && !closed && forall i :: 0 <= i < |calls| ==> Unlocked(calls[i])
      modifies this
      ensures DbOk(State()) && Evolves(old(State()), State()) && closed == old(closed)
      ensures State() == Run(old(State()), calls)
    {
      hide DbOk, Evolves, Run, Step;
      ghost var db0 := State();
      EvolvesSelf(db0);
      var next := 0;
      while next < |calls|
        invariant 0 <= next <= |calls| && !closed
        invariant DbOk(State()) && Evolves(db0, State())
        invariant Run(State(), calls[next..]) == Run(db0, calls)
      {
        CallKeepsTables(db0, State(), calls[next]);
        RunFirst(State(), calls[next..]);
        assert calls[next..][1..] == calls[next + 1..];
        TakeCall(calls[next]);
        next := next + 1;
      }
      assert calls[next..] == [];
      RunNothing(State());
    }

    /** The pool at work, until its last worker has ended. Calls come in between
        its moves, in their order. */
    method DrainQueue(scope: Scope, start: seq<Worker>, meanwhile: seq<Op>, ghost before: set<WorkId>)
      returns (pool: seq<Worker>, next: nat, ghost trace: seq<Op>)
      requires DbOk(State()) && !closed && scope in datasets && PoolOk(State(), scope, start, before)
      requires forall i :: 0 <= i < |meanwhile| ==> Unlocked(meanwhile[i])
      requires (forall i :: 0 <= i < |start| ==> start[i].Done?) ==> Ready(State(), scope) == {}
      modifies this
      ensures DbOk(State()) && !closed && Evolves(old(State()), State())
      ensures PoolOk(State(), scope, pool, before) && forall i :: 0 <= i < |pool| ==> !pool[i].Active()
      ensures next <= |meanwhile| && UnlockedOf(trace) == meanwhile[..next]
      ensures State() == Run(old(State()), trace) && AllGenuine(trace)
      ensures (forall i :: 0 <= i < |pool| ==> pool[i].Done?) ==> Ready(State(), scope) == {}
    {
      hide DbOk, Evolves, PoolOk, Weight, Run, Step, Ready, AllGenuine, UnlockedOf;
      ghost var db0 := State();
      EvolvesSelf(db0);
      RunNothing(db0);
      pool, next, trace := start, 0, [];
      while exists i :: 0 <= i < |pool| && pool[i].Active()
        invariant scope in datasets && !closed && DbOk(State()) && Evolves(db0, State())
        invariant PoolOk(State(), scope, pool, before)
        invariant next <= |meanwhile| && UnlockedOf(trace) == meanwhile[..next]
        invariant State() == Run(db0, trace) && AllGenuine(trace)
        invariant (forall i :: 0 <= i < |pool| ==> pool[i].Done?) ==> Ready(State(), scope) == {}
        decreases |meanwhile| - next, |Ready(State(), scope)|, Weight(pool)
      {
        ghost var db := State();
        var interrupted: bool := *;
        if interrupted && next < |meanwhile| {
          var call := meanwhile[next];
          TraceStep(db0, trace, call);
          CallKeepsPool(db, call, scope, pool, before);
          CallKeepsTables(db0, db, call);
          TakeCall(call);
          trace := trace + [call];
          assert meanwhile[..next + 1] == meanwhile[..next] + [call];
          next := next + 1;
        } else {
          var i :| 0 <= i < |pool| && pool[i].Active();
          ghost var move;
          pool, move := WorkerMove(scope, pool, i, before);
          TraceMove(db0, trace, move);
          trace := trace + move;
          EvolvesTransitive(db0, db, State());
        }
        ScopeStays(db, State(), scope);
      }
    }

    /** Drain the queue of a scope with a bounded pool, while other threads and
        the handlers make the given submit and retry_failed calls at any moment.
        The trace leads to the moment the last worker has ended; the first
        `taken` of the calls came before it. */
    method RunPending(scope: Scope, locked: bool, meanwhile: seq<Op>)
      returns (error: Option<ResearchError>, ghost trace: seq<Op>, ghost taken: nat)
      requires DbOk(State()) && forall i :: 0 <= i < |meanwhile| ==> Unlocked(meanwhile[i])
      modifies this
      ensures DbOk(State()) && Evolves(old(State()), State())
      ensures error == Some(AlreadyRunning) <==> locked
      ensures error == Some(Closed) <==> !locked && old(closed)
      ensures error == Some(DatasetNotFound) <==> !locked && !old(closed) && scope !in old(datasets)
      ensures error in {None, Some(HandlerEscaped)}
        || (State() == old(State()) && error in {Some(AlreadyRunning), Some(Closed), Some(DatasetNotFound)})
      ensures error in {None, Some(HandlerEscaped)} ==>
        && taken <= |meanwhile| && UnlockedOf(trace) == meanwhile[..taken] && AllGenuine(trace)
        && State() == Run(Run(old(State()), trace), meanwhile[taken..])
      ensures error.None? ==> RunningIn(State(), scope) == old(RunningIn(State(), scope))
      ensures error == Some(HandlerEscaped) ==> old(RunningIn(State(), scope)) < RunningIn(State(), scope)
      ensures error.None? ==> Ready(Run(old(State()), trace), scope) == {}
      ensures error.None? ==>
        ((forall w :: w in items && items[w].scope == scope ==> items[w].status != Queued)
         <==> NoneQueues(Run(old(State()), trace), meanwhile[taken..], scope))
    {
      hide DbOk, Evolves, PoolOk, Weight, RunningIn, Run, Step, Ready, NoneQueues, AllGenuine, UnlockedOf;
      ghost var db0 := State();
      EvolvesSelf(db0);
      if locked {
        return Some(AlreadyRunning), [], 0;
      }
      if closed {
        return Some(Closed), [], 0;
      }
      if scope !in datasets {
        return Some(DatasetNotFound), [], 0;
      }
      var queued := |set w | w in items && items[w].scope == scope && items[w].status == Queued
                             && items[w].attempts < items[w].maxAttempts|;
      ReadyCount(State(), scope);
      var workers := if queued < maxConcurrency then queued else maxConcurrency;
      var pool: seq<Worker> := seq(workers, i => Idle);
      PoolStart(State(), scope, pool);
      assert if queued == 0 then Ready(State(), scope) == {} else pool[0].Idle?;
      var next: nat;
      pool, next, trace := DrainQueue(scope, pool, meanwhile, RunningIn(db0, scope));
      taken := next;
      ghost var drained := State();
      PoolSettled(drained, scope, pool, RunningIn(db0, scope));
      CallsMeanwhile(drained, meanwhile[taken..], scope);
      TakeCalls(meanwhile[next..]);
      EvolvesTransitive(db0, drained, State());
      QueueEmpty(State(), scope);
      if exists i :: 0 <= i < |pool| && pool[i].Lost? {
        return Some(HandlerEscaped), trace, taken;
      }
      return None, trace, taken;
    }

    method Close()
      modifies this`closed
      ensures closed
    {
      closed := true;
    }
  }

  lemma AddNothing(items: map<WorkId, Item>, scope: Scope, tasks: seq<Task>)
    ensures AddTasks(items, scope, tasks[..0]) == items && TasksError(items, scope, tasks, 0) == None
  {
  }

  lemma AddTasksStep(items: map<WorkId, Item>, scope: Scope, tasks: seq<Task>, i: nat)
    requires i < |tasks|
    ensures var before, id := AddTasks(items, scope, tasks[..i]), IdOf(scope, tasks[i]);
      AddTasks(items, scope, tasks[..i + 1])
      == if id in before then before else before[id := NewItem(scope, tasks[i])]
  {
    assert tasks[..i + 1][..i] == tasks[..i];
  }

  lemma TasksErrorStep(items: map<WorkId, Item>, scope: Scope, tasks: seq<Task>, i: nat)
    requires i < |tasks| && TasksError(items, scope, tasks, i).None?
    ensures TasksError(items, scope, tasks, i + 1) == TaskError(items, scope, tasks, i)
    ensures TaskError(items, scope, tasks, i).Some? ==>
      TasksError(items, scope, tasks, |tasks|) == TaskError(items, scope, tasks, i)
  {
    if TaskError(items, scope, tasks, i).Some? {
      FirstErrorWins(items, scope, tasks, i + 1, |tasks|);
    }
  }

  lemma {:induction false} FirstErrorWins(items: map<WorkId, Item>, scope: Scope, tasks: seq<Task>, i: nat, n: nat)
    requires i <= n <= |tasks| && TasksError(items, scope, tasks, i).Some?
    ensures TasksError(items, scope, tasks, n) == TasksError(items, scope, tasks, i)
    decreases n
  {
    if i < n {
      FirstErrorWins(items, scope, tasks, i, n - 1);
    }
  }

  /** A task with a new identity finds a row only if the row is older. */
  lemma NotAdded(items: map<WorkId, Item>, scope: Scope, tasks: seq<Task>, i: nat)
    requires i < |tasks| && forall j :: 0 <= j < i ==> IdOf(scope, tasks[j]) != IdOf(scope, tasks[i])
    ensures IdOf(scope, tasks[i]) in AddTasks(items, scope, tasks[..i]) <==> IdOf(scope, tasks[i]) in items
  {
    AddTasksItem(items, scope, tasks[..i], IdOf(scope, tasks[i]));
  }

  // ---------- steps of a trace ----------

  lemma RunNothing(db: Db)
    ensures Run(db, []) == db && UnlockedOf([]) == [] && AllGenuine([])
  {
  }

  lemma RunFirst(db: Db, ops: seq<Op>)
    requires ops != []
    ensures Run(db, ops) == Run(Step(db, ops[0]), ops[1..])
  {
  }

  lemma TraceStep(db: Db, trace: seq<Op>, op: Op)
    ensures Run(db, trace + [op]) == Step(Run(db, trace), op)
    ensures UnlockedOf(trace + [op]) == UnlockedOf(trace) + if Unlocked(op) then [op] else []
    ensures AllGenuine(trace) && Genuine(op) ==> AllGenuine(trace + [op])
  {
    hide Step;
    assert (trace + [op])[..|trace|] == trace;
    RunLast(db, trace + [op]);
  }

  lemma TraceMove(db: Db, trace: seq<Op>, move: seq<Op>)
    requires |move| <= 1 && UnlockedOf(move) == [] && AllGenuine(move) && AllGenuine(trace)
    ensures Run(db, trace + move) == Run(Run(db, trace), move)
    ensures UnlockedOf(trace + move) == UnlockedOf(trace) && AllGenuine(trace + move)
  {
    hide Step;
    if move == [] {
      assert trace + move == trace;
    } else {
      assert move == [move[0]] && [] + move == move;
      TraceStep(db, trace, move[0]);
      TraceStep(Run(db, trace), [], move[0]);
    }
  }

  lemma OneMove(db: Db, op: Op)
    requires DbOk(db) && Genuine(op) && !Unlocked(op)
    ensures Run(db, [op]) == Step(db, op) && AllGenuine([op]) && UnlockedOf([op]) == []
    ensures DbOk(Step(db, op)) && Evolves(db, Step(db, op))
    ensures op.DoClaim? ==> Step(db, op) == ClaimItem(db, op.scope, op.pick)
  {
    hide DbOk, Evolves;
    assert [] + [op] == [op];
    TraceStep(db, [], op);
    StepOk(db, op);
    StepEvolves(db, op);
  }

  // ---------- calls made meanwhile ----------

  /** A submit or a retry starts and stops nothing; it may only queue items. */
  lemma CallItems(db: Db, op: Op, w: WorkId)
    requires Unlocked(op)
    ensures var db' := Step(db, op);
      && (w in db.items ==>
            w in db'.items && db'.items[w].scope == db.items[w].scope
            && (db'.items[w] == db.items[w] || (db.items[w].status == Failed && db'.items[w].status == Queued)))
      && (w !in db.items && w in db'.items ==> db'.items[w].status == Queued)
  {
    hide TasksError;
    if op.DoSubmit? {
      AddTasksItem(db.items, op.scope, op.tasks, w);
    }
  }

  lemma CallKeepsRunning(db: Db, op: Op, scope: Scope)
    requires Unlocked(op)
    ensures RunningIn(Step(db, op), scope) == RunningIn(db, scope)
  {
    hide Step;
    forall w ensures w in RunningIn(Step(db, op), scope) <==> w in RunningIn(db, scope) {
      CallItems(db, op, w);
    }
  }

  lemma CallKeepsPool(db: Db, op: Op, scope: Scope, pool: seq<Worker>, before: set<WorkId>)
    requires Unlocked(op) && PoolOk(db, scope, pool, before)
    ensures PoolOk(Step(db, op), scope, pool, before)
  {
    hide Step, HeldBy;
    CallKeepsRunning(db, op, scope);
    forall i | 0 <= i < |pool| && pool[i].Holds() ensures Current(Step(db, op), pool[i].context) {
      CallItems(db, op, pool[i].context.work);
    }
  }

  lemma CallKeepsTables(a: Db, db: Db, op: Op)
    requires Unlocked(op) && DbOk(db) && Evolves(a, db)
    ensures DbOk(Step(db, op)) && Evolves(a, Step(db, op)) && Evolves(db, Step(db, op))
  {
    hide DbOk, Evolves, Step;
    StepOk(db, op);
    StepEvolves(db, op);
    EvolvesTransitive(a, db, Step(db, op));
  }

  /** A submission queues exactly its new items, ... */
  lemma SubmitQueues(db: Db, s: Scope, tasks: seq<Task>, limits: Limits, scope: Scope)
    ensures var op := DoSubmit(s, tasks, limits);
      Ready(Step(db, op), scope) == {} <==> Ready(db, scope) == {} && !Queues(db, op, scope)
  {
    hide TasksError;
    var op := DoSubmit(s, tasks, limits);
    var db' := Step(db, op);
    forall w ensures w in db.items ==> w in db'.items && db'.items[w] == db.items[w] {
      AddTasksItem(db.items, s, tasks, w);
    }
    assert Ready(db, scope) <= Ready(db', scope);
    if Queues(db, op, scope) {
      var t :| t in tasks && IdOf(s, t) !in db.items;
      NewTaskAdded(db.items, s, tasks, t);
      AddTasksItem(db.items, s, tasks, IdOf(s, t));
      assert IdOf(s, t) in Ready(db', scope);
    } else {
      forall w | w in Ready(db', scope) ensures w in Ready(db, scope) {
        AddTasksItem(db.items, s, tasks, w);
      }
    }
  }

  /** ... and a retry exactly what it may retry. */
  lemma RetryQueues(db: Db, s: Scope, ids: Option<set<WorkId>>, scope: Scope)
    ensures var op := DoRetry(s, ids);
      Ready(Step(db, op), scope) == {} <==> Ready(db, scope) == {} && !Queues(db, op, scope)
  {
    var op := DoRetry(s, ids);
    var db' := Step(db, op);
    assert Ready(db, scope) <= Ready(db', scope);
    if Queues(db, op, scope) {
      var w :| w in db.items && Retryable(db, s, ids, w);
      assert w in Ready(db', scope);
    } else {
      assert Ready(db', scope) <= Ready(db, scope);
    }
  }

  lemma CallQueues(db: Db, op: Op, scope: Scope)
    requires Unlocked(op)
    ensures Ready(Step(db, op), scope) == {} <==> Ready(db, scope) == {} && !Queues(db, op, scope)
  {
    hide Ready, Step, Queues;
    match op
    case DoSubmit(s, tasks, limits) => SubmitQueues(db, s, tasks, limits, scope);
    case DoRetry(s, ids) => RetryQueues(db, s, ids, scope);
  }

  /** The queue stays empty over any calls exactly when none queues an item; and
      no call starts or stops anything. */
  lemma {:induction false} CallsMeanwhile(db: Db, calls: seq<Op>, scope: Scope)
    requires forall i :: 0 <= i < |calls| ==> Unlocked(calls[i])
    ensures RunningIn(Run(db, calls), scope) == RunningIn(db, scope)
    ensures Ready(Run(db, calls), scope) == {} <==> Ready(db, scope) == {} && NoneQueues(db, calls, scope)
    decreases |calls|
  {
    hide Ready, RunningIn, Queues, Step, Unlocked;
    if calls != [] {
      assert Unlocked(calls[0]);
      CallKeepsRunning(db, calls[0], scope);
      CallQueues(db, calls[0], scope);
      CallsMeanwhile(Step(db, calls[0]), calls[1..], scope);
      assert Ready(Step(db, calls[0]), scope) == {} <==> Ready(db, scope) == {} && !Queues(db, calls[0], scope);
    }
  }

  /** A new task submitted after the last look at the queue is left in it. */
  lemma LateSubmitIsLeft(db: Db, scope: Scope, t: Task, limits: Limits)
    requires ValidTask(t) && IdOf(scope, t) !in db.items
    requires scope in db.datasets ==>
      db.datasets[scope].maxCalls == limits.maxCalls && db.datasets[scope].maxCost == limits.maxCost
    ensures var late := DoSubmit(scope, [t], limits);
      !NoneQueues(db, [late], scope) && IdOf(scope, t) in Ready(Run(db, [late]), scope)
  {
    var late := DoSubmit(scope, [t], limits);
    assert [t][..0] == [] && [late][1..] == [];
    assert TasksError(db.items, scope, [t], 0) == None && TaskError(db.items, scope, [t], 0) == None;
    AddTasksItem(db.items, scope, [t], IdOf(scope, t));
    NewTaskAdded(db.items, scope, [t], t);
    assert t in [t];
  }

  // ---------- the pool ----------

  lemma ClaimJoinsPool(db: Db, scope: Scope, pool: seq<Worker>, i: nat, c: Context, acquires: nat,
                       before: set<WorkId>)
    requires PoolOk(db, scope, pool, before) && i < |pool| && pool[i].Idle?
    requires Claimable(db, scope, c.work) && c.scope == scope && c.work == WorkId(scope, c.identity)
    requires c.attempts == db.items[c.work].attempts + 1
    ensures var db' := ClaimItem(db, scope, c.work);
      && PoolOk(db', scope, pool[i := Working(c, acquires)], before)
      && Ready(db', scope) == Ready(db, scope) - {c.work} && |Ready(db', scope)| < |Ready(db, scope)|
  {
    hide HeldBy;
    var db' := ClaimItem(db, scope, c.work);
    assert Ready(db', scope) == Ready(db, scope) - {c.work};
    assert c.work in Ready(db, scope);
    var pool' := pool[i := Working(c, acquires)];
    assert RunningIn(db', scope) == RunningIn(db, scope) + {c.work};
    forall w | w in RunningIn(db', scope) - before ensures HeldBy(pool', w) {
      HolderStays(pool, i, Working(c, acquires), w);
    }
  }

  /** Whatever another worker holds stays held, and so does what x holds. */
  lemma HolderStays(pool: seq<Worker>, i: nat, x: Worker, w: WorkId)
    requires i < |pool|
    ensures x.Holds() && x.context.work == w ==> HeldBy(pool[i := x], w)
    ensures HeldBy(pool, w) && !(pool[i].Holds() && pool[i].context.work == w) ==> HeldBy(pool[i := x], w)
  {
    var pool' := pool[i := x];
    assert pool'[i] == x;
    if HeldBy(pool, w) && !(pool[i].Holds() && pool[i].context.work == w) {
      var k :| 0 <= k < |pool| && pool[k].Holds() && pool[k].context.work == w;
      assert pool'[k] == pool[k];
    }
  }

  lemma ScopeStays(a: Db, b: Db, scope: Scope)
    ensures Evolves(a, b) && scope in a.datasets ==> scope in b.datasets
  {
  }

  lemma PoolStart(db: Db, scope: Scope, pool: seq<Worker>)
    ensures (forall i :: 0 <= i < |pool| ==> pool[i].Idle?) ==> PoolOk(db, scope, pool, RunningIn(db, scope))
  {
  }

  lemma ReadyCount(db: Db, scope: Scope)
    ensures Ready(db, scope) == set w | w in db.items && db.items[w].scope == scope && db.items[w].status == Queued
                                        && db.items[w].attempts < db.items[w].maxAttempts
  {
  }

  lemma HeldContext(db: Db, scope: Scope, pool: seq<Worker>, i: nat, before: set<WorkId>)
    requires PoolOk(db, scope, pool, before) && i < |pool| && pool[i].Working?
    ensures var c := pool[i].context;
      Current(db, c) && c.scope == scope && c.work == WorkId(scope, c.identity)
  {
  }

  lemma IdleLeavesPool(db: Db, scope: Scope, pool: seq<Worker>, i: nat, before: set<WorkId>)
    requires PoolOk(db, scope, pool, before) && i < |pool| && pool[i].Idle?
    ensures PoolOk(db, scope, pool[i := Done], before) && Weight(pool[i := Done]) < Weight(pool)
  {
    WeightUpdate(pool, i, Done);
    KeepsHolders(db, db, scope, pool, i, Done, before);
  }

  /** Items other than the one worker i gives up stay in the hands of workers. */
  lemma KeepsHolders(db: Db, db': Db, scope: Scope, pool: seq<Worker>, i: nat, x: Worker, before: set<WorkId>)
    requires PoolOk(db, scope, pool, before) && i < |pool| && !x.Holds()
    requires db'.items.Keys == db.items.Keys
    requires forall w :: w in db.items && !(pool[i].Holds() && w == pool[i].context.work) ==>
      db'.items[w] == db.items[w]
    requires pool[i].Holds() ==> db'.items[pool[i].context.work].status != Running
    ensures PoolOk(db', scope, pool[i := x], before)
  {
    hide HeldBy;
    forall w | w in RunningIn(db', scope) - before ensures HeldBy(pool[i := x], w) {
      assert w in RunningIn(db, scope) - before;
      HolderStays(pool, i, x, w);
    }
  }

  /** A worker that goes on holding its item keeps the pool in order. */
  lemma KeepsHolder(db: Db, db': Db, scope: Scope, pool: seq<Worker>, i: nat, x: Worker, before: set<WorkId>)
    requires PoolOk(db, scope, pool, before) && i < |pool| && pool[i].Holds()
    requires x.Holds() && x.context == pool[i].context && db'.items == db.items
    ensures PoolOk(db', scope, pool[i := x], before) && Ready(db', scope) == Ready(db, scope)
  {
    hide HeldBy;
    forall w | w in RunningIn(db', scope) - before ensures HeldBy(pool[i := x], w) {
      assert w in RunningIn(db, scope) - before;
      HolderStays(pool, i, x, w);
    }
  }

  /** When no worker is active, only what was running before and what escaped
      handlers left behind is running. */
  lemma PoolSettled(db: Db, scope: Scope, pool: seq<Worker>, before: set<WorkId>)
    requires PoolOk(db, scope, pool, before) && forall i :: 0 <= i < |pool| ==> !pool[i].Active()
    ensures (forall i :: 0 <= i < |pool| ==> !pool[i].Lost?) ==> RunningIn(db, scope) == before
    ensures (exists i :: 0 <= i < |pool| && pool[i].Lost?) ==> before < RunningIn(db, scope)
  {
    if exists i :: 0 <= i < |pool| && pool[i].Lost? {
      var i :| 0 <= i < |pool| && pool[i].Lost?;
      assert pool[i].context.work in RunningIn(db, scope) - before;
    } else {
      assert forall w :: !HeldBy(pool, w);
      assert RunningIn(db, scope) == before + (RunningIn(db, scope) - before);
    }
  }

  /** What is queued can be claimed. */
  lemma QueueEmpty(db: Db, scope: Scope)
    requires DbOk(db)
    ensures Ready(db, scope) == {}
       <==> forall w :: w in db.items && db.items[w].scope == scope ==> db.items[w].status != Queued
  {
    hide DatasetOk, ReservationOk;
    forall w | w in db.items && db.items[w].scope == scope && db.items[w].status == Queued
      ensures w in Ready(db, scope)
    {
      assert ItemOk(w, db.items[w]);
    }
  }

  lemma FinishLeavesPool(db: Db, db': Db, scope: Scope, pool: seq<Worker>, i: nat, before: set<WorkId>)
    requires PoolOk(db, scope, pool, before) && i < |pool| && pool[i].Working?
    requires db'.items.Keys == db.items.Keys
    requires forall w :: w in db.items && w != pool[i].context.work ==> db'.items[w] == db.items[w]
    requires var w := pool[i].context.work;
      db'.items[w].status != Running && db'.items[w].status != Queued
    ensures PoolOk(db', scope, pool[i := Idle], before) && Ready(db', scope) == Ready(db, scope)
    ensures Weight(pool[i := Idle]) < Weight(pool)
  {
    hide HeldBy;
    WeightUpdate(pool, i, Idle);
    KeepsHolders(db, db', scope, pool, i, Idle, before);
  }

  lemma ReserveKeepsPool(db: Db, db': Db, scope: Scope, pool: seq<Worker>, i: nat, c: Context, acquires: nat,
                         before: set<WorkId>)
    requires PoolOk(db, scope, pool, before) && i < |pool| && pool[i] == Working(c, acquires) && acquires > 0
    requires db'.items == db.items
    ensures PoolOk(db', scope, pool[i := Working(c, acquires - 1)], before) && Ready(db', scope) == Ready(db, scope)
    ensures Weight(pool[i := Working(c, acquires - 1)]) < Weight(pool)
  {
    hide PoolOk;
    WeightUpdate(pool, i, Working(c, acquires - 1));
    KeepsHolder(db, db', scope, pool, i, Working(c, acquires - 1), before);
  }

  /** A handler that escapes leaves its item running and ends its worker. */
  lemma EscapeKeepsPool(db: Db, scope: Scope, pool: seq<Worker>, i: nat, c: Context, before: set<WorkId>)
    requires PoolOk(db, scope, pool, before) && i < |pool| && pool[i].Working? && pool[i].context == c
    ensures PoolOk(db, scope, pool[i := Lost(c)], before) && Weight(pool[i := Lost(c)]) < Weight(pool)
  {
    hide PoolOk;
    WeightUpdate(pool, i, Lost(c));
    KeepsHolder(db, db, scope, pool, i, Lost(c), before);
  }
}
