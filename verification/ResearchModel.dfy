/** Entity research as a database: each BEGIN IMMEDIATE ... COMMIT block of the
    runner is one atomic transaction. Work ids are hashes of the scope and the
    identity of an item and are modelled as that pair. */
module ResearchModel {
  import opened Wrappers

  datatype Scope = Scope(owner: string, dataset: string, version: string)

  datatype Identity = Identity(entity: string, offering: string, requirement: string)

  datatype WorkId = WorkId(scope: Scope, identity: Identity)

  datatype Status = Queued | Running | Completed | Failed

  datatype Verdict = Supported | Contradicted | NotFound

  datatype Claim = Claim(identity: Identity, verdict: Verdict, evidence: seq<string>, value: string)

  /** The last error of an item: what its handler raised, or a restart. */
  datatype Note = HandlerError(message: string) | InterruptedWillRetry | InterruptedForGood

  datatype Item = Item(scope: Scope, identity: Identity, fingerprint: string, status: Status,
                       attempts: nat, maxAttempts: nat, claim: Option<Claim>, lastError: Option<Note>)

  datatype Dataset = Dataset(maxCalls: nat, maxCost: nat, callsReserved: nat, costReserved: nat)

  /** One reservation row. The attempt is a history variable: the row does not
      store it, but it says on whose behalf the row was written. */
  datatype Reservation = Reservation(work: WorkId, provider: string, calls: nat, cost: nat, attempt: nat)

  datatype Db = Db(datasets: map<Scope, Dataset>, items: map<WorkId, Item>, reservations: seq<Reservation>)

  datatype Limits = Limits(maxCalls: nat, maxCost: nat)

  datatype Task = Task(identity: Identity, fingerprint: string, maxAttempts: nat)

  /** The snapshot of a claimed item a worker or a handler holds; it may be
      arbitrarily old when it is used. */
  datatype Context = Context(work: WorkId, scope: Scope, identity: Identity, attempts: nat)

  datatype ResearchError =
    | Closed | BadRequest | DatasetConflict | DatasetNotFound | DuplicateTask
    | NotRunning | IdentityMismatch | CallLimit | CostLimit | BadClaim | AlreadyRunning | HandlerEscaped

  const MAX_TASKS: nat := 10000
  const MAX_ATTEMPTS: nat := 20

  const EMPTY_DB := Db(map[], map[], [])

  // ---------- submit ----------

  predicate ValidTask(t: Task) {
    1 <= t.maxAttempts <= MAX_ATTEMPTS
  }

  function IdOf(scope: Scope, t: Task): WorkId {
    WorkId(scope, t.identity)
  }

  function NewItem(scope: Scope, t: Task): Item {
    Item(scope, t.identity, t.fingerprint, Queued, 0, t.maxAttempts, None, None)
  }

  function AddTasks(items: map<WorkId, Item>, scope: Scope, tasks: seq<Task>): map<WorkId, Item> {
    if tasks == [] then items
    else
      var before := AddTasks(items, scope, tasks[..|tasks| - 1]);
      var t := tasks[|tasks| - 1];
      if IdOf(scope, t) in before then before else before[IdOf(scope, t) := NewItem(scope, t)]
  }

  /** The error task i raises, given the tasks before it raised none. */
  function TaskError(items: map<WorkId, Item>, scope: Scope, tasks: seq<Task>, i: nat): Option<ResearchError>
    requires i < |tasks|
  {
    var t := tasks[i];
    if exists j :: 0 <= j < i && tasks[j].identity == t.identity then Some(DuplicateTask)
    else if IdOf(scope, t) in items && (items[IdOf(scope, t)].fingerprint != t.fingerprint
                                        || items[IdOf(scope, t)].maxAttempts != t.maxAttempts) then
      Some(DatasetConflict)
    else None
  }

  function TasksError(items: map<WorkId, Item>, scope: Scope, tasks: seq<Task>, n: nat): Option<ResearchError>
    requires n <= |tasks|
  {
    if n == 0 then None
    else if TasksError(items, scope, tasks, n - 1).Some? then TasksError(items, scope, tasks, n - 1)
    else TaskError(items, scope, tasks, n - 1)
  }

  function Submit(db: Db, scope: Scope, tasks: seq<Task>, limits: Limits): (Db, Option<ResearchError>) {
    if tasks == [] || |tasks| > MAX_TASKS || exists t :: t in tasks && !ValidTask(t) then (db, Some(BadRequest))
    else if scope in db.datasets && (db.datasets[scope].maxCalls != limits.maxCalls
                                     || db.datasets[scope].maxCost != limits.maxCost) then
      (db, Some(DatasetConflict))
    else
      var error := TasksError(db.items, scope, tasks, |tasks|);
      if error.Some? then (db, error)
      else
        var datasets := if scope in db.datasets then db.datasets
                        else db.datasets[scope := Dataset(limits.maxCalls, limits.maxCost, 0, 0)];
        (Db(datasets, AddTasks(db.items, scope, tasks), db.reservations), None)
  }

  predicate SameDemands(item: Item, t: Task) {
    item.fingerprint == t.fingerprint && item.maxAttempts == t.maxAttempts
  }

  /** A submission that is taken: well-formed, without repeated identities, and in
      agreement with whatever of it is there already. */
  ghost predicate Submittable(db: Db, scope: Scope, tasks: seq<Task>, limits: Limits) {
    && 1 <= |tasks| <= 10000 && (forall i :: 0 <= i < |tasks| ==> 1 <= tasks[i].maxAttempts <= 20)
    && (scope in db.datasets ==>
          db.datasets[scope].maxCalls == limits.maxCalls && db.datasets[scope].maxCost == limits.maxCost)
    && (forall i, j :: 0 <= i < j < |tasks| ==> tasks[i].identity != tasks[j].identity)
    && (forall i :: 0 <= i < |tasks| && WorkId(scope, tasks[i].identity) in db.items ==>
          SameDemands(db.items[WorkId(scope, tasks[i].identity)], tasks[i]))
  }

  /** What a submission does. A dataset gets the limits of its first submission and
      starts with nothing reserved; every task that was not there becomes an item
      with its own fingerprint and number of attempts; nothing else changes. */
  ghost predicate SubmitHolds(db: Db, scope: Scope, tasks: seq<Task>, limits: Limits, db': Db,
                              error: Option<ResearchError>) {
    && (error.None? <==> Submittable(db, scope, tasks, limits))
    && (error == Some(BadRequest) <==>
          !(1 <= |tasks| <= 10000) || exists i :: 0 <= i < |tasks| && !(1 <= tasks[i].maxAttempts <= 20))
    && error in {None, Some(BadRequest), Some(DuplicateTask), Some(DatasetConflict)}
    && (error == Some(DuplicateTask) ==>
          exists i, j :: 0 <= i < j < |tasks| && tasks[i].identity == tasks[j].identity)
    && (error.Some? ==> db' == db)
    && (error.None? ==>
          && scope in db'.datasets && db'.datasets == db.datasets[scope := db'.datasets[scope]]
          && (scope in db.datasets ==> db'.datasets[scope] == db.datasets[scope])
          && (scope !in db.datasets ==>
                db'.datasets[scope].maxCalls == limits.maxCalls && db'.datasets[scope].maxCost == limits.maxCost
                && db'.datasets[scope].callsReserved == 0 && db'.datasets[scope].costReserved == 0)
          && db'.reservations == db.reservations
          && (forall w :: w in db.items ==> w in db'.items && db'.items[w] == db.items[w])
          && (forall i :: 0 <= i < |tasks| ==> Entered(db, scope, tasks[i], db'))
          && (forall w :: w in db'.items && w !in db.items ==>
                exists i :: 0 <= i < |tasks| && w == WorkId(scope, tasks[i].identity)))
  }

  ghost predicate Entered(db: Db, scope: Scope, t: Task, db': Db) {
    var w := WorkId(scope, t.identity);
    w in db'.items
    && (w !in db.items ==>
          db'.items[w] == Item(scope, t.identity, t.fingerprint, Queued, 0, t.maxAttempts, None, None))
  }

  lemma {:induction false} NoTaskError(items: map<WorkId, Item>, scope: Scope, tasks: seq<Task>, n: nat)
    requires n <= |tasks|
    ensures TasksError(items, scope, tasks, n).None? <==>
      forall i :: 0 <= i < n ==> TaskError(items, scope, tasks, i).None?
    ensures TasksError(items, scope, tasks, n).Some? ==>
      exists i :: 0 <= i < n && TaskError(items, scope, tasks, i) == TasksError(items, scope, tasks, n)
  {
    hide TaskError;
    if n > 0 {
      NoTaskError(items, scope, tasks, n - 1);
      assert TaskError(items, scope, tasks, n - 1) == TaskError(items, scope, tasks, n - 1);
    }
  }

  lemma {:induction false} NewTaskAdded(items: map<WorkId, Item>, scope: Scope, tasks: seq<Task>, t: Task)
    requires t in tasks
    ensures IdOf(scope, t) in AddTasks(items, scope, tasks)
  {
    if t in tasks[..|tasks| - 1] {
      NewTaskAdded(items, scope, tasks[..|tasks| - 1], t);
    }
  }

  lemma TaskEntered(db: Db, scope: Scope, tasks: seq<Task>, i: nat)
    requires i < |tasks| && forall i, j :: 0 <= i < j < |tasks| ==> tasks[i].identity != tasks[j].identity
    ensures Entered(db, scope, tasks[i], db.(items := AddTasks(db.items, scope, tasks)))
  {
    hide AddTasks;
    NewTaskAdded(db.items, scope, tasks, tasks[i]);
    AddTasksItem(db.items, scope, tasks, IdOf(scope, tasks[i]));
    if IdOf(scope, tasks[i]) !in db.items {
      var t :| t in tasks && IdOf(scope, tasks[i]) == IdOf(scope, t)
               && AddTasks(db.items, scope, tasks)[IdOf(scope, tasks[i])] == NewItem(scope, t);
      var j :| 0 <= j < |tasks| && tasks[j] == t;
    }
  }

  lemma NoErrorMeans(db: Db, scope: Scope, tasks: seq<Task>)
    ensures TasksError(db.items, scope, tasks, |tasks|).None? <==>
      && (forall i, j :: 0 <= i < j < |tasks| ==> tasks[i].identity != tasks[j].identity)
      && (forall i :: 0 <= i < |tasks| && WorkId(scope, tasks[i].identity) in db.items ==>
            SameDemands(db.items[WorkId(scope, tasks[i].identity)], tasks[i]))
    ensures TasksError(db.items, scope, tasks, |tasks|) == Some(DuplicateTask) ==>
      exists i, j :: 0 <= i < j < |tasks| && tasks[i].identity == tasks[j].identity
    ensures TasksError(db.items, scope, tasks, |tasks|) in {None, Some(DuplicateTask), Some(DatasetConflict)}
  {
    hide TasksError;
    NoTaskError(db.items, scope, tasks, |tasks|);
    forall i | 0 <= i < |tasks| ensures TaskError(db.items, scope, tasks, i).None? <==>
      && (forall j :: 0 <= j < i ==> tasks[j].identity != tasks[i].identity)
      && (WorkId(scope, tasks[i].identity) in db.items ==>
            SameDemands(db.items[WorkId(scope, tasks[i].identity)], tasks[i]))
    {
    }
  }

  lemma SubmitEffects(db: Db, scope: Scope, tasks: seq<Task>, limits: Limits)
    ensures var (db', error) := Submit(db, scope, tasks, limits); SubmitHolds(db, scope, tasks, limits, db', error)
  {
    hide TasksError, AddTasks, Entered, SameDemands;
    NoErrorMeans(db, scope, tasks);
    var (db', error) := Submit(db, scope, tasks, limits);
    assert (exists t :: t in tasks && !ValidTask(t)) <==> exists i :: 0 <= i < |tasks| && !ValidTask(tasks[i]);
    if error.None? {
      forall w ensures w in db.items ==> w in db'.items && db'.items[w] == db.items[w] {
        AddTasksItem(db.items, scope, tasks, w);
      }
      forall i | 0 <= i < |tasks| ensures Entered(db, scope, tasks[i], db') {
        TaskEntered(db, scope, tasks, i);
        EnteredByItems(db, scope, tasks[i], db.(items := db'.items), db');
      }
      forall w | w in db'.items && w !in db.items
        ensures exists i :: 0 <= i < |tasks| && w == WorkId(scope, tasks[i].identity)
      {
        AddTasksItem(db.items, scope, tasks, w);
        var t :| t in tasks && w == IdOf(scope, t);
        var i :| 0 <= i < |tasks| && tasks[i] == t;
      }
    }
  }

  lemma EnteredByItems(db: Db, scope: Scope, t: Task, a: Db, b: Db)
    ensures a.items == b.items && Entered(db, scope, t, a) ==> Entered(db, scope, t, b)
  {
  }

  // ---------- the life of an item ----------

  predicate Claimable(db: Db, scope: Scope, w: WorkId) {
    w in db.items && db.items[w].scope == scope && db.items[w].status == Queued
    && db.items[w].attempts < db.items[w].maxAttempts
  }

  /** Claim a given queued item; the source picks the smallest work id, which is
      an arbitrary one since ids are hashes. */
  function ClaimItem(db: Db, scope: Scope, w: WorkId): Db {
    if !Claimable(db, scope, w) then db
    else
      var item := db.items[w];
      db.(items := db.items[w := item.(status := Running, attempts := item.attempts + 1, lastError := None)])
  }

  /** The update guards shared by complete, fail and reserve. */
  predicate Current(db: Db, c: Context) {
    c.work in db.items && db.items[c.work].status == Running && db.items[c.work].attempts == c.attempts
  }

  function Reserve(db: Db, c: Context, provider: string, calls: int, cost: int): Result<Db, ResearchError> {
    if calls < 1 || cost < 0 then Failure(BadRequest)
    else if !Current(db, c) then Failure(NotRunning)
    else if db.items[c.work].scope != c.scope then Failure(IdentityMismatch)
    else if c.scope !in db.datasets then Failure(DatasetNotFound)
    else
      var d := db.datasets[c.scope];
      if d.callsReserved + calls > d.maxCalls then Failure(CallLimit)
      else if d.costReserved + cost > d.maxCost then Failure(CostLimit)
      else
        Success(Db(
          db.datasets[c.scope := d.(callsReserved := d.callsReserved + calls, costReserved := d.costReserved + cost)],
          db.items,
          db.reservations + [Reservation(c.work, provider, calls, cost, c.attempts)]))
  }

  predicate ValidClaim(claim: Claim) {
    claim.verdict != NotFound ==> claim.evidence != []
  }

  function Complete(db: Db, c: Context, claim: Claim): Result<Db, ResearchError> {
    if !ValidClaim(claim) || claim.identity != c.identity then Failure(BadClaim)
    else if !Current(db, c) then Failure(NotRunning)
    else
      var item := db.items[c.work];
      Success(db.(items := db.items[c.work := item.(status := Completed, claim := Some(claim), lastError := None)]))
  }

  function Fail(db: Db, c: Context, message: string): Db {
    if !Current(db, c) then db
    else db.(items := db.items[c.work := db.items[c.work].(status := Failed, lastError := Some(HandlerError(message)))])
  }

  // ---------- retry and crash recovery ----------

  predicate Retryable(db: Db, scope: Scope, ids: Option<set<WorkId>>, w: WorkId) {
    w in db.items && db.items[w].scope == scope && db.items[w].status == Failed
    && db.items[w].attempts < db.items[w].maxAttempts && (ids.None? || w in ids.value)
  }

  function Retry(db: Db, scope: Scope, ids: Option<set<WorkId>>): Result<Db, ResearchError> {
    if scope !in db.datasets then Failure(DatasetNotFound)
    else if ids.Some? && exists w :: w in ids.value && !(w in db.items && db.items[w].scope == scope) then
      Failure(DatasetNotFound)
    else
      Success(db.(items := map w | w in db.items ::
        if Retryable(db, scope, ids, w) then db.items[w].(status := Queued, lastError := None) else db.items[w]))
  }

  /** A retry requeues the failed items of the scope that have attempts left, or
      those of them that were named, and leaves everything else alone. */
  ghost predicate RetryHolds(db: Db, scope: Scope, ids: Option<set<WorkId>>, db': Db) {
    && db'.datasets == db.datasets && db'.reservations == db.reservations && db'.items.Keys == db.items.Keys
    && forall w :: w in db.items ==>
         if db.items[w].scope == scope && db.items[w].status == Failed
            && db.items[w].attempts < db.items[w].maxAttempts && (ids.Some? ==> w in ids.value)
         then db'.items[w] == db.items[w].(status := Queued, lastError := None)
         else db'.items[w] == db.items[w]
  }

  /** The dataset is there, and so is every item that was named. */
  predicate RetryAccepted(db: Db, scope: Scope, ids: Option<set<WorkId>>) {
    scope in db.datasets
    && (ids.Some? ==> forall w :: w in ids.value ==> w in db.items && db.items[w].scope == scope)
  }

  lemma RetryEffects(db: Db, scope: Scope, ids: Option<set<WorkId>>)
    ensures Retry(db, scope, ids).Success? <==> RetryAccepted(db, scope, ids)
    ensures Retry(db, scope, ids).Success? ==> RetryHolds(db, scope, ids, Retry(db, scope, ids).value)
    ensures Retry(db, scope, ids).Failure? ==> Retry(db, scope, ids) == Failure(DatasetNotFound)
  {
  }

  lemma RetryTables(db: Db, scope: Scope, ids: Option<set<WorkId>>, chosen: set<WorkId>)
    requires Retry(db, scope, ids).Success?
    requires chosen == set w | w in db.items && db.items[w].scope == scope && db.items[w].status == Failed
                               && db.items[w].attempts < db.items[w].maxAttempts && (ids.None? || w in ids.value)
    ensures chosen == set w | w in db.items && Retryable(db, scope, ids, w)
    ensures Retry(db, scope, ids) == Success(db.(items := map w | w in db.items ::
      if w in chosen then db.items[w].(status := Queued, lastError := None) else db.items[w]))
  {
    var requeued := map w | w in db.items ::
      if w in chosen then db.items[w].(status := Queued, lastError := None) else db.items[w];
    assert Retry(db, scope, ids).value.items == requeued;
  }

  /** What is retried can be claimed again. */
  lemma RetryRequeues(db: Db, scope: Scope, ids: Option<set<WorkId>>)
    requires Retry(db, scope, ids).Success?
    ensures forall w :: w in db.items && Retryable(db, scope, ids, w) ==>
      Claimable(Retry(db, scope, ids).value, scope, w)
  {
  }

  function Recovered(item: Item): Item {
    if item.status != Running then item
    else if item.attempts < item.maxAttempts then
      item.(status := Queued, lastError := Some(InterruptedWillRetry))
    else
      item.(status := Failed, lastError := Some(InterruptedForGood))
  }

  function Recover(db: Db): Db {
    db.(items := map w | w in db.items :: Recovered(db.items[w]))
  }

  // ---------- runs ----------

  datatype Op =
    | DoSubmit(scope: Scope, tasks: seq<Task>, limits: Limits)
    | DoClaim(scope: Scope, pick: WorkId)
    | DoReserve(context: Context, provider: string, calls: int, cost: int)
    | DoComplete(context: Context, claim: Claim)
    | DoFail(context: Context, message: string)
    | DoRetry(scope: Scope, ids: Option<set<WorkId>>)
    | DoRecover

  function OrElse(r: Result<Db, ResearchError>, db: Db): Db {
    if r.Success? then r.value else db
  }

  /** Any worker, caller or restarted process may take any step at any time,
      with any context it ever got hold of. */
  function Step(db: Db, op: Op): Db {
    match op
    case DoSubmit(scope, tasks, limits) => Submit(db, scope, tasks, limits).0
    case DoClaim(scope, pick) => ClaimItem(db, scope, pick)
    case DoReserve(c, provider, calls, cost) => OrElse(Reserve(db, c, provider, calls, cost), db)
    case DoComplete(c, claim) => OrElse(Complete(db, c, claim), db)
    case DoFail(c, message) => Fail(db, c, message)
    case DoRetry(scope, ids) => OrElse(Retry(db, scope, ids), db)
    case DoRecover => Recover(db)
  }

  /** The calls that need no run lock: submit and retry_failed. */
  predicate Unlocked(op: Op) {
    op.DoSubmit? || op.DoRetry?
  }

  function Run(db: Db, ops: seq<Op>): Db
    decreases |ops|
  {
    if ops == [] then db else Run(Step(db, ops[0]), ops[1..])
  }

  // ---------- what every state satisfies ----------

  function CallsOf(rs: seq<Reservation>, scope: Scope): nat {
    if rs == [] then 0
    else
      var r := rs[|rs| - 1];
      CallsOf(rs[..|rs| - 1], scope) + if r.work.scope == scope then r.calls else 0
  }

  function CostOf(rs: seq<Reservation>, scope: Scope): nat {
    if rs == [] then 0
    else
      var r := rs[|rs| - 1];
      CostOf(rs[..|rs| - 1], scope) + if r.work.scope == scope then r.cost else 0
  }

  ghost predicate ItemOk(w: WorkId, item: Item) {
    && w == WorkId(item.scope, item.identity)
    && 1 <= item.maxAttempts <= MAX_ATTEMPTS && item.attempts <= item.maxAttempts
    && (item.status == Queued ==> item.attempts < item.maxAttempts)
    && (item.status != Queued ==> item.attempts >= 1)
    && (item.status == Completed <==> item.claim.Some?)
    && (item.claim.Some? ==> item.claim.value.identity == item.identity && ValidClaim(item.claim.value))
  }

  /** The books balance: what a dataset has reserved is the sum of its rows,
      and stays within its limits. */
  ghost predicate DatasetOk(db: Db, scope: Scope) {
    scope in db.datasets
    && db.datasets[scope].callsReserved == CallsOf(db.reservations, scope) <= db.datasets[scope].maxCalls
    && db.datasets[scope].costReserved == CostOf(db.reservations, scope) <= db.datasets[scope].maxCost
  }

  ghost predicate ReservationOk(db: Db, r: Reservation) {
    r.work in db.items && r.calls >= 1 && 1 <= r.attempt <= db.items[r.work].attempts
  }

  ghost predicate DbOk(db: Db) {
    && (forall w :: w in db.items ==> ItemOk(w, db.items[w]) && db.items[w].scope in db.datasets)
    && (forall s :: s in db.datasets ==> DatasetOk(db, s))
    && (forall i :: 0 <= i < |db.reservations| ==> ReservationOk(db, db.reservations[i]))
  }

  lemma {:induction false} AddTasksItem(items: map<WorkId, Item>, scope: Scope, tasks: seq<Task>, w: WorkId)
    ensures w in items ==> w in AddTasks(items, scope, tasks) && AddTasks(items, scope, tasks)[w] == items[w]
    ensures w !in items && w in AddTasks(items, scope, tasks) ==>
      exists t :: t in tasks && w == IdOf(scope, t) && AddTasks(items, scope, tasks)[w] == NewItem(scope, t)
    ensures (forall t :: t in tasks ==> IdOf(scope, t) != w) ==> (w in items <==> w in AddTasks(items, scope, tasks))
  {
    if tasks != [] {
      AddTasksItem(items, scope, tasks[..|tasks| - 1], w);
    }
  }

  lemma {:induction false} NoRowsForNewScope(db: Db, rs: seq<Reservation>, scope: Scope)
    requires forall i :: 0 <= i < |rs| ==> rs[i].work.scope != scope
    ensures CallsOf(rs, scope) == 0 && CostOf(rs, scope) == 0
  {
    if rs != [] {
      NoRowsForNewScope(db, rs[..|rs| - 1], scope);
    }
  }

  lemma SubmitOk(db: Db, scope: Scope, tasks: seq<Task>, limits: Limits)
    requires DbOk(db)
    ensures DbOk(Submit(db, scope, tasks, limits).0)
  {
    var (db', error) := Submit(db, scope, tasks, limits);
    if error.None? {
      forall w ensures
        && (w in db.items ==> w in db'.items && db'.items[w] == db.items[w])
        && (w in db'.items && w !in db.items ==> ItemOk(w, db'.items[w]) && db'.items[w].scope == scope)
      {
        AddTasksItem(db.items, scope, tasks, w);
      }
      if scope !in db.datasets {
        forall i | 0 <= i < |db.reservations| ensures db.reservations[i].work.scope != scope {
          assert ReservationOk(db, db.reservations[i]);
          assert ItemOk(db.reservations[i].work, db.items[db.reservations[i].work]);
        }
        NoRowsForNewScope(db, db.reservations, scope);
      }
      forall s | s in db'.datasets ensures DatasetOk(db', s) {
        assert s in db.datasets ==> DatasetOk(db, s);
      }
      forall i | 0 <= i < |db'.reservations| ensures ReservationOk(db', db'.reservations[i]) {
        assert ReservationOk(db, db.reservations[i]);
      }
    }
  }

  /** A step that touches items alone, legally and without lowering attempts. */
  lemma ItemsChanged(db: Db, db': Db)
    requires DbOk(db) && db'.datasets == db.datasets && db'.reservations == db.reservations
    requires db'.items.Keys == db.items.Keys
    requires forall w :: w in db.items ==>
      ItemOk(w, db'.items[w]) && db'.items[w].scope == db.items[w].scope
      && db'.items[w].attempts >= db.items[w].attempts
    ensures DbOk(db')
  {
    forall s | s in db'.datasets ensures DatasetOk(db', s) {
      assert DatasetOk(db, s);
    }
    forall i | 0 <= i < |db'.reservations| ensures ReservationOk(db', db'.reservations[i]) {
      assert ReservationOk(db, db.reservations[i]);
    }
  }

  lemma ReserveOk(db: Db, c: Context, provider: string, calls: int, cost: int)
    requires DbOk(db) && Reserve(db, c, provider, calls, cost).Success?
    ensures var db' := Reserve(db, c, provider, calls, cost).value;
      DbOk(db') && Current(db, c)
      && db'.reservations == db.reservations + [Reservation(c.work, provider, calls, cost, c.attempts)]
  {
    var db' := Reserve(db, c, provider, calls, cost).value;
    assert ItemOk(c.work, db.items[c.work]);
    var n := |db.reservations|;
    assert db'.reservations[..n] == db.reservations;
    forall s | s in db'.datasets ensures DatasetOk(db', s) {
      assert DatasetOk(db, s);
    }
    forall i | 0 <= i < |db'.reservations| ensures ReservationOk(db', db'.reservations[i]) {
      if i < n {
        assert ReservationOk(db, db.reservations[i]);
      }
    }
  }

  /** Contexts are snapshots of claimed rows; they may be stale, not forged. */
  predicate Genuine(op: Op) {
    match op
    case DoReserve(c, _, _, _) => c.work == WorkId(c.scope, c.identity)
    case DoComplete(c, _) => c.work == WorkId(c.scope, c.identity)
    case DoFail(c, _) => c.work == WorkId(c.scope, c.identity)
    case _ => true
  }

  lemma CompleteOk(db: Db, c: Context, claim: Claim)
    requires DbOk(db) && c.work == WorkId(c.scope, c.identity) && Complete(db, c, claim).Success?
    ensures DbOk(Complete(db, c, claim).value)
  {
    hide DatasetOk, ReservationOk;
    ItemsChanged(db, Complete(db, c, claim).value);
  }

  lemma RetryOk(db: Db, scope: Scope, ids: Option<set<WorkId>>)
    requires DbOk(db) && Retry(db, scope, ids).Success?
    ensures DbOk(Retry(db, scope, ids).value)
  {
    hide DatasetOk, ReservationOk;
    ItemsChanged(db, Retry(db, scope, ids).value);
  }

  lemma ClaimOk(db: Db, scope: Scope, w: WorkId)
    requires DbOk(db)
    ensures DbOk(ClaimItem(db, scope, w))
  {
    hide DatasetOk, ReservationOk;
    ItemsChanged(db, ClaimItem(db, scope, w));
  }

  lemma FailOk(db: Db, c: Context, message: string)
    requires DbOk(db)
    ensures DbOk(Fail(db, c, message))
  {
    hide DatasetOk, ReservationOk;
    ItemsChanged(db, Fail(db, c, message));
  }

  lemma RecoverOk(db: Db)
    requires DbOk(db)
    ensures DbOk(Recover(db))
  {
    hide DatasetOk, ReservationOk;
    ItemsChanged(db, Recover(db));
  }

  lemma StepOk(db: Db, op: Op)
    requires DbOk(db) && Genuine(op)
    ensures DbOk(Step(db, op))
  {
    hide DbOk, Submit, Reserve, Complete, Retry, Recover, ClaimItem, Fail;
    match op
    case DoSubmit(scope, tasks, limits) => SubmitOk(db, scope, tasks, limits);
    case DoReserve(c, provider, calls, cost) =>
      if Reserve(db, c, provider, calls, cost).Success? {
        ReserveOk(db, c, provider, calls, cost);
      }
    case DoComplete(c, claim) =>
      if Complete(db, c, claim).Success? {
        CompleteOk(db, c, claim);
      }
    case DoRetry(scope, ids) =>
      if Retry(db, scope, ids).Success? {
        RetryOk(db, scope, ids);
      }
    case DoClaim(scope, pick) => ClaimOk(db, scope, pick);
    case DoFail(c, message) => FailOk(db, c, message);
    case DoRecover => RecoverOk(db);
  }

  /** The identity check of _reserve never fires for a genuine context. */
  lemma IdentityNeverMismatches(db: Db, c: Context, provider: string, calls: int, cost: int)
    requires DbOk(db) && c.work == WorkId(c.scope, c.identity)
    ensures Reserve(db, c, provider, calls, cost) != Failure(IdentityMismatch)
    ensures Reserve(db, c, provider, calls, cost) != Failure(DatasetNotFound)
  {
    if Current(db, c) {
      assert ItemOk(c.work, db.items[c.work]);
    }
  }

  // ---------- what every step keeps of the state before it ----------

  /** Nothing submitted is ever lost or redefined; attempts only grow; a
      completed item is final; limits are immutable; rows are append-only. */
  ghost predicate Evolves(a: Db, b: Db) {
    && (forall w :: w in a.items ==> w in b.items && ItemEvolves(a.items[w], b.items[w]))
    && (forall s :: s in a.datasets ==>
          s in b.datasets && b.datasets[s].maxCalls == a.datasets[s].maxCalls
          && b.datasets[s].maxCost == a.datasets[s].maxCost)
    && |a.reservations| <= |b.reservations| && b.reservations[..|a.reservations|] == a.reservations
  }

  ghost predicate ItemEvolves(a: Item, b: Item) {
    && b.scope == a.scope && b.identity == a.identity
    && b.fingerprint == a.fingerprint && b.maxAttempts == a.maxAttempts
    && b.attempts >= a.attempts
    && (a.status == Completed ==> b == a)
  }

  lemma SubmitEvolves(db: Db, scope: Scope, tasks: seq<Task>, limits: Limits)
    ensures Evolves(db, Submit(db, scope, tasks, limits).0)
  {
    hide TasksError;
    var db' := Submit(db, scope, tasks, limits).0;
    if db' != db {
      forall w | w in db.items ensures w in db'.items && db'.items[w] == db.items[w] {
        AddTasksItem(db.items, scope, tasks, w);
      }
    }
  }

  lemma StepEvolves(db: Db, op: Op)
    ensures Evolves(db, Step(db, op))
  {
    hide Submit;
    if op.DoSubmit? {
      SubmitEvolves(db, op.scope, op.tasks, op.limits);
    }
  }

  lemma EvolvesTransitive(a: Db, b: Db, c: Db)
    requires Evolves(a, b) && Evolves(b, c)
    ensures Evolves(a, c)
  {
    assert c.reservations[..|a.reservations|] == c.reservations[..|b.reservations|][..|a.reservations|];
  }

  ghost predicate AllGenuine(ops: seq<Op>) {
    forall i :: 0 <= i < |ops| ==> Genuine(ops[i])
  }

  /** Safety over every interleaving: the books balance, quotas hold, and the
      history of every item is monotone. */
  lemma {:induction false} RunSafe(db: Db, ops: seq<Op>)
    requires DbOk(db) && AllGenuine(ops)
    ensures DbOk(Run(db, ops)) && Evolves(db, Run(db, ops))
    decreases |ops|
  {
    hide DbOk, Evolves, Step;
    if ops == [] {
      EvolvesSelf(db);
    } else {
      StepOk(db, ops[0]);
      StepEvolves(db, ops[0]);
      RunSafe(Step(db, ops[0]), ops[1..]);
      EvolvesTransitive(db, Step(db, ops[0]), Run(db, ops));
    }
  }

  lemma EvolvesSelf(db: Db)
    ensures Evolves(db, db)
  {
  }

  /** A dataset is there because it was, or because this submission, the first
      accepted for its scope, created it. */
  lemma OnlySubmitCreates(db: Db, op: Op, scope: Scope)
    requires scope in Step(db, op).datasets
    ensures var d := Step(db, op).datasets[scope];
      if scope in db.datasets then
        d.maxCalls == db.datasets[scope].maxCalls && d.maxCost == db.datasets[scope].maxCost
      else
        op.DoSubmit? && op.scope == scope && Submittable(db, scope, op.tasks, op.limits)
        && d.maxCalls == op.limits.maxCalls && d.maxCost == op.limits.maxCost
  {
    hide Submit, Submittable;
    if op.DoSubmit? {
      SubmitEffects(db, op.scope, op.tasks, op.limits);
    }
  }

  /** Step i of the run is the first accepted submission for the scope. */
  ghost predicate OpenedAt(ops: seq<Op>, i: nat, scope: Scope) {
    && i < |ops| && ops[i].DoSubmit? && ops[i].scope == scope && scope !in Run(EMPTY_DB, ops[..i]).datasets
    && Submittable(Run(EMPTY_DB, ops[..i]), scope, ops[i].tasks, ops[i].limits)
  }

  lemma {:induction false} LimitsAreSubmitted(ops: seq<Op>, scope: Scope)
    requires scope in Run(EMPTY_DB, ops).datasets
    ensures exists i: nat ::
      && OpenedAt(ops, i, scope)
      && Run(EMPTY_DB, ops).datasets[scope].maxCalls == ops[i].limits.maxCalls
      && Run(EMPTY_DB, ops).datasets[scope].maxCost == ops[i].limits.maxCost
    decreases |ops|
  {
    hide Step, Submittable;
    if ops != [] {
      var n := |ops| - 1;
      RunLast(EMPTY_DB, ops);
      OnlySubmitCreates(Run(EMPTY_DB, ops[..n]), ops[n], scope);
      if scope in Run(EMPTY_DB, ops[..n]).datasets {
        LimitsAreSubmitted(ops[..n], scope);
        var i: nat :| OpenedAt(ops[..n], i, scope)
          && Run(EMPTY_DB, ops[..n]).datasets[scope].maxCalls == ops[..n][i].limits.maxCalls
          && Run(EMPTY_DB, ops[..n]).datasets[scope].maxCost == ops[..n][i].limits.maxCost;
        assert ops[..n][..i] == ops[..i];
        assert OpenedAt(ops, i, scope);
      } else {
        assert OpenedAt(ops, n, scope);
      }
    }
  }

  /** From an empty database no run ever overspends a dataset: what its rows have
      reserved stays within the limits of the first accepted submission. */
  lemma QuotaSafety(ops: seq<Op>, scope: Scope)
    requires AllGenuine(ops) && scope in Run(EMPTY_DB, ops).datasets
    ensures var db := Run(EMPTY_DB, ops);
      && db.datasets[scope].callsReserved == CallsOf(db.reservations, scope)
      && db.datasets[scope].costReserved == CostOf(db.reservations, scope)
      && exists i: nat ::
           && OpenedAt(ops, i, scope)
           && CallsOf(db.reservations, scope) <= ops[i].limits.maxCalls == db.datasets[scope].maxCalls
           && CostOf(db.reservations, scope) <= ops[i].limits.maxCost == db.datasets[scope].maxCost
  {
    hide Run, OpenedAt, AllGenuine;
    EmptyDbOk();
    RunSafe(EMPTY_DB, ops);
    LimitsAreSubmitted(ops, scope);
    assert DatasetOk(Run(EMPTY_DB, ops), scope);
  }

  lemma EmptyDbOk()
    ensures DbOk(EMPTY_DB)
  {
  }

  /** A completed item, its claim included, is the same after any further run. */
  lemma CompletedIsFinal(before: seq<Op>, after: seq<Op>, w: WorkId)
    requires AllGenuine(before) && AllGenuine(after)
    requires w in Run(EMPTY_DB, before).items && Run(EMPTY_DB, before).items[w].status == Completed
    ensures var db := Run(EMPTY_DB, before);
      && w in Run(db, after).items && Run(db, after).items[w] == db.items[w]
      && db.items[w].claim.Some? && db.items[w].claim.value.identity == w.identity
  {
    RunSafe(EMPTY_DB, before);
    RunSafe(Run(EMPTY_DB, before), after);
    assert ItemOk(w, Run(EMPTY_DB, before).items[w]);
  }

  /** The attempt the context was handed out for is over. */
  predicate Over(db: Db, c: Context) {
    && c.work in db.items
    && (db.items[c.work].attempts > c.attempts
        || (db.items[c.work].attempts == c.attempts && db.items[c.work].status != Running))
  }

  lemma OverStep(db: Db, op: Op, c: Context)
    requires Over(db, c)
    ensures Over(Step(db, op), c)
  {
    hide TasksError;
    if op.DoSubmit? {
      AddTasksItem(db.items, op.scope, op.tasks, c.work);
    }
  }

  /** Once its attempt is over, whether by its own hand, a failure, a restart or
      a newer claim, a context stays powerless for good: over every further run
      it can neither complete, fail nor reserve. */
  lemma {:induction false} AttemptsNeverReturn(db: Db, ops: seq<Op>, c: Context)
    requires Over(db, c)
    ensures var db' := Run(db, ops);
      && Over(db', c) && !Current(db', c)
      && (forall claim :: Step(db', DoComplete(c, claim)) == db')
      && (forall message :: Step(db', DoFail(c, message)) == db')
      && (forall provider, calls, cost :: Step(db', DoReserve(c, provider, calls, cost)) == db')
    decreases |ops|
  {
    if ops != [] {
      OverStep(db, ops[0], c);
      AttemptsNeverReturn(Step(db, ops[0]), ops[1..], c);
    }
  }

  // ---------- counting ----------

  /** How often item w is claimed during the run. */
  function ClaimsOf(db: Db, ops: seq<Op>, w: WorkId): nat
    decreases |ops|
  {
    if ops == [] then 0
    else
      var claimed := ops[0].DoClaim? && ops[0].pick == w && Claimable(db, ops[0].scope, w);
      (if claimed then 1 else 0) + ClaimsOf(Step(db, ops[0]), ops[1..], w)
  }

  function AttemptsOf(db: Db, w: WorkId): nat {
    if w in db.items then db.items[w].attempts else 0
  }

  lemma StepAttempts(db: Db, op: Op, w: WorkId)
    ensures AttemptsOf(Step(db, op), w) == AttemptsOf(db, w)
      + if op.DoClaim? && op.pick == w && Claimable(db, op.scope, w) then 1 else 0
  {
    if op.DoSubmit? {
      AddTasksItem(db.items, op.scope, op.tasks, w);
    }
  }

  /** Attempts count claims exactly, so no interleaving, retry or restart hands
      an item out more often than its maximum. */
  lemma {:induction false} ClaimsAreAttempts(db: Db, ops: seq<Op>, w: WorkId)
    requires DbOk(db) && AllGenuine(ops)
    ensures AttemptsOf(Run(db, ops), w) == AttemptsOf(db, w) + ClaimsOf(db, ops, w)
    ensures w in Run(db, ops).items ==> ClaimsOf(db, ops, w) <= Run(db, ops).items[w].maxAttempts
    decreases |ops|
  {
    RunSafe(db, ops);
    if w in Run(db, ops).items {
      assert ItemOk(w, Run(db, ops).items[w]);
    }
    if ops != [] {
      StepOk(db, ops[0]);
      StepAttempts(db, ops[0], w);
      ClaimsAreAttempts(Step(db, ops[0]), ops[1..], w);
    }
  }

  lemma {:induction false} RunLast(db: Db, ops: seq<Op>)
    requires ops != []
    ensures Run(db, ops) == Step(Run(db, ops[..|ops| - 1]), ops[|ops| - 1])
    decreases |ops|
  {
    hide Step;
    if |ops| > 1 {
      assert ops[1..][..|ops| - 2] == ops[..|ops| - 1][1..];
      RunLast(Step(db, ops[0]), ops[1..]);
    } else {
      assert ops[..0] == [] && ops[1..] == [];
    }
  }

  lemma OnlyReserveAppends(db: Db, op: Op)
    ensures Step(db, op).reservations != db.reservations ==>
      && op.DoReserve? && op.calls >= 1 && op.cost >= 0 && Current(db, op.context)
      && Step(db, op).reservations == db.reservations
           + [Reservation(op.context.work, op.provider, op.calls, op.cost, op.context.attempts)]
  {
  }

  /** Step i of the run writes the row, and its attempt is running then. */
  ghost predicate WrittenAt(db: Db, ops: seq<Op>, i: nat, r: Reservation) {
    && i < |ops| && ops[i].DoReserve? && ops[i].calls >= 1 && ops[i].cost >= 0
    && Current(Run(db, ops[..i]), ops[i].context)
    && r == Reservation(ops[i].context.work, ops[i].provider, ops[i].calls, ops[i].cost, ops[i].context.attempts)
  }

  /** Every reservation row of every run was written by a reserving step, for an
      attempt that was running at that moment. */
  lemma {:induction false} ReservationsNeedRunningAttempt(db: Db, ops: seq<Op>, k: nat)
    requires |db.reservations| <= k < |Run(db, ops).reservations|
    ensures exists i: nat :: WrittenAt(db, ops, i, Run(db, ops).reservations[k])
    decreases |ops|
  {
    hide Step, Current;
    if ops != [] {
      var n := |ops| - 1;
      var before := Run(db, ops[..n]);
      RunLast(db, ops);
      OnlyReserveAppends(before, ops[n]);
      if k < |before.reservations| {
        ReservationsNeedRunningAttempt(db, ops[..n], k);
        var i: nat :| WrittenAt(db, ops[..n], i, before.reservations[k]);
        assert ops[..n][..i] == ops[..i];
        assert WrittenAt(db, ops, i, Run(db, ops).reservations[k]);
      } else {
        assert WrittenAt(db, ops, n, Run(db, ops).reservations[k]);
      }
    }
  }

  /** Recovery leaves nothing running and queues exactly what may run again. */
  lemma RecoverySettles(db: Db, w: WorkId)
    requires DbOk(db) && w in db.items
    ensures var was, now := db.items[w], Recover(db).items[w];
      && (was.status != Running ==> now == was)
      && (was.status == Running && was.attempts < was.maxAttempts ==>
            now == was.(status := Queued, lastError := Some(InterruptedWillRetry)))
      && (was.status == Running && was.attempts == was.maxAttempts ==>
            now == was.(status := Failed, lastError := Some(InterruptedForGood)))
      && now.status != Running
  {
    assert ItemOk(w, db.items[w]);
  }
}
