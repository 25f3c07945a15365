/**
 The table `pq_worker_queue` as every process sees it: committed rows, open transactions
 with their uncommitted writes, and row locks. A transaction locks exactly the rows it has
 written. Workers, callers of `Queue.add` and cleaners of any number of processes
 interleave freely; transactions abort and processes die at any point.
 */
module JobStore {
  import opened Basics

  type Id = nat
  type Bytes = seq<char>
  type Time = int

  datatype Row = Row(
    queue: string, debounceKey: string, arg: Bytes, scope: (Option<int>, Option<int>), startAfter: Time,
    startedAt: Option<Time>, completedAt: Option<Time>, retainUntil: Option<Time>,
    result: Option<Bytes>, commitError: Option<string>)
  {
    predicate IsPending() {
      startedAt == completedAt == retainUntil == None && result == None && commitError == None
    }

    predicate IsDone() {
      startedAt.Some? && completedAt.Some? && retainUntil.Some?
    }
  }

  datatype Write = Put(row: Row) | Remove

  datatype WorkerPoint = Begun | Claimed(id: Id) | Stored(id: Id)

  datatype Kind =
    | Worker(queue: string, at: WorkerPoint)  // the outer transaction of startWork
    | Adder                                   // a caller's transaction using Queue.add
    | Cleaner(now: Time)

  datatype Tx = Tx(process: nat, kind: Kind, writes: map<Id, Write>)

  /**
   `used`, `enqueued` and `cleaned` are history: ids ever generated, rows whose insert was
   committed, and for each deleted row its `retain_until` and the cleaner's clock.
   */
  datatype Store = Store(
    rows: map<Id, Row>, txs: map<nat, Tx>, used: set<Id>, enqueued: set<Id>, cleaned: map<Id, (Time, Time)>)

  datatype Step =
    | Begin(tx: nat, process: nat, kind: Kind)
    | Claim(tx: nat, id: Id, now: Time, started: Time)
    | StoreResult(tx: nat, completed: Time, retain: Time, result: Option<Bytes>, commitError: Option<string>)
    | Insert(tx: nat, id: Id, row: Row)
    | Amend(tx: nat, id: Id, arg: Bytes, startAfter: Time)
    | Sweep(tx: nat, ids: set<Id>)
    | Commit(tx: nat)
    | Abort(tx: nat)
    | Crash(process: nat)

  const EMPTY := Store(map[], map[], {}, {}, map[])

  predicate Locked(s: Store, id: Id) {
    exists t :: t in s.txs && id in s.txs[t].writes
  }

  predicate IsWorkerAt(s: Store, t: nat, at: WorkerPoint) {
    t in s.txs && s.txs[t].kind.Worker? && s.txs[t].kind.at == at
  }

  /** The rows the claim query may see: `started_at is null`, due, not locked by another transaction. */
  predicate Claimable(s: Store, id: Id, queue: string, now: Time) {
    && id in s.rows
    && s.rows[id].queue == queue
    && s.rows[id].startAfter <= now
    && s.rows[id].startedAt == None
    && !Locked(s, id)
  }

  /** `order by start_after ... limit 1`. */
  predicate IsNextClaim(s: Store, id: Id, queue: string, now: Time) {
    && Claimable(s, id, queue, now)
    && forall other ::
      other in s.rows && Claimable(s, other, queue, now) ==> s.rows[id].startAfter <= s.rows[other].startAfter
  }

  /** The row as transaction `t` sees it. */
  function View(s: Store, t: nat, id: Id): Option<Row>
    requires t in s.txs
  {
    if id in s.txs[t].writes then
      if s.txs[t].writes[id].Put? then Some(s.txs[t].writes[id].row) else None
    else if id in s.rows then Some(s.rows[id]) else None
  }

  /** A row an add may debounce onto: pending in its own view, not locked by another transaction. */
  predicate Amendable(s: Store, t: nat, id: Id)
    requires t in s.txs
  {
    && View(s, t, id).Some?
    && View(s, t, id).value.startedAt == None
    && forall other :: other in s.txs && id in s.txs[other].writes ==> other == t
  }

  /** Rows the cleaner may delete: `retain_until <= $1`, skipping locked ones. */
  predicate Sweepable(s: Store, id: Id, now: Time) {
    id in s.rows && s.rows[id].retainUntil.Some? && s.rows[id].retainUntil.value <= now && !Locked(s, id)
  }

  /** WithTx commits only after its callback returned nil, so a worker commits only a stored result. */
  predicate MayCommit(tx: Tx) {
    tx.kind.Worker? ==> tx.kind.at.Stored?
  }

  predicate Enabled(s: Store, step: Step) {
    match step
    case Begin(t, process, kind) => t !in s.txs && (kind.Worker? ==> kind.at == Begun)
    case Claim(t, id, now, started) => IsWorkerAt(s, t, Begun) && IsNextClaim(s, id, s.txs[t].kind.queue, now)
    case StoreResult(t, _, _, _, _) =>
      t in s.txs && s.txs[t].kind.Worker? && s.txs[t].kind.at.Claimed? &&
      s.txs[t].kind.at.id in s.txs[t].writes && s.txs[t].writes[s.txs[t].kind.at.id].Put?
    case Insert(t, id, row) => t in s.txs && s.txs[t].kind == Adder && id !in s.used && row.IsPending()
    case Amend(t, id, arg, startAfter) => t in s.txs && s.txs[t].kind == Adder && Amendable(s, t, id)
    case Sweep(t, ids) =>
      t in s.txs && s.txs[t].kind.Cleaner? && s.txs[t].writes == map[] && |ids| <= 1000 &&
      forall id :: id in ids ==> Sweepable(s, id, s.txs[t].kind.now)
    case Commit(t) => t in s.txs && MayCommit(s.txs[t])
    case Abort(t) => t in s.txs
    case Crash(process) => true
  }

  function Updated(tx: Tx, kind: Kind, id: Id, row: Row): Tx {
    tx.(kind := kind, writes := tx.writes[id := Put(row)])
  }

  /** The table after a commit of `writes`. */
  function Applied(rows: map<Id, Row>, writes: map<Id, Write>): map<Id, Row> {
    map id | id in rows.Keys + writes.Keys && (id in writes ==> writes[id].Put?) ::
      if id in writes then writes[id].row else rows[id]
  }

  /** What the history records about rows deleted by a commit. */
  function Deletions(s: Store, tx: Tx): map<Id, (Time, Time)> {
    map id | id in tx.writes && tx.writes[id] == Remove && id in s.rows && tx.kind.Cleaner? ::
      (if s.rows[id].retainUntil.Some? then s.rows[id].retainUntil.value else tx.kind.now + 1, tx.kind.now)
  }

  function AfterCommit(s: Store, t: nat): Store
    requires t in s.txs
  {
    var tx := s.txs[t];
    s.(rows := Applied(s.rows, tx.writes),
    txs := s.txs - {t},
    enqueued := s.enqueued + Applied(s.rows, tx.writes).Keys,
    cleaned := s.cleaned + Deletions(s, tx))
  }

  function Next(s: Store, step: Step): Store
    requires Enabled(s, step)
  {
    match step
    case Begin(t, process, kind) => s.(txs := s.txs[t := Tx(process, kind, map[])])
    case Claim(t, id, now, started) =>
      s.(txs := s.txs[t := Updated(s.txs[t], s.txs[t].kind.(at := Claimed(id)), id,
                                   s.rows[id].(startedAt := Some(started)))])
    case StoreResult(t, completed, retain, result, commitError) =>
      var id := s.txs[t].kind.at.id;
      s.(txs := s.txs[t := Updated(s.txs[t], s.txs[t].kind.(at := Stored(id)), id,
                                   s.txs[t].writes[id].row.(
                                   result := result, completedAt := Some(completed),
                                   retainUntil := Some(retain), commitError := commitError))])
    case Insert(t, id, row) =>
      s.(txs := s.txs[t := Updated(s.txs[t], Adder, id, row)], used := s.used + {id})
    case Amend(t, id, arg, startAfter) =>
      s.(txs := s.txs[t := Updated(s.txs[t], Adder, id, View(s, t, id).value.(arg := arg, startAfter := startAfter))])
    case Sweep(t, ids) =>
      s.(txs := s.txs[t := s.txs[t].(writes := map id | id in ids :: Remove)])
    case Commit(t) => AfterCommit(s, t)
    case Abort(t) => s.(txs := s.txs - {t})
    case Crash(process) => s.(txs := map t | t in s.txs && s.txs[t].process != process :: s.txs[t])
  }

  /** The store after a run, when its steps are all enabled. */
  function After(steps: seq<Step>): Option<Store> {
    if steps == [] then
      Some(EMPTY)
    else
      match After(steps[..|steps| - 1])
      case Some(s) =>
        if Enabled(s, steps[|steps| - 1]) then Some(Next(s, steps[|steps| - 1])) else None
      case None => None
  }

  // ---------------------------------------------------------------------------------------
  // Invariant

  /** What an open transaction has written, given the committed rows. */
  predicate TxOk(rows: map<Id, Row>, used: set<Id>, enqueued: set<Id>, tx: Tx) {
    match tx.kind
    case Worker(queue, Begun) => tx.writes == map[]
    case Worker(queue, Claimed(id)) =>
      && tx.writes.Keys == {id} && id in rows && rows[id].IsPending() && rows[id].queue == queue
      && tx.writes[id].Put? && tx.writes[id].row.startedAt.Some?
      && tx.writes[id].row == rows[id].(startedAt := tx.writes[id].row.startedAt)
    case Worker(queue, Stored(id)) =>
      && tx.writes.Keys == {id} && id in rows && rows[id].IsPending() && rows[id].queue == queue
      && tx.writes[id].Put? && tx.writes[id].row.IsDone()
      && tx.writes[id].row.arg == rows[id].arg
    case Adder =>
      forall id :: id in tx.writes ==>
        && tx.writes[id].Put? && tx.writes[id].row.IsPending()
        && (if id in rows then rows[id].IsPending() else id in used && id !in enqueued)
    case Cleaner(now) =>
      forall id :: id in tx.writes ==>
        && tx.writes[id] == Remove && id in rows && rows[id].IsDone() && rows[id].retainUntil.value <= now
  }

  predicate LocksDisjoint(s: Store) {
    forall t, u, id :: t in s.txs && u in s.txs && id in s.txs[t].writes && id in s.txs[u].writes ==> t == u
  }

  predicate RowsOk(s: Store) {
    forall id :: id in s.rows ==> s.rows[id].IsPending() || s.rows[id].IsDone()
  }

  predicate HistoryOk(s: Store) {
    && s.enqueued == s.rows.Keys + s.cleaned.Keys
    && s.rows.Keys !! s.cleaned.Keys
    && s.enqueued <= s.used
    && (forall id :: id in s.cleaned ==> s.cleaned[id].0 <= s.cleaned[id].1)
  }

  predicate TxsOk(s: Store) {
    forall t :: t in s.txs ==> TxOk(s.rows, s.used, s.enqueued, s.txs[t])
  }

  predicate Inv(s: Store) {
    RowsOk(s) && HistoryOk(s) && TxsOk(s) && LocksDisjoint(s)
  }

  /** Replacing one transaction by one that is well formed and takes no foreign lock. */
  lemma WriteKeepsInv(s: Store, t: nat, tx: Tx, used: set<Id>)
    requires Inv(s) && t in s.txs && s.used <= used
    requires TxOk(s.rows, used, s.enqueued, tx)
    requires forall id, u :: id in tx.writes && u in s.txs && id in s.txs[u].writes ==> u == t
    ensures Inv(s.(txs := s.txs[t := tx], used := used))
  {
  }

  lemma ClaimKeepsInv(s: Store, step: Step)
    requires Inv(s) && Enabled(s, step) && step.Claim?
    ensures Inv(Next(s, step))
  {
    assert TxOk(s.rows, s.used, s.enqueued, s.txs[step.tx]);
    WriteKeepsInv(s, step.tx, Next(s, step).txs[step.tx], s.used);
  }

  lemma StoreKeepsInv(s: Store, step: Step)
    requires Inv(s) && Enabled(s, step) && step.StoreResult?
    ensures Inv(Next(s, step))
  {
    assert TxOk(s.rows, s.used, s.enqueued, s.txs[step.tx]);
    WriteKeepsInv(s, step.tx, Next(s, step).txs[step.tx], s.used);
  }

  lemma AddKeepsInv(s: Store, step: Step)
    requires Inv(s) && Enabled(s, step) && (step.Insert? || step.Amend?)
    ensures Inv(Next(s, step))
  {
    assert TxOk(s.rows, s.used, s.enqueued, s.txs[step.tx]);
    if step.Insert? {
      InsertedIdIsFree(s, step.id);
      WriteKeepsInv(s, step.tx, Next(s, step).txs[step.tx], s.used + {step.id});
    } else {
      WriteKeepsInv(s, step.tx, Next(s, step).txs[step.tx], s.used);
    }
  }

  lemma StepKeepsInv(s: Store, step: Step)
    requires Inv(s) && Enabled(s, step)
    ensures Inv(Next(s, step))
  {
    match step
    case Claim(_, _, _, _) => ClaimKeepsInv(s, step);
    case StoreResult(_, _, _, _, _) => StoreKeepsInv(s, step);
    case Insert(_, _, _) => AddKeepsInv(s, step);
    case Amend(_, _, _, _) => AddKeepsInv(s, step);
    case Sweep(t, ids) => WriteKeepsInv(s, t, Next(s, step).txs[t], s.used);
    case Commit(t) => CommitKeepsInv(s, t);
    case _ => EndKeepsInv(s, step);
  }

  lemma InsertedIdIsFree(s: Store, id: Id)
    requires Inv(s) && id !in s.used
    ensures id !in s.rows && id !in s.enqueued && !Locked(s, id)
  {
    forall t | t in s.txs
      ensures id !in s.txs[t].writes
    {
      assert TxOk(s.rows, s.used, s.enqueued, s.txs[t]);
    }
  }

  lemma EndKeepsInv(s: Store, step: Step)
    requires Inv(s) && Enabled(s, step)
    requires step.Begin? || step.Abort? || step.Crash?
    ensures Inv(Next(s, step))
  {
  }

  /** A commit leaves the rows that other transactions hold as they were. */
  lemma CommitKeepsOthers(s: Store, t: nat, u: nat)
    requires Inv(s) && t in s.txs && MayCommit(s.txs[t]) && u in s.txs && u != t
    ensures TxOk(AfterCommit(s, t).rows, s.used, AfterCommit(s, t).enqueued, s.txs[u])
  {
    var rows := Applied(s.rows, s.txs[t].writes);
    forall id | id in s.txs[u].writes
      ensures id !in s.txs[t].writes
      ensures id in rows <==> id in s.rows
      ensures id in s.rows ==> rows[id] == s.rows[id]
    {
    }
    assert TxOk(s.rows, s.used, s.enqueued, s.txs[u]);
  }

  lemma CommitKeepsRows(s: Store, t: nat)
    requires Inv(s) && t in s.txs && MayCommit(s.txs[t])
    ensures RowsOk(AfterCommit(s, t)) && HistoryOk(AfterCommit(s, t))
  {
    var after := AfterCommit(s, t);
    assert TxOk(s.rows, s.used, s.enqueued, s.txs[t]);
    assert after.rows.Keys <= s.rows.Keys + s.txs[t].writes.Keys;
    forall id | id in s.rows && id !in after.rows
      ensures id in after.cleaned
    {
      assert s.txs[t].kind.Cleaner?;
    }
    assert after.enqueued == after.rows.Keys + after.cleaned.Keys;
  }

  lemma CommitKeepsInv(s: Store, t: nat)
    requires Inv(s) && t in s.txs && MayCommit(s.txs[t])
    ensures Inv(AfterCommit(s, t))
  {
    CommitKeepsRows(s, t);
    forall u | u in AfterCommit(s, t).txs
      ensures TxOk(AfterCommit(s, t).rows, s.used, AfterCommit(s, t).enqueued, s.txs[u])
    {
      CommitKeepsOthers(s, t, u);
    }
  }

  lemma {:induction false} InvAlways(steps: seq<Step>, s: Store)
    requires After(steps) == Some(s)
    ensures Inv(s)
  {
    if steps != [] {
      var before := After(steps[..|steps| - 1]).value;
      InvAlways(steps[..|steps| - 1], before);
      StepKeepsInv(before, steps[|steps| - 1]);
    }
  }

  // ---------------------------------------------------------------------------------------
  // Main results

  datatype Phase = Unknown | Pending | Running(tx: nat) | Completed | Cleaned

  predicate InPhase(s: Store, id: Id, phase: Phase) {
    match phase
    case Unknown => id !in s.enqueued
    case Pending => id in s.rows && s.rows[id].IsPending() && !HeldByWorker(s, id)
    case Running(t) => id in s.rows && s.rows[id].IsPending() && HeldBy(s, id, t)
    case Completed => id in s.rows && s.rows[id].IsDone()
    case Cleaned => id !in s.rows && id in s.cleaned && s.cleaned[id].0 <= s.cleaned[id].1
  }

  predicate HeldBy(s: Store, id: Id, t: nat) {
    t in s.txs && s.txs[t].kind.Worker? && id in s.txs[t].writes
  }

  predicate HeldByWorker(s: Store, id: Id) {
    exists t :: t in s.txs && HeldBy(s, id, t)
  }

  /** A worker that holds a row has claimed it, so the committed row is pending. */
  lemma HeldIsPending(s: Store, id: Id, t: nat)
    requires Inv(s) && HeldBy(s, id, t)
    ensures id in s.rows && s.rows[id].IsPending()
    ensures s.txs[t].kind.at == Claimed(id) || s.txs[t].kind.at == Stored(id)
  {
    assert TxOk(s.rows, s.used, s.enqueued, s.txs[t]);
  }

  /**
   Exclusive, atomic execution and conservation: in every reachable state every row is in
   exactly one phase, and no committed row is half executed.
   */
  lemma {:induction false} ExactlyOnePhase(steps: seq<Step>, s: Store, id: Id) returns (phase: Phase)
    requires After(steps) == Some(s)
    ensures InPhase(s, id, phase)
    ensures forall other :: InPhase(s, id, other) ==> other == phase
    ensures id in s.rows ==> (s.rows[id].startedAt.Some? <==> s.rows[id].completedAt.Some?)
  {
    InvAlways(steps, s);
    if id !in s.enqueued {
      phase := Unknown;
    } else if id !in s.rows {
      phase := Cleaned;
    } else if s.rows[id].IsDone() {
      phase := Completed;
    } else if HeldByWorker(s, id) {
      var t :| t in s.txs && HeldBy(s, id, t);
      phase := Running(t);
    } else {
      phase := Pending;
    }
    forall t | HeldBy(s, id, t)
      ensures phase == Running(t)
    {
      HeldIsPending(s, id, t);
    }
  }

  /** The step that takes a row from one phase to another. */
  predicate Allowed(s: Store, step: Step, id: Id, from: Phase, to: Phase) {
    match (from, to)
    case (Unknown, Pending) => step.Commit? && step.tx in s.txs && s.txs[step.tx].kind == Adder
    case (Pending, Running(t)) => step.Claim? && step.tx == t && step.id == id
    case (Running(t), Pending) =>
      step == Abort(t) || (step.Crash? && t in s.txs && s.txs[t].process == step.process)
    case (Running(t), Completed) => step == Commit(t) && IsWorkerAt(s, t, Stored(id))
    case (Completed, Cleaned) =>
      step.Commit? && step.tx in s.txs && s.txs[step.tx].kind.Cleaner? && Expired(s, id, s.txs[step.tx].kind.now)
    case _ => from == to
  }

  /** `retain_until` has passed at `now`. */
  predicate Expired(s: Store, id: Id, now: Time) {
    id in s.rows && s.rows[id].retainUntil.Some? && s.rows[id].retainUntil.value <= now
  }

  lemma HolderAfter(s: Store, step: Step, id: Id, t: nat)
    requires Inv(s) && Enabled(s, step) && Inv(Next(s, step)) && HeldBy(Next(s, step), id, t)
    ensures HeldBy(s, id, t) || (step.Claim? && step.tx == t && step.id == id && id in s.rows && !Locked(s, id))
  {
    if step.Claim? && step.tx == t {
      assert TxOk(s.rows, s.used, s.enqueued, s.txs[t]);
    }
  }

  lemma HolderBefore(s: Store, step: Step, id: Id, t: nat)
    requires Inv(s) && Enabled(s, step) && HeldBy(s, id, t)
    ensures HeldBy(Next(s, step), id, t) || step == Commit(t) || step == Abort(t) ||
      (step.Crash? && s.txs[t].process == step.process)
  {
  }

  /** The committed rows that a step changes are those written by the transaction it commits. */
  lemma OnlyCommitsChangeRows(s: Store, step: Step, id: Id)
    requires Inv(s) && Enabled(s, step)
    requires step.Commit? ==> id !in s.txs[step.tx].writes
    ensures id in Next(s, step).rows <==> id in s.rows
    ensures id in s.rows ==> Next(s, step).rows[id] == s.rows[id]
    ensures id in Next(s, step).enqueued <==> id in s.enqueued
  {
  }

  lemma PhaseAfterOwnCommit(s: Store, t: nat, id: Id, from: Phase, to: Phase)
    requires Inv(s) && t in s.txs && MayCommit(s.txs[t]) && id in s.txs[t].writes
    requires Inv(AfterCommit(s, t))
    requires InPhase(s, id, from) && InPhase(AfterCommit(s, t), id, to)
    ensures Allowed(s, Commit(t), id, from, to)
    ensures from.Completed? ==> to == Cleaned
  {
    assert TxOk(s.rows, s.used, s.enqueued, s.txs[t]);
    if to.Running? {
      HolderAfter(s, Commit(t), id, to.tx);
    }
  }

  /**
   How rows move: only a claim starts a row, only the commit of a stored result completes it,
   an abort or a crash of its holder returns it to pending, and only an expired completed row
   is cleaned. A completed row is never written again, nor is a row while a worker holds it.
   */
  lemma {:induction false} PhaseSteps(steps: seq<Step>, s: Store, step: Step, id: Id, from: Phase, to: Phase)
    requires After(steps) == Some(s) && Enabled(s, step)
    requires InPhase(s, id, from) && InPhase(Next(s, step), id, to)
    ensures Allowed(s, step, id, from, to)
    ensures from.Completed? && to.Completed? ==> Next(s, step).rows[id] == s.rows[id]
    ensures from.Running? && to.Running? ==> Next(s, step).rows[id] == s.rows[id]
    ensures from.Running? && to.Pending? ==> Next(s, step).rows[id] == s.rows[id]
  {
    InvAlways(steps, s);
    StepKeepsInv(s, step);
    if step.Commit? && id in s.txs[step.tx].writes {
      PhaseAfterOwnCommit(s, step.tx, id, from, to);
    } else {
      OnlyCommitsChangeRows(s, step, id);
      PhaseWithoutCommit(s, step, id, from, to);
    }
  }

  lemma PhaseWithoutCommit(s: Store, step: Step, id: Id, from: Phase, to: Phase)
    requires Inv(s) && Enabled(s, step) && Inv(Next(s, step))
    requires step.Commit? ==> id !in s.txs[step.tx].writes
    requires id in Next(s, step).rows <==> id in s.rows
    requires id in s.rows ==> Next(s, step).rows[id] == s.rows[id]
    requires id in Next(s, step).enqueued <==> id in s.enqueued
    requires InPhase(s, id, from) && InPhase(Next(s, step), id, to)
    ensures Allowed(s, step, id, from, to)
  {
    if to.Running? {
      HolderAfter(s, step, id, to.tx);
    }
    if from.Running? {
      HolderBefore(s, step, id, from.tx);
    }
  }

  /** The holder's abort or crash always returns the row to pending, exactly as it was claimed. */
  lemma {:induction false} RollbackReturnsTheRow(steps: seq<Step>, s: Store, step: Step, id: Id, t: nat)
    requires After(steps) == Some(s) && InPhase(s, id, Running(t))
    requires step == Abort(t) || step == Crash(s.txs[t].process)
    ensures Enabled(s, step) && InPhase(Next(s, step), id, Pending) && Next(s, step).rows[id] == s.rows[id]
  {
    InvAlways(steps, s);
  }

  /** A claim finds a row exactly when one is claimable, and then the earliest. */
  lemma ClaimFindsTheEarliest(s: Store, queue: string, now: Time)
    ensures (exists id :: IsNextClaim(s, id, queue, now)) <==> (exists id :: Claimable(s, id, queue, now))
  {
    if id :| Claimable(s, id, queue, now) {
      var ids := set x | x in s.rows && Claimable(s, x, queue, now);
      assert id in ids;
      var next := Earliest(s, ids);
      assert IsNextClaim(s, next, queue, now);
    }
  }

  lemma {:induction false} Earliest(s: Store, ids: set<Id>) returns (next: Id)
    requires ids != {} && ids <= s.rows.Keys
    ensures next in ids && forall other :: other in ids ==> s.rows[next].startAfter <= s.rows[other].startAfter
    decreases ids
  {
    next :| next in ids;
    if ids != {next} {
      var rest := Earliest(s, ids - {next});
      if s.rows[rest].startAfter < s.rows[next].startAfter {
        next := rest;
      }
    }
  }

  /** The commits that store a result for `id`. */
  function Completions(steps: seq<Step>, id: Id): nat {
    if steps == [] then
      0
    else
      var last := steps[|steps| - 1];
      var s := After(steps[..|steps| - 1]);
      Completions(steps[..|steps| - 1], id) +
      (if s.Some? && last.Commit? && IsWorkerAt(s.value, last.tx, Stored(id)) then 1 else 0)
  }

  /** A result is committed exactly once for a completed or cleaned row, and never for another. */
  lemma {:induction false} ResultIsWrittenOnce(steps: seq<Step>, s: Store, id: Id)
    requires After(steps) == Some(s)
    ensures Completions(steps, id) ==
      if InPhase(s, id, Completed) || InPhase(s, id, Cleaned) then 1 else 0
  {
    if steps != [] {
      var init, step := steps[..|steps| - 1], steps[|steps| - 1];
      var before := After(init).value;
      ResultIsWrittenOnce(init, before, id);
      var from := ExactlyOnePhase(init, before, id);
      var to := ExactlyOnePhase(steps, s, id);
      PhaseSteps(init, before, step, id, from, to);
      if step.Commit? && IsWorkerAt(before, step.tx, Stored(id)) {
        InvAlways(init, before);
        assert TxOk(before.rows, before.used, before.enqueued, before.txs[step.tx]);
        assert HeldBy(before, id, step.tx);
        assert from == Running(step.tx);
        assert s.rows[id].IsDone();
      }
    }
  }

  /** Once completed, a row is the same row for ever, until it is cleaned. */
  lemma {:induction false} CompletedIsFinal(steps: seq<Step>, more: seq<Step>, s: Store, t: Store, id: Id)
    requires After(steps) == Some(s) && After(steps + more) == Some(t)
    requires InPhase(s, id, Completed) || InPhase(s, id, Cleaned)
    ensures
      || InPhase(t, id, Cleaned)
      || (InPhase(s, id, Completed) && InPhase(t, id, Completed) && t.rows[id] == s.rows[id])
  {
    if more == [] {
      assert steps + more == steps;
    } else {
      var init := steps + more[..|more| - 1];
      assert (steps + more)[..|steps + more| - 1] == init;
      var before := After(init).value;
      CompletedIsFinal(steps, more[..|more| - 1], s, before, id);
      var from := ExactlyOnePhase(init, before, id);
      var to := ExactlyOnePhase(steps + more, t, id);
      PhaseSteps(init, before, more[|more| - 1], id, from, to);
    }
  }

  /** The worker runs with the argument of the committed row, which cannot change under it. */
  lemma {:induction false} ClaimedArgIsCommitted(steps: seq<Step>, s: Store, id: Id, t: nat)
    requires After(steps) == Some(s) && HeldBy(s, id, t)
    ensures s.txs[t].writes.Keys == {id} && s.txs[t].writes[id].Put?
    ensures id in s.rows && s.txs[t].writes[id].row.arg == s.rows[id].arg
    ensures forall u :: u in s.txs && u != t ==> id !in s.txs[u].writes
  {
    InvAlways(steps, s);
    assert TxOk(s.rows, s.used, s.enqueued, s.txs[t]);
  }
}
