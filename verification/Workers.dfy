/**
 The goroutines of one process at work on the table: each job goroutine of the dispatcher runs
 one outer transaction of the store, while any transactions of other processes, adders and
 cleaners interleave. The run of a process ends with its death.
 */
module Workers {
  import opened Basics
  import opened Counting
  import Dispatcher
  import JobStore

  type Id = JobStore.Id
  type Time = JobStore.Time
  type QueueName = Dispatcher.QueueName

  /** The number of the process whose dispatcher this is. */
  const HERE: nat := 0

  /**
   `outer` are the open outer transactions of the goroutines. `looked` says of a goroutine that
   its claim query found nothing at a time, or failed (None).
   */
  datatype State = State(
    dispatcher: Dispatcher.State, store: JobStore.Store, outer: map<nat, nat>, looked: map<nat, Option<Time>>)

  datatype Step =
    | Dispatch(step: Dispatcher.Step)
    | Elsewhere(stored: JobStore.Step)         // of any other transaction
    | BeginOuter(job: nat, tx: nat)
    | Claim(job: nat, id: Id, now: Time, started: Time)
    | FindNothing(job: nat, now: Time)         // the claim query returns no row
    | Fail(job: nat)                           // the begin or the claim fails
    | StoreResult(job: nat, completed: Time, retain: Time, result: Option<JobStore.Bytes>, commitError: Option<string>)
    | Close(job: nat, commit: bool)            // commit or rollback, by the database too

  const START := State(Dispatcher.START, JobStore.EMPTY, map[], map[])

  predicate JobIs(s: State, j: nat, at: Dispatcher.JobPoint) {
    j < |s.dispatcher.jobs| && s.dispatcher.jobs[j].at == at
  }

  /** A goroutine leaves startWork only with its transaction closed, and after its query or a failure. */
  predicate MayMove(s: State, j: nat, move: Dispatcher.Move) {
    match move
    case Claims => false
    case FindsNothing => j in s.looked && j !in s.outer
    case Finishes => j !in s.outer
    case Panics => j !in s.outer
    case _ => true
  }

  predicate CanDispatch(s: State, step: Dispatcher.Step) {
    Dispatcher.WellFormed(s.dispatcher) && Dispatcher.Enabled(s.dispatcher, step)
  }

  predicate IsElsewhere(s: State, step: JobStore.Step) {
    match step
    case Begin(_, process, kind) => !(kind.Worker? && process == HERE)
    case Crash(process) => process != HERE
    case Claim(t, _, _, _) => t !in s.outer.Values
    case StoreResult(t, _, _, _, _) => t !in s.outer.Values
    case Insert(t, _, _) => t !in s.outer.Values
    case Amend(t, _, _, _) => t !in s.outer.Values
    case Sweep(t, _) => t !in s.outer.Values
    case Commit(t) => t !in s.outer.Values
    case Abort(t) => t !in s.outer.Values
  }

  /** The dispatcher's step inside a step, and the table's. */
  function Inner(step: Step): Option<Dispatcher.Step> {
    match step
    case Dispatch(inner) => Some(inner)
    case Claim(j, _, _, _) => Some(Dispatcher.Advance(j, Dispatcher.Claims))
    case _ => None
  }

  function QueueOf(s: State, j: nat): QueueName
    requires Dispatcher.WellFormed(s.dispatcher) && j < |s.dispatcher.jobs|
  {
    Dispatcher.QueueOf(s.dispatcher, s.dispatcher.jobs[j])
  }

  function Stored(s: State, step: Step): Option<JobStore.Step>
    requires Dispatcher.WellFormed(s.dispatcher)
  {
    match step
    case Elsewhere(inner) => Some(inner)
    case BeginOuter(j, tx) =>
      if j < |s.dispatcher.jobs| then
        Some(JobStore.Begin(tx, HERE, JobStore.Worker(QueueOf(s, j), JobStore.Begun)))
      else None
    case Claim(j, id, now, started) =>
      if j in s.outer then Some(JobStore.Claim(s.outer[j], id, now, started)) else None
    case StoreResult(j, completed, retain, result, commitError) =>
      if j in s.outer then Some(JobStore.StoreResult(s.outer[j], completed, retain, result, commitError)) else None
    case Close(j, commit) =>
      if j !in s.outer then None
      else Some(if commit then JobStore.Commit(s.outer[j]) else JobStore.Abort(s.outer[j]))
    case _ => None
  }

  predicate NothingClaimable(store: JobStore.Store, queue: QueueName, now: Time) {
    forall id :: id in store.rows ==> !JobStore.Claimable(store, id, queue, now)
  }

  predicate Enabled(s: State, step: Step) {
    && Dispatcher.WellFormed(s.dispatcher)
    && (Inner(step).Some? ==> CanDispatch(s, Inner(step).value))
    && (Stored(s, step).Some? ==> JobStore.Enabled(s.store, Stored(s, step).value))
    && match step
       case Dispatch(inner) => inner.Advance? ==> MayMove(s, inner.job, inner.move)
       case Elsewhere(inner) => IsElsewhere(s, inner)
       case BeginOuter(j, _) => JobIs(s, j, Dispatcher.Starting) && j !in s.outer && j !in s.looked
       case Claim(j, _, _, _) => j in s.outer && j !in s.looked
       case FindNothing(j, now) =>
         && JobIs(s, j, Dispatcher.Starting) && j in s.outer && j !in s.looked
         && JobStore.IsWorkerAt(s.store, s.outer[j], JobStore.Begun)
         && NothingClaimable(s.store, QueueOf(s, j), now)
       case Fail(j) => JobIs(s, j, Dispatcher.Starting) && j !in s.looked
       case StoreResult(j, _, _, _, _) => JobIs(s, j, Dispatcher.Running) && j in s.outer
       case Close(j, _) => j in s.outer
  }

  function Next(s: State, step: Step): State
    requires Enabled(s, step)
  {
    var d := if Inner(step).Some? then Dispatcher.Next(s.dispatcher, Inner(step).value) else s.dispatcher;
    var store := if Stored(s, step).Some? then JobStore.Next(s.store, Stored(s, step).value) else s.store;
    State(d, store, NextOuter(s, step), NextLooked(s, step))
  }

  function NextOuter(s: State, step: Step): map<nat, nat> {
    match step
    case BeginOuter(j, tx) => s.outer[j := tx]
    case Close(j, _) => s.outer - {j}
    case _ => s.outer
  }

  function NextLooked(s: State, step: Step): map<nat, Option<Time>> {
    match step
    case FindNothing(j, now) => s.looked[j := Some(now)]
    case Fail(j) => s.looked[j := None]
    case Close(j, _) => if JobIs(s, j, Dispatcher.Starting) && j !in s.looked then s.looked[j := None] else s.looked
    case _ => s.looked
  }

  /** The state after a run, when its steps are all enabled. */
  function After(steps: seq<Step>): Option<State> {
    if steps == [] then
      Some(START)
    else
      match After(steps[..|steps| - 1])
      case Some(s) => if Enabled(s, steps[|steps| - 1]) then Some(Next(s, steps[|steps| - 1])) else None
      case None => None
  }

  // ---------------------------------------------------------------------------------------
  // Runs of the parts

  lemma {:induction false} RunIsADispatcherRun(steps: seq<Step>, s: State) returns (inner: seq<Dispatcher.Step>)
    requires After(steps) == Some(s)
    ensures Dispatcher.After(inner) == Some(s.dispatcher)
  {
    if steps == [] {
      inner := [];
    } else {
      var before, step := After(steps[..|steps| - 1]).value, steps[|steps| - 1];
      inner := RunIsADispatcherRun(steps[..|steps| - 1], before);
      if Inner(step).Some? {
        var d;
        inner, d := Dispatcher.Extend(inner, before.dispatcher, Inner(step).value);
      }
    }
  }

  lemma {:induction false} ExtendStore(steps: seq<JobStore.Step>, s: JobStore.Store, step: JobStore.Step)
      returns (longer: seq<JobStore.Step>)
    requires JobStore.After(steps) == Some(s) && JobStore.Enabled(s, step)
    ensures JobStore.After(longer) == Some(JobStore.Next(s, step))
  {
    longer := steps + [step];
    assert longer[..|longer| - 1] == steps;
  }

  lemma {:induction false} RunIsAStoreRun(steps: seq<Step>, s: State) returns (stored: seq<JobStore.Step>)
    requires After(steps) == Some(s)
    ensures JobStore.After(stored) == Some(s.store)
  {
    if steps == [] {
      stored := [];
    } else {
      var before, step := After(steps[..|steps| - 1]).value, steps[|steps| - 1];
      stored := RunIsAStoreRun(steps[..|steps| - 1], before);
      if Stored(before, step).Some? {
        stored := ExtendStore(stored, before.store, Stored(before, step).value);
      }
    }
  }

  // ---------------------------------------------------------------------------------------
  // Goroutines and their transactions

  /** A goroutine inside the callback of its outer transaction. */
  predicate IsInside(at: Dispatcher.JobPoint) {
    at == Dispatcher.Starting || at == Dispatcher.Claimed || at == Dispatcher.Running
  }

  /** The transaction is that of a worker of this process. */
  predicate IsOwn(tx: JobStore.Tx) {
    tx.process == HERE && tx.kind.Worker?
  }

  /** An open outer transaction belongs to a goroutine inside it, and has claimed only when the goroutine knows. */
  predicate OuterOk(d: Dispatcher.State, store: JobStore.Store, j: nat, t: nat)
    requires Dispatcher.WellFormed(d)
  {
    && j < |d.jobs| && t in store.txs && IsOwn(store.txs[t])
    && store.txs[t].kind.queue == Dispatcher.QueueOf(d, d.jobs[j])
    && IsInside(d.jobs[j].at)
    && (store.txs[t].kind.at == JobStore.Begun <==> d.jobs[j].at == Dispatcher.Starting)
  }

  predicate Inv(s: State) {
    && Dispatcher.WellFormed(s.dispatcher)
    && (forall j :: j in s.outer ==> OuterOk(s.dispatcher, s.store, j, s.outer[j]))
    && (forall i, j :: i in s.outer && j in s.outer && s.outer[i] == s.outer[j] ==> i == j)
    && (forall t :: t in s.store.txs && IsOwn(s.store.txs[t]) ==> t in s.outer.Values)
  }

  /** A step of the dispatcher keeps the queues of its goroutines, and the points of all but the one that moves. */
  lemma JobsKept(d: Dispatcher.State, step: Dispatcher.Step)
    requires Dispatcher.WellFormed(d) && Dispatcher.Enabled(d, step)
    ensures Dispatcher.WellFormed(Dispatcher.Next(d, step))
    ensures var e := Dispatcher.Next(d, step);
      |d.jobs| <= |e.jobs| &&
      forall j {:trigger e.jobs[j]} :: 0 <= j < |d.jobs| ==>
        && Dispatcher.QueueOf(e, e.jobs[j]) == Dispatcher.QueueOf(d, d.jobs[j])
        && (!(step.Advance? && step.job == j) ==> e.jobs[j].at == d.jobs[j].at)
    ensures step.Advance? ==>
      Dispatcher.Next(d, step).jobs[step.job].at == Dispatcher.Moved(d.jobs[step.job], step.move).at
  {
    Dispatcher.WellFormedKept(d, step);
  }

  /** A move that keeps a goroutine inside its transaction, or takes it out. */
  lemma MoveKeepsPoint(job: Dispatcher.Job, move: Dispatcher.Move)
    requires Dispatcher.CanMove(job, move) && IsInside(job.at)
    requires !move.FindsNothing? && !move.Finishes? && !move.Panics?
    ensures IsInside(Dispatcher.Moved(job, move).at)
    ensures Dispatcher.Moved(job, move).at != Dispatcher.Starting
    ensures job.at == Dispatcher.Starting ==> move.Claims?
  {
  }

  lemma DispatchKeepsOuter(d: Dispatcher.State, step: Dispatcher.Step, store: JobStore.Store, j: nat, t: nat)
    requires Dispatcher.WellFormed(d) && Dispatcher.Enabled(d, step) && OuterOk(d, store, j, t)
    requires step.Advance? && step.job == j ==>
      !step.move.Claims? && !step.move.FindsNothing? && !step.move.Finishes? && !step.move.Panics?
    ensures Dispatcher.WellFormed(Dispatcher.Next(d, step)) && OuterOk(Dispatcher.Next(d, step), store, j, t)
  {
    JobsKept(d, step);
    var e := Dispatcher.Next(d, step);
    assert Dispatcher.QueueOf(e, e.jobs[j]) == Dispatcher.QueueOf(d, d.jobs[j]);
    if step.Advance? && step.job == j {
      MoveKeepsPoint(d.jobs[j], step.move);
    }
  }

  lemma DispatchKeepsInv(s: State, step: Step)
    requires Inv(s) && Enabled(s, step) && step.Dispatch?
    ensures Inv(Next(s, step))
  {
    var t := Next(s, step);
    JobsKept(s.dispatcher, step.step);
    forall j | j in t.outer
      ensures OuterOk(t.dispatcher, t.store, j, t.outer[j])
    {
      DispatchKeepsOuter(s.dispatcher, step.step, s.store, j, s.outer[j]);
    }
  }

  /** Steps of other transactions leave a transaction of a goroutine alone, and open none. */
  lemma ElsewhereKeepsOwn(s: State, inner: JobStore.Step)
    requires IsElsewhere(s, inner) && JobStore.Enabled(s.store, inner)
    requires forall t :: t in s.outer.Values ==> t in s.store.txs && IsOwn(s.store.txs[t])
    requires forall t :: t in s.store.txs && IsOwn(s.store.txs[t]) ==> t in s.outer.Values
    ensures var after := JobStore.Next(s.store, inner);
      && (forall t :: t in s.outer.Values ==> t in after.txs && after.txs[t] == s.store.txs[t])
      && (forall t :: t in after.txs && IsOwn(after.txs[t]) ==> t in s.outer.Values)
  {
  }

  lemma ElsewhereKeepsInv(s: State, step: Step)
    requires Inv(s) && Enabled(s, step) && step.Elsewhere?
    ensures Inv(Next(s, step))
  {
    forall t | t in s.outer.Values
      ensures t in s.store.txs && IsOwn(s.store.txs[t])
    {
      var j :| j in s.outer && s.outer[j] == t;
    }
    ElsewhereKeepsOwn(s, step.stored);
    var t := Next(s, step);
    forall j | j in t.outer
      ensures OuterOk(t.dispatcher, t.store, j, t.outer[j])
    {
      assert s.outer[j] in s.outer.Values;
    }
  }

  lemma BeginEffect(s: State, step: Step)
    requires Enabled(s, step) && step.BeginOuter?
    ensures step.tx !in s.store.txs && step.job < |s.dispatcher.jobs|
    ensures Next(s, step).dispatcher == s.dispatcher && Next(s, step).outer == s.outer[step.job := step.tx]
    ensures Next(s, step).store.txs ==
      s.store.txs[step.tx := JobStore.Tx(HERE, JobStore.Worker(QueueOf(s, step.job), JobStore.Begun), map[])]
  {
  }

  /** A new transaction under a number that was free does not touch the others. */
  lemma OthersUnderBegin(s: State, step: Step, j: nat)
    requires Inv(s) && Enabled(s, step) && step.BeginOuter? && j in s.outer
    ensures j != step.job && s.outer[j] != step.tx
    ensures OuterOk(s.dispatcher, Next(s, step).store, j, s.outer[j])
  {
    BeginEffect(s, step);
    assert OuterOk(s.dispatcher, s.store, j, s.outer[j]);
  }

  lemma BeginKeepsOwners(s: State, step: Step, u: nat)
    requires Inv(s) && Enabled(s, step) && step.BeginOuter?
    requires u in Next(s, step).store.txs && IsOwn(Next(s, step).store.txs[u])
    ensures u in Next(s, step).outer.Values
  {
    var t := Next(s, step);
    BeginEffect(s, step);
    if u == step.tx {
      assert t.outer[step.job] == u;
    } else {
      var j :| j in s.outer && s.outer[j] == u;
      assert j != step.job && t.outer[j] == u;
    }
  }

  lemma BeginKeepsInv(s: State, step: Step)
    requires Inv(s) && Enabled(s, step) && step.BeginOuter?
    ensures Inv(Next(s, step))
  {
    var t := Next(s, step);
    BeginEffect(s, step);
    forall j | j in s.outer
      ensures j != step.job && s.outer[j] != step.tx && OuterOk(t.dispatcher, t.store, j, s.outer[j])
    {
      OthersUnderBegin(s, step, j);
    }
    forall u | u in t.store.txs && IsOwn(t.store.txs[u])
      ensures u in t.outer.Values
    {
      BeginKeepsOwners(s, step, u);
    }
  }

  lemma CloseEffect(s: State, step: Step)
    requires Enabled(s, step) && step.Close?
    ensures Next(s, step).dispatcher == s.dispatcher && Next(s, step).outer == s.outer - {step.job}
    ensures Next(s, step).store.txs == s.store.txs - {s.outer[step.job]}
  {
  }

  lemma CloseKeepsInv(s: State, step: Step)
    requires Inv(s) && Enabled(s, step) && step.Close?
    ensures Inv(Next(s, step))
  {
    var t := Next(s, step);
    CloseEffect(s, step);
    forall j | j in t.outer
      ensures OuterOk(t.dispatcher, t.store, j, t.outer[j])
    {
      assert OuterOk(s.dispatcher, s.store, j, s.outer[j]);
    }
    forall u | u in t.store.txs && IsOwn(t.store.txs[u])
      ensures u in t.outer.Values
    {
      var j :| j in s.outer && s.outer[j] == u;
      assert t.outer[j] == u;
    }
  }

  lemma ResultKeepsInv(s: State, step: Step)
    requires Inv(s) && Enabled(s, step) && (step.StoreResult? || step.FindNothing? || step.Fail?)
    ensures Inv(Next(s, step))
  {
    var t := Next(s, step);
    forall j | j in t.outer
      ensures OuterOk(t.dispatcher, t.store, j, t.outer[j])
    {
      assert OuterOk(s.dispatcher, s.store, j, s.outer[j]);
    }
  }

  lemma ClaimKeepsInv(s: State, step: Step)
    requires Inv(s) && Enabled(s, step) && step.Claim?
    ensures Inv(Next(s, step))
  {
    var t := Next(s, step);
    var inner := Dispatcher.Advance(step.job, Dispatcher.Claims);
    JobsKept(s.dispatcher, inner);
    forall j | j in t.outer
      ensures OuterOk(t.dispatcher, t.store, j, t.outer[j])
    {
      assert OuterOk(s.dispatcher, s.store, j, s.outer[j]);
      assert QueueOf(t, j) == QueueOf(s, j);
    }
  }

  lemma {:induction false} InvAlways(steps: seq<Step>, s: State)
    requires After(steps) == Some(s)
    ensures Inv(s)
  {
    if steps != [] {
      var before, step := After(steps[..|steps| - 1]).value, steps[|steps| - 1];
      InvAlways(steps[..|steps| - 1], before);
      match step
      case Dispatch(_) => DispatchKeepsInv(before, step);
      case Elsewhere(_) => ElsewhereKeepsInv(before, step);
      case BeginOuter(_, _) => BeginKeepsInv(before, step);
      case Claim(_, _, _, _) => ClaimKeepsInv(before, step);
      case Close(_, _) => CloseKeepsInv(before, step);
      case _ => ResultKeepsInv(before, step);
    }
  }

  // ---------------------------------------------------------------------------------------
  // Slots bound the rows in progress

  lemma {:induction false} ImageAtMost(js: set<nat>, f: nat -> Id)
    ensures |set j | j in js :: f(j)| <= |js|
    decreases js
  {
    var image := set j | j in js :: f(j);
    if js != {} {
      var j :| j in js;
      var fewer := set k | k in js - {j} :: f(k);
      ImageAtMost(js - {j}, f);
      assert image == fewer + {f(j)};
    }
  }

  /** A set of places with a positive weight is no larger than the sum of the weights. */
  lemma {:induction false} PlacesAtMostTotal<T>(xs: seq<T>, w: T -> nat, js: set<nat>)
    requires forall j :: j in js ==> j < |xs| && w(xs[j]) >= 1
    ensures |js| <= Total(xs, w)
  {
    if xs == [] {
      assert js == {};
    } else {
      var n := |xs| - 1;
      PlacesAtMostTotal(xs[..n], w, js - {n});
      TotalAppend(xs[..n], xs[n], w);
      assert xs[..n] + [xs[n]] == xs;
      assert n in js ==> |js| == |js - {n}| + 1;
      assert n !in js ==> js - {n} == js;
    }
  }

  /** The goroutines of the i-th `WorkerInfo` whose transaction has claimed a row. */
  function JobsInProgress(s: State, i: nat): set<nat> {
    set j | j in s.outer && j < |s.dispatcher.jobs| && s.dispatcher.jobs[j].info == i
            && s.outer[j] in s.store.txs && s.store.txs[s.outer[j]].kind.Worker?
            && s.store.txs[s.outer[j]].kind.at != JobStore.Begun
  }

  function RowOf(s: State, j: nat): Id {
    if j in s.outer && s.outer[j] in s.store.txs && s.store.txs[s.outer[j]].kind.Worker?
       && s.store.txs[s.outer[j]].kind.at != JobStore.Begun
    then s.store.txs[s.outer[j]].kind.at.id else 0
  }

  /** The rows of the table that they are working on. */
  function RowsInProgress(s: State, i: nat): set<Id> {
    set j | j in JobsInProgress(s, i) :: RowOf(s, j)
  }

  lemma RowsAtMostJobs(s: State, i: nat)
    ensures |RowsInProgress(s, i)| <= |JobsInProgress(s, i)|
  {
    var f: nat -> Id := j => RowOf(s, j);
    ImageAtMost(JobsInProgress(s, i), f);
    assert RowsInProgress(s, i) == set j | j in JobsInProgress(s, i) :: f(j);
  }

  lemma JobsHoldSlots(s: State, i: nat)
    requires Inv(s)
    ensures |JobsInProgress(s, i)| <= Dispatcher.Slots(s.dispatcher, i)
  {
    forall j | j in JobsInProgress(s, i)
      ensures j < |s.dispatcher.jobs| && Dispatcher.SlotOf(i)(s.dispatcher.jobs[j]) >= 1
    {
      assert OuterOk(s.dispatcher, s.store, j, s.outer[j]);
    }
    PlacesAtMostTotal(s.dispatcher.jobs, Dispatcher.SlotOf(i), JobsInProgress(s, i));
  }

  /**
   In every interleaving with other processes, this process works for a `WorkerInfo` on no more
   rows of the table than it has slots taken, and so on no more than its limit.
   */
  lemma {:induction false} RowsInProgressAreBounded(steps: seq<Step>, s: State, i: nat)
    requires After(steps) == Some(s) && i < |s.dispatcher.infos|
    ensures |RowsInProgress(s, i)| <= s.dispatcher.infos[i].nActive
    ensures s.dispatcher.infos[i].limit >= 0 ==> |RowsInProgress(s, i)| <= s.dispatcher.infos[i].limit
    ensures s.dispatcher.infos[i].limit < 0 ==> RowsInProgress(s, i) == {}
  {
    InvAlways(steps, s);
    var inner := RunIsADispatcherRun(steps, s);
    Dispatcher.SlotAccounting(inner, s.dispatcher);
    RowsAtMostJobs(s, i);
    JobsHoldSlots(s, i);
    assert s.dispatcher.infos[i].nActive == Dispatcher.Slots(s.dispatcher, i);
  }

  /** A row that a goroutine's transaction holds is a row in progress. */
  lemma HeldIsInProgress(s: State, id: Id, j: nat)
    requires Inv(s) && JobStore.Inv(s.store) && j in s.outer && JobStore.HeldBy(s.store, id, s.outer[j])
    ensures j < |s.dispatcher.jobs| && j in JobsInProgress(s, s.dispatcher.jobs[j].info) && RowOf(s, j) == id
    ensures id in s.store.rows && s.store.rows[id].queue == QueueOf(s, j)
  {
    var t := s.outer[j];
    JobStore.HeldIsPending(s.store, id, t);
    assert OuterOk(s.dispatcher, s.store, j, t);
    assert JobStore.TxOk(s.store.rows, s.store.used, s.store.enqueued, s.store.txs[t]);
  }

  /** And these are all rows that a worker of this process holds, each for a `WorkerInfo` of its queue. */
  lemma {:induction false} RowsAreAccountedFor(steps: seq<Step>, s: State, id: Id, t: nat) returns (i: nat)
    requires After(steps) == Some(s) && JobStore.HeldBy(s.store, id, t) && s.store.txs[t].process == HERE
    ensures i < |s.dispatcher.infos| && id in RowsInProgress(s, i)
    ensures id in s.store.rows && s.dispatcher.infos[i].queue == s.store.rows[id].queue
  {
    InvAlways(steps, s);
    var stored := RunIsAStoreRun(steps, s);
    JobStore.InvAlways(stored, s.store);
    assert IsOwn(s.store.txs[t]);
    var j :| j in s.outer && s.outer[j] == t;
    HeldIsInProgress(s, id, j);
    i := s.dispatcher.jobs[j].info;
  }

  // ---------------------------------------------------------------------------------------
  // What a goroutine claims

  /**
   A goroutine whose transaction is open claims a due unlocked row of its queue if there is one,
   the earliest, and can then not find nothing.
   */
  lemma {:induction false} DueRowIsClaimed(steps: seq<Step>, s: State, j: nat, now: Time, started: Time)
      returns (id: Id)
    requires After(steps) == Some(s) && JobIs(s, j, Dispatcher.Starting) && j in s.outer && j !in s.looked
    requires Dispatcher.WellFormed(s.dispatcher) && !NothingClaimable(s.store, QueueOf(s, j), now)
    ensures JobStore.IsNextClaim(s.store, id, QueueOf(s, j), now)
    ensures Enabled(s, Claim(j, id, now, started)) && !Enabled(s, FindNothing(j, now))
    ensures var t := Next(s, Claim(j, id, now, started));
      JobStore.HeldBy(t.store, id, s.outer[j]) && JobIs(t, j, Dispatcher.Claimed)
  {
    InvAlways(steps, s);
    JobStore.ClaimFindsTheEarliest(s.store, QueueOf(s, j), now);
    id :| JobStore.IsNextClaim(s.store, id, QueueOf(s, j), now);
    ClaimIsPossible(s, j, id, now, started);
  }

  lemma ClaimIsPossible(s: State, j: nat, id: Id, now: Time, started: Time)
    requires Inv(s) && JobIs(s, j, Dispatcher.Starting) && j in s.outer && j !in s.looked
    requires JobStore.IsNextClaim(s.store, id, QueueOf(s, j), now)
    ensures Enabled(s, Claim(j, id, now, started))
    ensures var t := Next(s, Claim(j, id, now, started));
      JobStore.HeldBy(t.store, id, s.outer[j]) && JobIs(t, j, Dispatcher.Claimed)
  {
    assert OuterOk(s.dispatcher, s.store, j, s.outer[j]);
    var step := JobStore.Claim(s.outer[j], id, now, started);
    assert JobStore.Enabled(s.store, step);
    assert JobStore.HeldBy(JobStore.Next(s.store, step), id, s.outer[j]);
    JobsKept(s.dispatcher, Dispatcher.Advance(j, Dispatcher.Claims));
  }

  /** The query of goroutine `j` that found nothing, in a run. */
  ghost predicate FoundNothing(steps: seq<Step>, j: nat, now: Time) {
    exists n :: 0 <= n < |steps| && steps[n] == FindNothing(j, now) && SawNothing(steps[..n], j, now)
  }

  ghost predicate SawNothing(steps: seq<Step>, j: nat, now: Time) {
    After(steps).Some? && Dispatcher.WellFormed(After(steps).value.dispatcher)
    && j < |After(steps).value.dispatcher.jobs|
    && NothingClaimable(After(steps).value.store, QueueOf(After(steps).value, j), now)
  }

  lemma FoundNothingStays(init: seq<Step>, step: Step, j: nat, now: Time)
    requires FoundNothing(init, j, now)
    ensures FoundNothing(init + [step], j, now)
  {
    var n :| 0 <= n < |init| && init[n] == FindNothing(j, now) && SawNothing(init[..n], j, now);
    var steps := init + [step];
    assert steps[n] == init[n] && steps[..n] == init[..n];
  }

  lemma QuerySaw(init: seq<Step>, before: State, j: nat, now: Time)
    requires After(init) == Some(before) && Enabled(before, FindNothing(j, now))
    ensures FoundNothing(init + [FindNothing(j, now)], j, now)
  {
    var steps := init + [FindNothing(j, now)];
    assert steps[|init|] == FindNothing(j, now) && steps[..|init|] == init;
    assert SawNothing(init, j, now);
  }

  lemma LookedBefore(before: State, step: Step, j: nat)
    requires Enabled(before, step) && j in Next(before, step).looked && Next(before, step).looked[j].Some?
    ensures var now := Next(before, step).looked[j].value;
      step == FindNothing(j, now) || (j in before.looked && before.looked[j] == Some(now))
  {
    assert Next(before, step).looked == NextLooked(before, step);
  }

  lemma {:induction false} LookedMeansFoundNothing(steps: seq<Step>, s: State, j: nat)
    requires After(steps) == Some(s) && j in s.looked && s.looked[j].Some?
    ensures FoundNothing(steps, j, s.looked[j].value)
  {
    if steps != [] {
      var init, step := steps[..|steps| - 1], steps[|steps| - 1];
      var before := After(init).value;
      assert init + [step] == steps;
      LookedBefore(before, step, j);
      if step == FindNothing(j, s.looked[j].value) {
        QuerySaw(init, before, j, s.looked[j].value);
      } else {
        LookedMeansFoundNothing(init, before, j);
        FoundNothingStays(init, step, j, s.looked[j].value);
      }
    }
  }

  predicate LeftWithoutAJob(at: Dispatcher.JobPoint) {
    at == Dispatcher.Leaving(Dispatcher.NoJob) || at == Dispatcher.Freed(Dispatcher.NoJob)
  }

  /** Who left startWork without a job has looked. */
  predicate LeaversLooked(s: State) {
    forall j {:trigger s.dispatcher.jobs[j]} ::
      0 <= j < |s.dispatcher.jobs| && LeftWithoutAJob(s.dispatcher.jobs[j].at) ==> j in s.looked
  }

  /** A goroutine comes to these points by finding nothing, or from one to the other. */
  lemma LeaverCameFrom(job: Dispatcher.Job, move: Dispatcher.Move)
    requires Dispatcher.CanMove(job, move)
    requires LeftWithoutAJob(Dispatcher.Moved(job, move).at)
    ensures move.FindsNothing? || LeftWithoutAJob(job.at)
  {
  }

  lemma CheckedGoroutinesStart(d: Dispatcher.State, step: Dispatcher.Step, j: nat)
    requires Dispatcher.WellFormed(d) && Dispatcher.Enabled(d, step) && |d.jobs| <= j < |Dispatcher.Next(d, step).jobs|
    ensures Dispatcher.Next(d, step).jobs[j].at == Dispatcher.Starting
  {
  }

  lemma DispatchKeepsLeavers(s: State, step: Step)
    requires LeaversLooked(s) && Enabled(s, step) && Inner(step).Some?
    ensures LeaversLooked(Next(s, step))
  {
    var d, inner := s.dispatcher, Inner(step).value;
    var e := Dispatcher.Next(d, inner);
    assert Next(s, step).dispatcher == e && Next(s, step).looked == s.looked;
    JobsKept(d, inner);
    forall j | 0 <= j < |e.jobs| && LeftWithoutAJob(e.jobs[j].at)
      ensures j in s.looked
    {
      if j >= |d.jobs| {
        CheckedGoroutinesStart(d, inner, j);
      } else if inner.Advance? && inner.job == j {
        LeaverCameFrom(d.jobs[j], inner.move);
      } else {
        assert e.jobs[j].at == d.jobs[j].at;
      }
    }
  }

  lemma {:induction false} LeaversAlwaysLooked(steps: seq<Step>, s: State)
    requires After(steps) == Some(s)
    ensures LeaversLooked(s)
  {
    if steps != [] {
      var before, step := After(steps[..|steps| - 1]).value, steps[|steps| - 1];
      LeaversAlwaysLooked(steps[..|steps| - 1], before);
      if Inner(step).Some? {
        DispatchKeepsLeavers(before, step);
      }
    }
  }

  /**
   A goroutine that leaves startWork without a job has had a failure, or its query ran at a
   moment at which no unlocked row of its queue was due.
   */
  lemma {:induction false} NoJobMeansNothingWasDue(steps: seq<Step>, s: State, j: nat)
    requires After(steps) == Some(s)
    requires j < |s.dispatcher.jobs| && LeftWithoutAJob(s.dispatcher.jobs[j].at)
    ensures j in s.looked
    ensures s.looked[j].Some? ==> FoundNothing(steps, j, s.looked[j].value)
  {
    LeaversAlwaysLooked(steps, s);
    if s.looked[j].Some? {
      LookedMeansFoundNothing(steps, s, j);
    }
  }

  // ---------------------------------------------------------------------------------------
  // A job gets done

  predicate Goes(s: State, step: Step, t: State) {
    Enabled(s, step) && t == Next(s, step)
  }

  function WithResult(row: JobStore.Row, step: Step): JobStore.Row
    requires step.StoreResult?
  {
    row.(result := step.result, completedAt := Some(step.completed), retainUntil := Some(step.retain),
         commitError := step.commitError)
  }

  /** The table's part of storing a result. */
  lemma StoreEffect(store: JobStore.Store, t: nat, id: Id, row: JobStore.Row, step: Step)
      returns (after: JobStore.Store)
    requires step.StoreResult? && JobStore.IsWorkerAt(store, t, JobStore.Claimed(id))
    requires store.txs[t].writes == map[id := JobStore.Put(row)]
    ensures var inner := JobStore.StoreResult(t, step.completed, step.retain, step.result, step.commitError);
      JobStore.Enabled(store, inner) && after == JobStore.Next(store, inner)
    ensures after.rows == store.rows && JobStore.IsWorkerAt(after, t, JobStore.Stored(id))
    ensures after.txs[t].writes == map[id := JobStore.Put(WithResult(row, step))]
  {
    after := JobStore.Next(store, JobStore.StoreResult(t, step.completed, step.retain, step.result, step.commitError));
  }

  /** A running goroutine stores its result in its transaction. */
  lemma ResultIsStored(s: State, j: nat, id: Id, row: JobStore.Row, step: Step) returns (t: State)
    requires Dispatcher.WellFormed(s.dispatcher) && JobIs(s, j, Dispatcher.Running) && j in s.outer
    requires JobStore.IsWorkerAt(s.store, s.outer[j], JobStore.Claimed(id)) && step.StoreResult? && step.job == j
    requires s.store.txs[s.outer[j]].writes == map[id := JobStore.Put(row)]
    ensures Goes(s, step, t) && t.dispatcher == s.dispatcher && t.outer == s.outer && t.store.rows == s.store.rows
    ensures JobStore.IsWorkerAt(t.store, t.outer[j], JobStore.Stored(id))
    ensures t.store.txs[t.outer[j]].writes == map[id := JobStore.Put(WithResult(row, step))]
  {
    var after := StoreEffect(s.store, s.outer[j], id, row, step);
    t := Next(s, step);
    assert t.store == after;
  }

  /** A committed outer transaction writes its row to the table. */
  lemma ResultIsCommitted(s: State, j: nat, id: Id, row: JobStore.Row) returns (t: State)
    requires Dispatcher.WellFormed(s.dispatcher) && j in s.outer
    requires JobStore.IsWorkerAt(s.store, s.outer[j], JobStore.Stored(id))
    requires s.store.txs[s.outer[j]].writes == map[id := JobStore.Put(row)]
    ensures Goes(s, Close(j, true), t) && t.dispatcher == s.dispatcher && j !in t.outer
    ensures t.store.rows == s.store.rows[id := row] && t.store.txs == s.store.txs - {s.outer[j]}
  {
    t := Next(s, Close(j, true));
    assert t.store.rows.Keys == s.store.rows[id := row].Keys;
  }

  lemma GoroutineFinishes(s: State, j: nat) returns (t: State)
    requires Dispatcher.WellFormed(s.dispatcher) && JobIs(s, j, Dispatcher.Running) && j !in s.outer
    ensures Goes(s, Dispatch(Dispatcher.Advance(j, Dispatcher.Finishes)), t)
    ensures t.store == s.store && JobIs(t, j, Dispatcher.Leaving(Dispatcher.RanJob))
  {
    t := Next(s, Dispatch(Dispatcher.Advance(j, Dispatcher.Finishes)));
  }

  lemma {:induction false} WhatTheWorkerWrote(steps: seq<Step>, s: State, t: nat, id: Id) returns (row: JobStore.Row)
    requires After(steps) == Some(s) && JobStore.IsWorkerAt(s.store, t, JobStore.Claimed(id))
    ensures s.store.txs[t].writes == map[id := JobStore.Put(row)]
    ensures id in s.store.rows && row.startedAt.Some? && row == s.store.rows[id].(startedAt := row.startedAt)
  {
    var stored := RunIsAStoreRun(steps, s);
    JobStore.InvAlways(stored, s.store);
    assert JobStore.TxOk(s.store.rows, s.store.used, s.store.enqueued, s.store.txs[t]);
    row := s.store.txs[t].writes[id].row;
  }

  /**
   A running job can come to its end: its result is stored, its row is committed, now started,
   with these four values and nothing else changed, and the goroutine leaves startWork having run
   a job.
   */
  lemma {:induction false} JobComesToItsEnd(steps: seq<Step>, s: State, j: nat, id: Id, step: Step)
      returns (a: State, b: State, c: State, started: Time)
    requires After(steps) == Some(s) && JobIs(s, j, Dispatcher.Running) && j in s.outer
    requires JobStore.IsWorkerAt(s.store, s.outer[j], JobStore.Claimed(id)) && step.StoreResult? && step.job == j
    ensures Goes(s, step, a) && Goes(a, Close(j, true), b)
    ensures Goes(b, Dispatch(Dispatcher.Advance(j, Dispatcher.Finishes)), c)
    ensures id in s.store.rows && c.store.rows == s.store.rows[id := s.store.rows[id].(
      startedAt := Some(started), result := step.result, completedAt := Some(step.completed),
      retainUntil := Some(step.retain), commitError := step.commitError)]
    ensures JobIs(c, j, Dispatcher.Leaving(Dispatcher.RanJob))
  {
    InvAlways(steps, s);
    var row := WhatTheWorkerWrote(steps, s, s.outer[j], id);
    started := row.startedAt.value;
    a := ResultIsStored(s, j, id, row, step);
    b := ResultIsCommitted(a, j, id, WithResult(row, step));
    c := GoroutineFinishes(b, j);
  }
}
