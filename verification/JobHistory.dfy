/**
 The history of a job in the runs of the table: how a row came to be held, with which values it
 was completed, and that pending and expired rows can go their way.
 */
module JobHistory {
  import opened Basics
  import opened JobStore

  /** Before a claim the row is due and free, and starts no later than any other such row of its queue. */
  ghost predicate DueAndFirst(s: Store, id: Id, now: Time) {
    && id in s.rows && s.rows[id].startedAt == None && s.rows[id].startAfter <= now
    && (forall t :: t in s.txs ==> id !in s.txs[t].writes)
    && forall other :: other in s.rows && s.rows[other].queue == s.rows[id].queue && s.rows[other].startedAt == None
         && s.rows[other].startAfter <= now && (forall t :: t in s.txs ==> other !in s.txs[t].writes)
         ==> s.rows[id].startAfter <= s.rows[other].startAfter
  }

  ghost predicate HeldAt(steps: seq<Step>, id: Id, t: nat) {
    After(steps).Some? && HeldBy(After(steps).value, id, t)
  }

  /** The transaction holds the row from the claim, which is step `k`, to the end of the run. */
  ghost predicate HeldSince(steps: seq<Step>, k: nat, id: Id, t: nat) {
    forall i {:trigger steps[..i]} :: k < i <= |steps| ==> HeldAt(steps[..i], id, t)
  }

  ghost predicate IsClaim(steps: seq<Step>, k: nat, id: Id, t: nat, now: Time, started: Time) {
    && k < |steps| && steps[k] == Claim(t, id, now, started)
    && After(steps[..k]).Some? && DueAndFirst(After(steps[..k]).value, id, now)
  }

  /** The committed row before the claim. */
  ghost function RowBefore(steps: seq<Step>, k: nat, id: Id): Option<Row>
    requires k <= |steps|
  {
    if After(steps[..k]).Some? && id in After(steps[..k]).value.rows then Some(After(steps[..k]).value.rows[id])
    else None
  }

  lemma PrefixOfInit(init: seq<Step>, step: Step, k: nat)
    requires k <= |init|
    ensures (init + [step])[..k] == init[..k] && (init + [step])[..|init|] == init
  {
  }

  lemma ClaimStays(init: seq<Step>, step: Step, k: nat, id: Id, t: nat, now: Time, started: Time)
    requires IsClaim(init, k, id, t, now, started) && HeldSince(init, k, id, t) && HeldAt(init + [step], id, t)
    ensures IsClaim(init + [step], k, id, t, now, started) && HeldSince(init + [step], k, id, t)
    ensures RowBefore(init + [step], k, id) == RowBefore(init, k, id)
  {
    var steps := init + [step];
    PrefixOfInit(init, step, k);
    forall i | k < i <= |steps|
      ensures HeldAt(steps[..i], id, t)
    {
      if i <= |init| {
        PrefixOfInit(init, step, i);
        assert HeldAt(init[..i], id, t);
      } else {
        assert steps[..i] == steps;
      }
    }
  }

  lemma OneMore(init: seq<Step>, before: Store, step: Step)
    requires After(init) == Some(before) && Enabled(before, step)
    ensures After(init + [step]) == Some(Next(before, step))
  {
    PrefixOfInit(init, step, |init|);
  }

  lemma HoldsFromNowOn(steps: seq<Step>, id: Id, t: nat)
    requires steps != [] && HeldAt(steps, id, t)
    ensures HeldSince(steps, |steps| - 1, id, t)
  {
    assert steps[..|steps|] == steps;
  }

  lemma ClaimHolds(before: Store, id: Id, t: nat, now: Time, started: Time)
    requires Enabled(before, Claim(t, id, now, started))
    ensures HeldBy(Next(before, Claim(t, id, now, started)), id, t)
  {
  }

  lemma ClaimStarts(init: seq<Step>, before: Store, id: Id, t: nat, now: Time, started: Time)
    requires After(init) == Some(before) && Enabled(before, Claim(t, id, now, started))
    ensures var steps := init + [Claim(t, id, now, started)];
      IsClaim(steps, |init|, id, t, now, started) && HeldSince(steps, |init|, id, t)
      && RowBefore(steps, |init|, id) == Some(before.rows[id])
  {
    var step := Claim(t, id, now, started);
    OneMore(init, before, step);
    ClaimHolds(before, id, t, now, started);
    HoldsFromNowOn(init + [step], id, t);
    PrefixOfInit(init, step, |init|);
    ClaimedIsDue(before, id, t, now, started);
  }

  lemma ClaimedIsDue(s: Store, id: Id, t: nat, now: Time, started: Time)
    requires Enabled(s, Claim(t, id, now, started))
    ensures DueAndFirst(s, id, now) && s.rows[id].queue == s.txs[t].kind.queue
  {
  }

  /** A worker keeps what it wrote, and the committed row under it stays. */
  lemma HolderKeeps(steps: seq<Step>, before: Store, step: Step, id: Id, t: nat)
    requires After(steps) == Some(before) && Enabled(before, step)
    requires HeldBy(before, id, t) && HeldBy(Next(before, step), id, t)
    ensures id in before.rows && id in Next(before, step).rows && Next(before, step).rows[id] == before.rows[id]
    ensures before.txs[t].writes[id].Put? && Next(before, step).txs[t].writes[id].Put?
    ensures if step.StoreResult? && step.tx == t then
        before.txs[t].kind.at == Claimed(id) && Next(before, step).txs[t].kind.at == Stored(id)
        && Next(before, step).txs[t].writes[id].row == before.txs[t].writes[id].row.(
             result := step.result, completedAt := Some(step.completed), retainUntil := Some(step.retain),
             commitError := step.commitError)
      else Next(before, step).txs[t] == before.txs[t]
  {
    InvAlways(steps, before);
    StepKeepsInv(before, step);
    assert InPhase(before, id, Running(t)) && InPhase(Next(before, step), id, Running(t)) by {
      HeldIsPending(before, id, t);
      HeldIsPending(Next(before, step), id, t);
    }
    PhaseSteps(steps, before, step, id, Running(t), Running(t));
    assert TxOk(before.rows, before.used, before.enqueued, before.txs[t]);
    HolderWrites(before, step, id, t);
  }

  lemma HolderWrites(before: Store, step: Step, id: Id, t: nat)
    requires Inv(before) && Enabled(before, step) && HeldBy(before, id, t) && HeldBy(Next(before, step), id, t)
    requires before.txs[t].writes[id].Put?
    requires before.txs[t].kind.at == Claimed(id) || before.txs[t].kind.at == Stored(id)
    ensures Next(before, step).txs[t].writes[id].Put?
    ensures if step.StoreResult? && step.tx == t then
        before.txs[t].kind.at == Claimed(id) && Next(before, step).txs[t].kind.at == Stored(id)
        && Next(before, step).txs[t].writes[id].row == before.txs[t].writes[id].row.(
             result := step.result, completedAt := Some(step.completed), retainUntil := Some(step.retain),
             commitError := step.commitError)
      else Next(before, step).txs[t] == before.txs[t]
  {
  }

  /** The claim behind a held row: when, at which step, and with which start. */
  datatype Work = Work(step: nat, now: Time, started: Time)

  ghost predicate Explains(steps: seq<Step>, w: Work, id: Id, t: nat, row: Row) {
    && IsClaim(steps, w.step, id, t, w.now, w.started) && HeldSince(steps, w.step, id, t)
    && RowBefore(steps, w.step, id) == Some(row)
  }

  /**
   A worker that holds a row has claimed it, at a moment at which it was due and first; it has
   held it since, and the committed row is still the one that it claimed.
   */
  lemma {:induction false} HolderHasClaimed(steps: seq<Step>, s: Store, id: Id, t: nat) returns (w: Work)
    requires After(steps) == Some(s) && HeldBy(s, id, t)
    ensures id in s.rows && Explains(steps, w, id, t, s.rows[id])
    ensures s.txs[t].writes[id].Put? && s.txs[t].writes[id].row.startedAt == Some(w.started)
    ensures s.txs[t].kind.at == Claimed(id) ==> s.txs[t].writes[id].row == s.rows[id].(startedAt := Some(w.started))
  {
    InvAlways(steps, s);
    HeldIsPending(s, id, t);
    assert steps != [];
    var init, step := steps[..|steps| - 1], steps[|steps| - 1];
    var before := After(init).value;
    assert init + [step] == steps;
    InvAlways(init, before);
    if HeldBy(before, id, t) {
      w := HolderHasClaimed(init, before, id, t);
      HolderKeeps(init, before, step, id, t);
      ClaimStays(init, step, w.step, id, t, w.now, w.started);
    } else {
      HolderAfter(before, step, id, t);
      w := Work(|init|, step.now, step.started);
      ClaimStarts(init, before, id, t, step.now, step.started);
    }
  }

  /** A stored result, by the step that stored it. */
  datatype Result = Result(
    step: nat, completed: Time, retain: Time, result: Option<Bytes>, commitError: Option<string>)

  function StoreOf(t: nat, r: Result): Step {
    StoreResult(t, r.completed, r.retain, r.result, r.commitError)
  }

  /** The row that a claim and a stored result make of a pending one. */
  function Finished(pending: Row, started: Time, r: Result): Row {
    pending.(startedAt := Some(started), completedAt := Some(r.completed), retainUntil := Some(r.retain),
             result := r.result, commitError := r.commitError)
  }

  lemma BeforeStored(before: Store, step: Step, id: Id, t: nat)
    requires Inv(before) && Enabled(before, step) && Inv(Next(before, step))
    requires IsWorkerAt(Next(before, step), t, Stored(id)) && HeldBy(Next(before, step), id, t)
    ensures HeldBy(before, id, t)
  {
    HolderAfter(before, step, id, t);
  }

  /** A worker about to commit has stored its result since its claim, in an otherwise unchanged row. */
  lemma {:induction false} StoredSinceClaim(steps: seq<Step>, s: Store, id: Id, t: nat) returns (w: Work, r: Result)
    requires After(steps) == Some(s) && IsWorkerAt(s, t, Stored(id))
    ensures HeldBy(s, id, t) && id in s.rows && Explains(steps, w, id, t, s.rows[id])
    ensures w.step < r.step < |steps| && steps[r.step] == StoreOf(t, r)
    ensures s.txs[t].writes[id].Put? && s.txs[t].writes[id].row == Finished(s.rows[id], w.started, r)
  {
    InvAlways(steps, s);
    assert TxOk(s.rows, s.used, s.enqueued, s.txs[t]);
    assert steps != [];
    var init, step := steps[..|steps| - 1], steps[|steps| - 1];
    var before := After(init).value;
    assert init + [step] == steps;
    InvAlways(init, before);
    BeforeStored(before, step, id, t);
    HolderKeeps(init, before, step, id, t);
    if IsWorkerAt(before, t, Stored(id)) {
      w, r := StoredSinceClaim(init, before, id, t);
    } else {
      HeldIsPending(before, id, t);
      w := HolderHasClaimed(init, before, id, t);
      r := Result(|init|, step.completed, step.retain, step.result, step.commitError);
    }
    ClaimStays(init, step, w.step, id, t, w.now, w.started);
  }

  /** How a completed row came about: the transaction, its claim, its stored result and its commit. */
  datatype Completion = Completion(tx: nat, work: Work, result: Result, commit: nat)

  ghost predicate Completes(steps: seq<Step>, c: Completion, id: Id, row: Row) {
    && c.work.step < c.result.step < c.commit < |steps|
    && steps[c.result.step] == StoreOf(c.tx, c.result) && steps[c.commit] == Commit(c.tx)
    && IsClaim(steps, c.work.step, id, c.tx, c.work.now, c.work.started)
    && HeldSince(steps[..c.commit], c.work.step, id, c.tx)
    && RowBefore(steps, c.work.step, id).Some?
    && row == Finished(RowBefore(steps, c.work.step, id).value, c.work.started, c.result)
  }

  lemma CompletionStays(init: seq<Step>, step: Step, c: Completion, id: Id, row: Row)
    requires Completes(init, c, id, row)
    ensures Completes(init + [step], c, id, row)
  {
    PrefixOfInit(init, step, c.work.step);
    PrefixOfInit(init, step, c.commit);
    assert init[..c.commit][..c.work.step] == init[..c.work.step];
  }

  /**
   A completed row holds exactly what its worker stored: there is a transaction that claimed the
   row, held it without a break, stored these four values while it did, and committed; every other
   field but the start is that of the pending row it claimed.
   */
  lemma {:induction false} CompletedRowHoldsTheResult(steps: seq<Step>, s: Store, id: Id) returns (c: Completion)
    requires After(steps) == Some(s) && InPhase(s, id, Completed)
    ensures Completes(steps, c, id, s.rows[id])
  {
    assert steps != [];
    var init, step := steps[..|steps| - 1], steps[|steps| - 1];
    var before := After(init).value;
    assert init + [step] == steps;
    var from := ExactlyOnePhase(init, before, id);
    PhaseSteps(init, before, step, id, from, Completed);
    if from == Completed {
      c := CompletedRowHoldsTheResult(init, before, id);
      CompletionStays(init, step, c, id, s.rows[id]);
    } else {
      assert from.Running? && step == Commit(from.tx);
      var w, r := StoredSinceClaim(init, before, id, from.tx);
      c := Completion(from.tx, w, r, |init|);
      PrefixOfInit(init, step, w.step);
      PrefixOfInit(init, step, |init|);
      assert s.rows[id] == before.txs[from.tx].writes[id].row;
    }
  }

  // ---------------------------------------------------------------------------------------
  // What can happen

  predicate IsFree(s: Store, id: Id) {
    forall t :: t in s.txs ==> id !in s.txs[t].writes
  }

  predicate IsWaiting(s: Store, id: Id, queue: string, now: Time) {
    && id in s.rows && s.rows[id].queue == queue
    && s.rows[id].startAfter <= now && s.rows[id].startedAt == None && IsFree(s, id)
  }

  /** A worker's query finds a row exactly when its queue has one that is due, not started, and free. */
  lemma ClaimIsPossible(s: Store, t: nat, now: Time, started: Time)
    requires IsWorkerAt(s, t, Begun)
    ensures (exists id :: Enabled(s, Claim(t, id, now, started))) <==>
      exists id :: IsWaiting(s, id, s.txs[t].kind.queue, now)
  {
    var queue := s.txs[t].kind.queue;
    ClaimFindsTheEarliest(s, queue, now);
    if id :| IsWaiting(s, id, queue, now) {
      assert Claimable(s, id, queue, now);
      var next :| IsNextClaim(s, next, queue, now);
      assert Enabled(s, Claim(t, next, now, started));
    }
    if id :| Enabled(s, Claim(t, id, now, started)) {
      assert IsWaiting(s, id, queue, now);
    }
  }

  predicate Goes(s: Store, step: Step, t: Store) {
    Enabled(s, step) && t == Next(s, step)
  }

  /** A free due row that is first can be claimed by a new worker, which then holds it. */
  lemma JobCanStart(s: Store, id: Id, t: nat, process: nat, now: Time, started: Time) returns (a: Store, b: Store)
    requires DueAndFirst(s, id, now) && t !in s.txs
    ensures Goes(s, Begin(t, process, Worker(s.rows[id].queue, Begun)), a) && Goes(a, Claim(t, id, now, started), b)
    ensures HeldBy(b, id, t) && b.rows == s.rows && b.txs - {t} == s.txs - {t}
    ensures b.txs[t] ==
      Tx(process, Worker(s.rows[id].queue, Claimed(id)), map[id := Put(s.rows[id].(startedAt := Some(started)))])
  {
    var queue := s.rows[id].queue;
    a := Next(s, Begin(t, process, Worker(queue, Begun)));
    assert forall x :: Locked(a, x) <==> Locked(s, x) by {
      forall x
        ensures Locked(a, x) <==> Locked(s, x)
      {
        if u :| u in s.txs && x in s.txs[u].writes {
          assert u in a.txs && x in a.txs[u].writes;
        }
      }
    }
    assert IsNextClaim(a, id, queue, now) by {
      forall other | other in a.rows && Claimable(a, other, queue, now)
        ensures a.rows[id].startAfter <= a.rows[other].startAfter
      {
        assert !Locked(s, other);
      }
    }
    b := Next(a, Claim(t, id, now, started));
  }

  /** And its result is committed with the row. */
  lemma JobCanComplete(s: Store, id: Id, t: nat, pending: Row, started: Time, r: Result) returns (a: Store, b: Store)
    requires t in s.txs && s.txs[t].kind.Worker? && s.txs[t].kind.at == Claimed(id)
    requires s.txs[t].writes == map[id := Put(pending.(startedAt := Some(started)))]
    ensures Goes(s, StoreOf(t, r), a) && Goes(a, Commit(t), b)
    ensures b.rows == s.rows[id := Finished(pending, started, r)] && InPhase(b, id, Completed)
    ensures b.txs == s.txs - {t}
  {
    a := Next(s, StoreOf(t, r));
    assert a.txs[t].writes == map[id := Put(Finished(pending, started, r))];
    b := Next(a, Commit(t));
    assert b.rows.Keys == s.rows[id := Finished(pending, started, r)].Keys;
  }

  /** The cleaner can delete a free row whose `retain_until` has passed, and nothing else goes with it. */
  lemma ExpiredRowCanBeCleaned(s: Store, id: Id, t: nat, process: nat, now: Time)
      returns (a: Store, b: Store, c: Store)
    requires id in s.rows && s.rows[id].retainUntil.Some? && s.rows[id].retainUntil.value <= now
    requires IsFree(s, id) && t !in s.txs
    ensures Goes(s, Begin(t, process, Cleaner(now)), a) && Goes(a, Sweep(t, {id}), b) && Goes(b, Commit(t), c)
    ensures c.rows == s.rows - {id} && InPhase(c, id, Cleaned)
  {
    a := Next(s, Begin(t, process, Cleaner(now)));
    assert !Locked(a, id) by {
      forall u | u in a.txs
        ensures id !in a.txs[u].writes
      {
      }
    }
    b := Next(a, Sweep(t, {id}));
    assert b.txs[t].writes == map[id := Remove];
    c := Next(b, Commit(t));
    assert c.rows.Keys == s.rows.Keys - {id};
  }

  /** The cleaner deletes only rows whose `retain_until` has passed. */
  lemma SweepsOnlyExpired(s: Store, t: nat, ids: set<Id>, id: Id)
    requires Enabled(s, Sweep(t, ids)) && id in ids
    ensures id in s.rows && s.rows[id].retainUntil.Some? && s.rows[id].retainUntil.value <= s.txs[t].kind.now
  {
  }

  /** What an adder inserts is in the table, as it is, once its transaction commits. */
  lemma InsertReachesTheTable(s: Store, t: nat, process: nat, id: Id, row: Row) returns (a: Store, b: Store, c: Store)
    requires t !in s.txs && id !in s.used && row.IsPending()
    ensures Goes(s, Begin(t, process, Adder), a) && Goes(a, Insert(t, id, row), b) && Goes(b, Commit(t), c)
    ensures b.rows == s.rows && c.rows == s.rows[id := row] && c.txs == s.txs && id in c.used
  {
    a := Next(s, Begin(t, process, Adder));
    b := Next(a, Insert(t, id, row));
    assert b.txs[t].writes == map[id := Put(row)];
    c := Next(b, Commit(t));
    assert c.rows.Keys == s.rows[id := row].Keys;
    assert c.txs == s.txs;
  }

  /** So is what it makes of a free pending row; argument and start change, nothing else. */
  lemma AmendmentReachesTheTable(s: Store, t: nat, process: nat, id: Id, arg: Bytes, startAfter: Time)
      returns (a: Store, b: Store, c: Store)
    requires t !in s.txs && id in s.rows && s.rows[id].startedAt == None && IsFree(s, id)
    ensures Goes(s, Begin(t, process, Adder), a) && Goes(a, Amend(t, id, arg, startAfter), b) && Goes(b, Commit(t), c)
    ensures b.rows == s.rows && c.rows == s.rows[id := s.rows[id].(arg := arg, startAfter := startAfter)]
    ensures c.txs == s.txs
  {
    a := Next(s, Begin(t, process, Adder));
    assert View(a, t, id) == Some(s.rows[id]);
    b := Next(a, Amend(t, id, arg, startAfter));
    assert b.txs[t].writes == map[id := Put(s.rows[id].(arg := arg, startAfter := startAfter))];
    c := Next(b, Commit(t));
    assert c.rows.Keys == s.rows.Keys;
    assert c.txs == s.txs;
  }

  /** Every transaction can be rolled back, and every process can die, with nothing of theirs in the table. */
  lemma UncommittedWritesVanish(s: Store, t: nat, process: nat)
    ensures t in s.txs ==>
      Enabled(s, Abort(t)) && Next(s, Abort(t)).rows == s.rows && Next(s, Abort(t)).txs == s.txs - {t}
    ensures Enabled(s, Crash(process)) && Next(s, Crash(process)).rows == s.rows
    ensures forall u :: u in Next(s, Crash(process)).txs <==> u in s.txs && s.txs[u].process != process
  {
  }
}
