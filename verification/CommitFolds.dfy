/**
 What overlapping debounced adds do to a job: the steps of the table with the calls of
 `Queue.add` behind them, and the fold of the committed calls in every unfinished row.
 */
module CommitFolds {
  import opened Basics
  import opened JobStore
  import Debounce

  type AddCall = Debounce.AddCall

  /** A step of the table; an insert or an amendment is that of an add. */
  datatype Action = Action(step: Step, call: Option<AddCall>)

  /**
   The step writes what `add` writes: a new row, or the debounced row in its transaction's view.
   An add that keeps the original row locks it, and so counts as writing it unchanged.
   */
  predicate Writes(s: Store, a: Action)
    requires Enabled(s, a.step)
  {
    match a.step
    case Insert(_, _, row) => a.call.Some? && row == a.call.value.NewRow()
    case Amend(t, id, arg, startAfter) =>
      var row := View(s, t, id).value;
      a.call.Some? && a.call.value.IsFor(row.queue, row.debounceKey) &&
      Debounce.Debounced(row, a.call.value) == Some(row.(arg := arg, startAfter := startAfter))
    case _ => a.call == None
  }

  /** The store after a run, when its steps are all enabled and write what they should. */
  ghost function Played(run: seq<Action>): Option<Store> {
    if run == [] then
      Some(EMPTY)
    else
      match Played(run[..|run| - 1])
      case None => None
      case Some(s) =>
        var a := run[|run| - 1];
        if Enabled(s, a.step) && Writes(s, a) then Some(Next(s, a.step)) else None
  }

  function Steps(run: seq<Action>): seq<Step> {
    seq(|run|, i requires 0 <= i < |run| => run[i].step)
  }

  /** Whatever holds in the runs of the table holds here. */
  lemma {:induction false} PlayedIsARun(run: seq<Action>, s: Store)
    requires Played(run) == Some(s)
    ensures After(Steps(run)) == Some(s) && Inv(s)
  {
    if run != [] {
      PlayedIsARun(run[..|run| - 1], Played(run[..|run| - 1]).value);
      assert Steps(run)[..|run| - 1] == Steps(run[..|run| - 1]);
    }
    InvAlways(Steps(run), s);
  }

  /** The transaction that an action is about. */
  predicate Ends(s: Store, step: Step, t: nat) {
    step == Commit(t) || step == Abort(t) || (step.Crash? && t in s.txs && s.txs[t].process == step.process)
  }

  predicate Touches(step: Step, t: nat, id: Id) {
    (step.Insert? || step.Amend?) && step.tx == t && step.id == id
  }

  /** The calls that an open transaction has made on a row, in order. */
  ghost function OpenCalls(run: seq<Action>, t: nat, id: Id): seq<AddCall> {
    if run == [] then []
    else
      var init, a := run[..|run| - 1], run[|run| - 1];
      var s := Played(init);
      if s == None || Ends(s.value, a.step, t) then []
      else if Touches(a.step, t, id) && a.call.Some? then OpenCalls(init, t, id) + [a.call.value]
      else OpenCalls(init, t, id)
  }

  /** The calls on a row whose transactions have committed, in the order of the commits. */
  ghost function CommittedCalls(run: seq<Action>, id: Id): seq<AddCall> {
    if run == [] then []
    else
      var init, a := run[..|run| - 1], run[|run| - 1];
      CommittedCalls(init, id) + (if a.step.Commit? then OpenCalls(init, a.step.tx, id) else [])
  }

  ghost predicate IsFold(row: Row, calls: seq<AddCall>) {
    calls != [] && Debounce.JobOf(row) == Debounce.Fold(calls)
  }

  /** A committed row that no commit has finished is the fold of the committed calls on it. */
  ghost predicate RowsAreFolds(run: seq<Action>, s: Store) {
    forall id :: id in s.rows && s.rows[id].startedAt == None ==> IsFold(s.rows[id], CommittedCalls(run, id))
  }

  /** What an adder has written is the fold of the committed calls and its own. */
  ghost predicate WritesAreFolds(run: seq<Action>, s: Store) {
    forall t, id :: t in s.txs && s.txs[t].kind == Adder && id in s.txs[t].writes && s.txs[t].writes[id].Put? ==>
      IsFold(s.txs[t].writes[id].row, CommittedCalls(run, id) + OpenCalls(run, t, id))
  }

  /** Calls are only known of rows that their transaction has written, or that are enqueued. */
  ghost predicate CallsAreWritten(run: seq<Action>, s: Store) {
    && (forall t, id :: OpenCalls(run, t, id) != [] ==> t in s.txs && s.txs[t].kind == Adder && id in s.txs[t].writes)
    && (forall id :: CommittedCalls(run, id) != [] ==> id in s.enqueued)
  }

  ghost predicate FoldInv(run: seq<Action>, s: Store) {
    RowsAreFolds(run, s) && WritesAreFolds(run, s) && CallsAreWritten(run, s)
  }

  lemma FoldOfOne(call: AddCall)
    ensures Debounce.JobOf(call.NewRow()) == Debounce.Fold([call])
  {
  }

  /** Debouncing a row that is a fold absorbs one more call. */
  lemma DebouncedAbsorbs(row: Row, calls: seq<AddCall>, call: AddCall)
    requires IsFold(row, calls) && Debounce.Debounced(row, call).Some?
    ensures IsFold(Debounce.Debounced(row, call).value, calls + [call])
  {
    assert (calls + [call])[..|calls|] == calls;
  }

  /** What one more action adds to the calls. */
  lemma CallsAfter(init: seq<Action>, a: Action, s: Store, t: nat, id: Id)
    requires Played(init) == Some(s)
    ensures CommittedCalls(init + [a], id) ==
      if a.step.Commit? then CommittedCalls(init, id) + OpenCalls(init, a.step.tx, id) else CommittedCalls(init, id)
    ensures OpenCalls(init + [a], t, id) ==
      if Ends(s, a.step, t) then []
      else if Touches(a.step, t, id) && a.call.Some? then OpenCalls(init, t, id) + [a.call.value]
      else OpenCalls(init, t, id)
  {
    assert (init + [a])[..|init|] == init;
    assert CommittedCalls(init, id) + [] == CommittedCalls(init, id);
  }

  predicate IsPassive(step: Step) {
    step.Begin? || step.Claim? || step.StoreResult? || step.Sweep? || step.Abort? || step.Crash?
  }

  /** Other steps than an adder's writes and commits leave the table and what open adders have written alone. */
  lemma PassiveEffect(s: Store, step: Step)
    requires Enabled(s, step) && IsPassive(step)
    ensures Next(s, step).rows == s.rows && Next(s, step).enqueued == s.enqueued
    ensures forall t ::
      t in Next(s, step).txs && Next(s, step).txs[t].kind == Adder && Next(s, step).txs[t].writes != map[] ==>
        t in s.txs && Next(s, step).txs[t] == s.txs[t] && !Ends(s, step, t)
    ensures forall t :: t in s.txs && s.txs[t].kind == Adder && !Ends(s, step, t) ==>
      t in Next(s, step).txs && Next(s, step).txs[t] == s.txs[t]
  {
  }

  lemma PassiveKeepsFolds(init: seq<Action>, a: Action, s: Store)
    requires Played(init) == Some(s) && FoldInv(init, s) && Enabled(s, a.step) && IsPassive(a.step)
    ensures FoldInv(init + [a], Next(s, a.step))
  {
    var run, u := init + [a], Next(s, a.step);
    PassiveEffect(s, a.step);
    forall id
      ensures CommittedCalls(run, id) == CommittedCalls(init, id)
    {
      CallsAfter(init, a, s, 0, id);
    }
    forall t, id | t in u.txs && u.txs[t].kind == Adder && id in u.txs[t].writes && u.txs[t].writes[id].Put?
      ensures IsFold(u.txs[t].writes[id].row, CommittedCalls(run, id) + OpenCalls(run, t, id))
    {
      CallsAfter(init, a, s, t, id);
    }
    forall t, id | OpenCalls(run, t, id) != []
      ensures t in u.txs && u.txs[t].kind == Adder && id in u.txs[t].writes
    {
      CallsAfter(init, a, s, t, id);
    }
  }

  /** An insert starts a fold, an amendment absorbs one more call. */
  lemma WrittenRowIsFold(init: seq<Action>, a: Action, s: Store)
    requires Played(init) == Some(s) && Inv(s) && FoldInv(init, s) && Enabled(s, a.step) && Writes(s, a)
    requires a.step.Insert? || a.step.Amend?
    ensures a.call.Some? && Next(s, a.step).txs[a.step.tx].writes[a.step.id].Put?
    ensures IsFold(Next(s, a.step).txs[a.step.tx].writes[a.step.id].row,
                   CommittedCalls(init, a.step.id) + OpenCalls(init, a.step.tx, a.step.id) + [a.call.value])
  {
    var t, id, call := a.step.tx, a.step.id, a.call.value;
    var calls := CommittedCalls(init, id) + OpenCalls(init, t, id);
    if a.step.Insert? {
      InsertedIdIsFree(s, id);
      assert calls == [];
      FoldOfOne(call);
      assert calls + [call] == [call];
    } else {
      var row := View(s, t, id).value;
      if id !in s.txs[t].writes {
        assert calls == CommittedCalls(init, id);
      } else {
        assert TxOk(s.rows, s.used, s.enqueued, s.txs[t]);
      }
      DebouncedAbsorbs(row, calls, call);
    }
  }

  lemma WriteEffect(s: Store, step: Step)
    requires Enabled(s, step) && (step.Insert? || step.Amend?)
    ensures var u := Next(s, step);
      u.rows == s.rows && u.enqueued == s.enqueued && u.txs.Keys == s.txs.Keys && u.txs[step.tx].kind == Adder
      && u.txs[step.tx].writes.Keys == s.txs[step.tx].writes.Keys + {step.id}
    ensures forall t, id {:trigger Next(s, step).txs[t].writes[id]} ::
      t in s.txs && id in s.txs[t].writes && !Touches(step, t, id) ==>
        Next(s, step).txs[t].writes[id] == s.txs[t].writes[id]
    ensures forall t :: t in s.txs && t != step.tx ==> Next(s, step).txs[t] == s.txs[t]
  {
  }

  lemma WriteKeepsFolds(init: seq<Action>, a: Action, s: Store)
    requires Played(init) == Some(s) && Inv(s) && FoldInv(init, s) && Enabled(s, a.step) && Writes(s, a)
    requires a.step.Insert? || a.step.Amend?
    ensures FoldInv(init + [a], Next(s, a.step))
  {
    WriteKeepsRowFolds(init, a, s);
    WriteKeepsWriteFolds(init, a, s);
    WriteKeepsCalls(init, a, s);
  }

  lemma WriteKeepsRowFolds(init: seq<Action>, a: Action, s: Store)
    requires Played(init) == Some(s) && Inv(s) && FoldInv(init, s) && Enabled(s, a.step) && Writes(s, a)
    requires a.step.Insert? || a.step.Amend?
    ensures RowsAreFolds(init + [a], Next(s, a.step))
  {
    WriteEffect(s, a.step);
    forall id | id in s.rows
      ensures CommittedCalls(init + [a], id) == CommittedCalls(init, id)
    {
      CallsAfter(init, a, s, 0, id);
    }
  }

  lemma TouchedWriteIsFold(init: seq<Action>, a: Action, s: Store)
    requires Played(init) == Some(s) && Inv(s) && FoldInv(init, s) && Enabled(s, a.step) && Writes(s, a)
    requires a.step.Insert? || a.step.Amend?
    ensures Next(s, a.step).txs[a.step.tx].writes[a.step.id].Put?
    ensures IsFold(Next(s, a.step).txs[a.step.tx].writes[a.step.id].row,
                   CommittedCalls(init + [a], a.step.id) + OpenCalls(init + [a], a.step.tx, a.step.id))
  {
    var t, id := a.step.tx, a.step.id;
    CallsAfter(init, a, s, t, id);
    WrittenRowIsFold(init, a, s);
    Regroup(CommittedCalls(init, id), OpenCalls(init, t, id), [a.call.value]);
  }

  lemma OtherWriteIsFold(init: seq<Action>, a: Action, s: Store, t: nat, id: Id)
    requires Played(init) == Some(s) && WritesAreFolds(init, s) && !a.step.Commit? && !Ends(s, a.step, t)
    requires !Touches(a.step, t, id)
    requires t in s.txs && s.txs[t].kind == Adder && id in s.txs[t].writes && s.txs[t].writes[id].Put?
    ensures IsFold(s.txs[t].writes[id].row, CommittedCalls(init + [a], id) + OpenCalls(init + [a], t, id))
  {
    CallsAfter(init, a, s, t, id);
  }

  /** What an adder has written before, and what it writes now. */
  lemma WrittenBeforeOrNow(s: Store, step: Step, t: nat, id: Id)
    requires Enabled(s, step) && (step.Insert? || step.Amend?)
    requires t in Next(s, step).txs && id in Next(s, step).txs[t].writes
    ensures t in s.txs && (t == step.tx || Next(s, step).txs[t].kind == s.txs[t].kind)
    ensures s.txs[step.tx].kind == Adder
    ensures !Touches(step, t, id) ==>
      id in s.txs[t].writes && Next(s, step).txs[t].writes[id] == s.txs[t].writes[id]
  {
    WriteEffect(s, step);
  }

  lemma WriteKeepsWriteFolds(init: seq<Action>, a: Action, s: Store)
    requires Played(init) == Some(s) && Inv(s) && FoldInv(init, s) && Enabled(s, a.step) && Writes(s, a)
    requires a.step.Insert? || a.step.Amend?
    ensures WritesAreFolds(init + [a], Next(s, a.step))
  {
    var u := Next(s, a.step);
    forall t, id | t in u.txs && u.txs[t].kind == Adder && id in u.txs[t].writes && u.txs[t].writes[id].Put?
      ensures IsFold(u.txs[t].writes[id].row, CommittedCalls(init + [a], id) + OpenCalls(init + [a], t, id))
    {
      WrittenBeforeOrNow(s, a.step, t, id);
      if Touches(a.step, t, id) {
        TouchedWriteIsFold(init, a, s);
      } else {
        OtherWriteIsFold(init, a, s, t, id);
      }
    }
  }

  lemma Regroup(a: seq<AddCall>, b: seq<AddCall>, c: seq<AddCall>)
    ensures a + b + c == a + (b + c)
  {
  }

  lemma WriteKeepsCalls(init: seq<Action>, a: Action, s: Store)
    requires Played(init) == Some(s) && Inv(s) && FoldInv(init, s) && Enabled(s, a.step) && Writes(s, a)
    requires a.step.Insert? || a.step.Amend?
    ensures CallsAreWritten(init + [a], Next(s, a.step))
  {
    var run, u := init + [a], Next(s, a.step);
    WriteEffect(s, a.step);
    forall t, id | OpenCalls(run, t, id) != []
      ensures t in u.txs && u.txs[t].kind == Adder && id in u.txs[t].writes
    {
      CallsAfter(init, a, s, t, id);
    }
    forall id | CommittedCalls(run, id) != []
      ensures id in u.enqueued
    {
      CallsAfter(init, a, s, 0, id);
    }
  }

  lemma CommitKeepsFolds(init: seq<Action>, a: Action, s: Store)
    requires Played(init) == Some(s) && Inv(s) && FoldInv(init, s) && Enabled(s, a.step) && a.step.Commit?
    ensures FoldInv(init + [a], Next(s, a.step))
  {
    CommitKeepsRowFolds(init, a, s);
    CommitKeepsWriteFolds(init, a, s);
    CommitKeepsCalls(init, a, s);
  }

  lemma CommittedRowIsFold(init: seq<Action>, a: Action, s: Store, id: Id)
    requires Played(init) == Some(s) && Inv(s) && FoldInv(init, s) && Enabled(s, a.step) && a.step.Commit?
    requires var u := AfterCommit(s, a.step.tx); id in u.rows && u.rows[id].startedAt == None
    ensures IsFold(AfterCommit(s, a.step.tx).rows[id], CommittedCalls(init + [a], id))
  {
    var t := a.step.tx;
    CallsAfter(init, a, s, t, id);
    if id in s.txs[t].writes {
      assert TxOk(s.rows, s.used, s.enqueued, s.txs[t]);
      assert s.txs[t].kind == Adder;
    } else {
      assert OpenCalls(init, t, id) == [];
      assert CommittedCalls(init, id) + [] == CommittedCalls(init, id);
    }
  }

  lemma CommitKeepsRowFolds(init: seq<Action>, a: Action, s: Store)
    requires Played(init) == Some(s) && Inv(s) && FoldInv(init, s) && Enabled(s, a.step) && a.step.Commit?
    ensures RowsAreFolds(init + [a], AfterCommit(s, a.step.tx))
  {
    var u := AfterCommit(s, a.step.tx);
    forall id | id in u.rows && u.rows[id].startedAt == None
      ensures IsFold(u.rows[id], CommittedCalls(init + [a], id))
    {
      CommittedRowIsFold(init, a, s, id);
    }
  }

  /** A commit does not reach the rows that another adder has written. */
  lemma CommitKeepsOneFold(init: seq<Action>, a: Action, s: Store, v: nat, id: Id)
    requires Played(init) == Some(s) && Inv(s) && FoldInv(init, s) && Enabled(s, a.step) && a.step.Commit?
    requires v in s.txs && v != a.step.tx && s.txs[v].kind == Adder && id in s.txs[v].writes && s.txs[v].writes[id].Put?
    ensures IsFold(s.txs[v].writes[id].row, CommittedCalls(init + [a], id) + OpenCalls(init + [a], v, id))
  {
    CallsAfter(init, a, s, v, id);
    assert id !in s.txs[a.step.tx].writes;
    assert OpenCalls(init, a.step.tx, id) == [];
    assert CommittedCalls(init, id) + [] == CommittedCalls(init, id);
  }

  lemma CommitKeepsWriteFolds(init: seq<Action>, a: Action, s: Store)
    requires Played(init) == Some(s) && Inv(s) && FoldInv(init, s) && Enabled(s, a.step) && a.step.Commit?
    ensures WritesAreFolds(init + [a], AfterCommit(s, a.step.tx))
  {
    var u := AfterCommit(s, a.step.tx);
    forall v, id | v in u.txs && u.txs[v].kind == Adder && id in u.txs[v].writes && u.txs[v].writes[id].Put?
      ensures IsFold(u.txs[v].writes[id].row, CommittedCalls(init + [a], id) + OpenCalls(init + [a], v, id))
    {
      CommitKeepsOneFold(init, a, s, v, id);
    }
  }

  lemma OpenCallsStayWritten(init: seq<Action>, a: Action, s: Store, v: nat, id: Id)
    requires Played(init) == Some(s) && FoldInv(init, s) && Enabled(s, a.step) && a.step.Commit?
    requires OpenCalls(init + [a], v, id) != []
    ensures v != a.step.tx && v in s.txs && s.txs[v].kind == Adder && id in s.txs[v].writes
  {
    CallsAfter(init, a, s, v, id);
  }

  lemma CommittedCallsAreEnqueued(init: seq<Action>, a: Action, s: Store, id: Id)
    requires Played(init) == Some(s) && Inv(s) && FoldInv(init, s) && Enabled(s, a.step) && a.step.Commit?
    requires CommittedCalls(init + [a], id) != []
    ensures id in AfterCommit(s, a.step.tx).enqueued
  {
    var t := a.step.tx;
    CallsAfter(init, a, s, t, id);
    if CommittedCalls(init, id) == [] {
      assert OpenCalls(init, t, id) != [];
      assert TxOk(s.rows, s.used, s.enqueued, s.txs[t]);
      assert id in Applied(s.rows, s.txs[t].writes);
    }
  }

  lemma CommitKeepsCalls(init: seq<Action>, a: Action, s: Store)
    requires Played(init) == Some(s) && Inv(s) && FoldInv(init, s) && Enabled(s, a.step) && a.step.Commit?
    ensures CallsAreWritten(init + [a], AfterCommit(s, a.step.tx))
  {
    var u := AfterCommit(s, a.step.tx);
    forall v, id | OpenCalls(init + [a], v, id) != []
      ensures v in u.txs && u.txs[v].kind == Adder && id in u.txs[v].writes
    {
      OpenCallsStayWritten(init, a, s, v, id);
    }
    forall id | CommittedCalls(init + [a], id) != []
      ensures id in u.enqueued
    {
      CommittedCallsAreEnqueued(init, a, s, id);
    }
  }

  /**
   Whatever transactions overlap, commit, abort or crash: every pending or running row is the
   fold of the committed adds that wrote it, in the order of their commits, and an open adder
   sees and writes that fold continued by its own calls.
   */
  lemma {:induction false} UnfinishedRowsAreFolds(run: seq<Action>, s: Store)
    requires Played(run) == Some(s)
    ensures RowsAreFolds(run, s) && WritesAreFolds(run, s) && CallsAreWritten(run, s)
  {
    if run != [] {
      var init, a := run[..|run| - 1], run[|run| - 1];
      var before := Played(init).value;
      assert init + [a] == run;
      UnfinishedRowsAreFolds(init, before);
      PlayedIsARun(init, before);
      if a.step.Commit? {
        CommitKeepsFolds(init, a, before);
      } else if a.step.Insert? || a.step.Amend? {
        WriteKeepsFolds(init, a, before);
      } else {
        PassiveKeepsFolds(init, a, before);
      }
    }
  }

  /** A worker gets the fold of the adds committed before, and no other transaction holds its row meanwhile. */
  lemma {:induction false} WorkerGetsTheFold(run: seq<Action>, s: Store, id: Id, t: nat)
    requires Played(run) == Some(s) && HeldBy(s, id, t)
    ensures s.txs[t].writes.Keys == {id} && s.txs[t].writes[id].Put? && id in s.rows
    ensures CommittedCalls(run, id) != []
    ensures s.txs[t].writes[id].row.arg == Debounce.Fold(CommittedCalls(run, id)).arg
    ensures forall other :: other in s.txs && other != t ==> id !in s.txs[other].writes
  {
    PlayedIsARun(run, s);
    UnfinishedRowsAreFolds(run, s);
    ClaimedArgIsCommitted(Steps(run), s, id, t);
    HeldIsPending(s, id, t);
    assert IsFold(s.rows[id], CommittedCalls(run, id));
  }
}
