/**
 Debounced adds whose transactions overlap: when a debounce key keeps a single unfinished row
 among all interleavings of the table's transactions.
 */
module ConcurrentAdds {
  import opened Basics
  import opened JobStore

  predicate OfKey(row: Row, queue: string, debounceKey: string) {
    row.queue == queue && row.debounceKey == debounceKey
  }

  /** The committed rows of a key that are pending or in progress. */
  function Committed(s: Store, queue: string, debounceKey: string): set<Id> {
    set id | id in s.rows && OfKey(s.rows[id], queue, debounceKey) && s.rows[id].startedAt == None
  }

  /** The rows of a key that are inserted and not committed. */
  function Inserted(s: Store, queue: string, debounceKey: string): set<Id> {
    set t, id | t in s.txs && id in s.txs[t].writes && id !in s.rows && s.txs[t].writes[id].Put?
                && OfKey(s.txs[t].writes[id].row, queue, debounceKey) :: id
  }

  function Unfinished(s: Store, queue: string, debounceKey: string): set<Id> {
    Committed(s, queue, debounceKey) + Inserted(s, queue, debounceKey)
  }

  predicate InsertsOn(step: Step, queue: string, debounceKey: string) {
    step.Insert? && OfKey(step.row, queue, debounceKey)
  }

  /** The `existing` query of an add finds nothing in its transaction's view that is not locked. */
  ghost predicate FindsNothing(s: Store, t: nat, queue: string, debounceKey: string)
    requires t in s.txs
  {
    forall id :: Amendable(s, t, id) ==> !OfKey(View(s, t, id).value, queue, debounceKey)
  }

  /** Another transaction holds an unfinished row of the key: a job in progress, or an overlapping add. */
  predicate HeldElsewhere(s: Store, t: nat, queue: string, debounceKey: string) {
    exists other, id ::
      other in s.txs && other != t && id in s.txs[other].writes && id in Unfinished(s, queue, debounceKey)
  }

  // ---------------------------------------------------------------------------------------
  // Keys do not change

  /** A transaction that overwrites a row keeps its queue and key. */
  predicate KeysKept(s: Store) {
    forall t, id :: t in s.txs && id in s.txs[t].writes && id in s.rows && s.txs[t].writes[id].Put? ==>
      OfKey(s.txs[t].writes[id].row, s.rows[id].queue, s.rows[id].debounceKey)
  }

  lemma WriterKeepsKeys(s: Store, step: Step)
    requires Inv(s) && KeysKept(s) && Enabled(s, step)
    requires step.Claim? || step.StoreResult? || step.Insert? || step.Amend? || step.Sweep?
    ensures KeysKept(Next(s, step))
  {
    if step.Insert? {
      InsertedIdIsFree(s, step.id);
    }
  }

  lemma EndKeepsKeys(s: Store, step: Step)
    requires Inv(s) && KeysKept(s) && Enabled(s, step)
    requires step.Begin? || step.Abort? || step.Crash?
    ensures KeysKept(Next(s, step))
  {
  }

  lemma CommitKeepsKeys(s: Store, t: nat)
    requires Inv(s) && KeysKept(s) && t in s.txs && MayCommit(s.txs[t])
    ensures KeysKept(AfterCommit(s, t))
  {
    var after := AfterCommit(s, t);
    forall u, id | u in after.txs && id in after.txs[u].writes && id in after.rows && after.txs[u].writes[id].Put?
      ensures OfKey(after.txs[u].writes[id].row, after.rows[id].queue, after.rows[id].debounceKey)
    {
      assert id !in s.txs[t].writes;
    }
  }

  lemma {:induction false} KeysAlwaysKept(steps: seq<Step>, s: Store)
    requires After(steps) == Some(s)
    ensures Inv(s) && KeysKept(s)
  {
    InvAlways(steps, s);
    if steps != [] {
      var before, step := After(steps[..|steps| - 1]).value, steps[|steps| - 1];
      KeysAlwaysKept(steps[..|steps| - 1], before);
      if step.Commit? {
        CommitKeepsKeys(before, step.tx);
      } else if step.Begin? || step.Abort? || step.Crash? {
        EndKeepsKeys(before, step);
      } else {
        WriterKeepsKeys(before, step);
      }
    }
  }

  // ---------------------------------------------------------------------------------------
  // Only an insert adds an unfinished row

  lemma InsertAddsOne(s: Store, step: Step, queue: string, debounceKey: string)
    requires Inv(s) && Enabled(s, step) && InsertsOn(step, queue, debounceKey)
    ensures Unfinished(Next(s, step), queue, debounceKey) == Unfinished(s, queue, debounceKey) + {step.id}
    ensures step.id !in Unfinished(s, queue, debounceKey)
  {
    var t := Next(s, step);
    InsertedIdIsFree(s, step.id);
    forall id | id in Inserted(s, queue, debounceKey)
      ensures id in Inserted(t, queue, debounceKey)
    {
      var u :| u in s.txs && id in s.txs[u].writes && id !in s.rows && s.txs[u].writes[id].Put?
               && OfKey(s.txs[u].writes[id].row, queue, debounceKey);
      assert u in t.txs && id in t.txs[u].writes;
    }
    assert step.tx in t.txs && step.id in t.txs[step.tx].writes;
    assert step.id in Inserted(t, queue, debounceKey);
  }

  lemma AddersAddNone(s: Store, step: Step, queue: string, debounceKey: string)
    requires Inv(s) && KeysKept(s) && Enabled(s, step) && !InsertsOn(step, queue, debounceKey)
    requires step.Insert? || step.Amend?
    ensures Unfinished(Next(s, step), queue, debounceKey) <= Unfinished(s, queue, debounceKey)
  {
  }

  lemma OthersWritesAddNone(s: Store, step: Step, queue: string, debounceKey: string)
    requires Inv(s) && Enabled(s, step)
    requires step.Claim? || step.StoreResult? || step.Sweep?
    ensures Unfinished(Next(s, step), queue, debounceKey) <= Unfinished(s, queue, debounceKey)
  {
    assert TxOk(s.rows, s.used, s.enqueued, s.txs[step.tx]);
  }

  lemma EndsAddNone(s: Store, step: Step, queue: string, debounceKey: string)
    requires Inv(s) && Enabled(s, step)
    requires step.Begin? || step.Abort? || step.Crash?
    ensures Unfinished(Next(s, step), queue, debounceKey) <= Unfinished(s, queue, debounceKey)
  {
  }

  lemma CommitAddsNone(s: Store, t: nat, queue: string, debounceKey: string)
    requires Inv(s) && KeysKept(s) && t in s.txs && MayCommit(s.txs[t])
    ensures Unfinished(AfterCommit(s, t), queue, debounceKey) <= Unfinished(s, queue, debounceKey)
  {
    var after := AfterCommit(s, t);
    assert TxOk(s.rows, s.used, s.enqueued, s.txs[t]);
    forall id | id in Unfinished(after, queue, debounceKey)
      ensures id in Unfinished(s, queue, debounceKey)
    {
      if id in after.rows {
        if id in s.txs[t].writes && id !in s.rows {
          assert id in Inserted(s, queue, debounceKey);
        }
      } else {
        var u :| u in after.txs && id in after.txs[u].writes && after.txs[u].writes[id].Put?
                 && OfKey(after.txs[u].writes[id].row, queue, debounceKey);
        assert id !in s.txs[t].writes && id !in s.rows;
        assert id in Inserted(s, queue, debounceKey);
      }
    }
  }

  lemma OthersAddNone(s: Store, step: Step, queue: string, debounceKey: string)
    requires Inv(s) && KeysKept(s) && Enabled(s, step) && !InsertsOn(step, queue, debounceKey)
    ensures Unfinished(Next(s, step), queue, debounceKey) <= Unfinished(s, queue, debounceKey)
  {
    if step.Commit? {
      CommitAddsNone(s, step.tx, queue, debounceKey);
    } else if step.Begin? || step.Abort? || step.Crash? {
      EndsAddNone(s, step, queue, debounceKey);
    } else if step.Insert? || step.Amend? {
      AddersAddNone(s, step, queue, debounceKey);
    } else {
      OthersWritesAddNone(s, step, queue, debounceKey);
    }
  }

  // ---------------------------------------------------------------------------------------
  // When a key keeps one row

  /** An add that finds nothing to debounce onto although there is an unfinished row is kept from it by a lock. */
  lemma UnfinishedIsHeld(s: Store, t: nat, queue: string, debounceKey: string)
    requires Inv(s) && KeysKept(s) && t in s.txs && s.txs[t].kind == Adder && FindsNothing(s, t, queue, debounceKey)
    ensures Unfinished(s, queue, debounceKey) != {} <==> HeldElsewhere(s, t, queue, debounceKey)
  {
    assert TxOk(s.rows, s.used, s.enqueued, s.txs[t]);
    if id :| id in Unfinished(s, queue, debounceKey) {
      assert !Amendable(s, t, id) || !OfKey(View(s, t, id).value, queue, debounceKey);
      if id !in Committed(s, queue, debounceKey) {
        var u :| u in s.txs && id in s.txs[u].writes && id !in s.rows && s.txs[u].writes[id].Put?
                 && OfKey(s.txs[u].writes[id].row, queue, debounceKey);
        assert u != t;
      }
    }
  }

  /** Every insert on the key is that of an add whose query found nothing. */
  ghost predicate AddsLookFirst(steps: seq<Step>, queue: string, debounceKey: string) {
    if steps == [] then true
    else
      var init, step := steps[..|steps| - 1], steps[|steps| - 1];
      AddsLookFirst(init, queue, debounceKey) &&
      (InsertsOn(step, queue, debounceKey) && After(init).Some? && step.tx in After(init).value.txs ==>
        FindsNothing(After(init).value, step.tx, queue, debounceKey))
  }

  /** No insert on the key while another transaction holds an unfinished row of it. */
  ghost predicate InsertsUndisturbed(steps: seq<Step>, queue: string, debounceKey: string) {
    if steps == [] then true
    else
      var init, step := steps[..|steps| - 1], steps[|steps| - 1];
      InsertsUndisturbed(init, queue, debounceKey) &&
      (InsertsOn(step, queue, debounceKey) && After(init).Some? ==>
        !HeldElsewhere(After(init).value, step.tx, queue, debounceKey))
  }

  ghost predicate AtMostOne(s: Option<Store>, queue: string, debounceKey: string) {
    s.Some? ==> |Unfinished(s.value, queue, debounceKey)| <= 1
  }

  /** At most one row of the key is unfinished all along a run. */
  ghost predicate NeverTwo(steps: seq<Step>, queue: string, debounceKey: string) {
    if steps == [] then AtMostOne(After([]), queue, debounceKey)
    else NeverTwo(steps[..|steps| - 1], queue, debounceKey) && AtMostOne(After(steps), queue, debounceKey)
  }

  lemma SubsetOfOne(a: set<Id>, b: set<Id>)
    requires a <= b && |b| <= 1
    ensures |a| <= 1
  {
    if a != {} {
      var x :| x in a;
      assert b - {x} == {} by {
        assert |b - {x}| == |b| - 1;
      }
      assert a == {x};
    }
  }

  /**
   Of debounced adds on one key whose transactions interleave in any way, with jobs in progress
   and crashes, at most one row is ever unfinished if and only if no add inserts while another
   transaction holds an unfinished row of the key.
   */
  lemma {:induction false} OneRowUnlessHeldElsewhere(steps: seq<Step>, s: Store, queue: string, debounceKey: string)
    requires After(steps) == Some(s) && AddsLookFirst(steps, queue, debounceKey)
    ensures NeverTwo(steps, queue, debounceKey) <==> InsertsUndisturbed(steps, queue, debounceKey)
  {
    if steps == [] {
      assert Unfinished(s, queue, debounceKey) == {};
    } else {
      var init, step := steps[..|steps| - 1], steps[|steps| - 1];
      var before := After(init).value;
      OneRowUnlessHeldElsewhere(init, before, queue, debounceKey);
      KeysAlwaysKept(init, before);
      if NeverTwo(init, queue, debounceKey) {
        LastStepKeepsOne(init, before, step, queue, debounceKey);
      }
    }
  }

  lemma {:induction false} LastStepKeepsOne(
      init: seq<Step>, before: Store, step: Step, queue: string, debounceKey: string)
    requires After(init) == Some(before) && Enabled(before, step) && Inv(before) && KeysKept(before)
    requires NeverTwo(init, queue, debounceKey)
    requires InsertsOn(step, queue, debounceKey) ==> FindsNothing(before, step.tx, queue, debounceKey)
    ensures |Unfinished(Next(before, step), queue, debounceKey)| <= 1 <==>
      (InsertsOn(step, queue, debounceKey) ==> !HeldElsewhere(before, step.tx, queue, debounceKey))
  {
    var earlier, later := Unfinished(before, queue, debounceKey), Unfinished(Next(before, step), queue, debounceKey);
    assert AtMostOne(After(init), queue, debounceKey);
    if InsertsOn(step, queue, debounceKey) {
      InsertAddsOne(before, step, queue, debounceKey);
      UnfinishedIsHeld(before, step.tx, queue, debounceKey);
      assert |later| == |earlier| + 1;
    } else {
      OthersAddNone(before, step, queue, debounceKey);
      SubsetOfOne(later, earlier);
    }
  }

  lemma {:induction false} Extend(steps: seq<Step>, s: Store, step: Step) returns (longer: seq<Step>, t: Store)
    requires After(steps) == Some(s) && Enabled(s, step)
    ensures longer == steps + [step] && After(longer) == Some(t) && t == Next(s, step)
  {
    longer, t := steps + [step], Next(s, step);
    assert longer[..|longer| - 1] == steps;
  }

  /** Two adders at work, with what they have written. */
  function TwoAdders(first: map<Id, Write>, second: map<Id, Write>, used: set<Id>): Store {
    Store(map[], map[0 := Tx(0, Adder, first), 1 := Tx(1, Adder, second)], used, {}, map[])
  }

  lemma TwoBegin() returns (steps: seq<Step>, s: Store)
    ensures steps == [Begin(0, 0, Adder), Begin(1, 1, Adder)]
    ensures After(steps) == Some(s) && s == TwoAdders(map[], map[], {})
  {
    steps, s := Extend([], EMPTY, Begin(0, 0, Adder));
    steps, s := Extend(steps, s, Begin(1, 1, Adder));
    assert s.txs == map[0 := Tx(0, Adder, map[]), 1 := Tx(1, Adder, map[])];
  }

  lemma TwoInsert(row: Row) returns (steps: seq<Step>, s: Store)
    requires row.IsPending()
    ensures steps == [Begin(0, 0, Adder), Begin(1, 1, Adder), Insert(0, 0, row), Insert(1, 1, row)]
    ensures After(steps) == Some(s) && s == TwoAdders(map[0 := Put(row)], map[1 := Put(row)], {0, 1})
    ensures AddsLookFirst(steps, row.queue, row.debounceKey)
  {
    steps, s := TwoBegin();
    var first := steps;
    NoInsertsSoFar(first, row.queue, row.debounceKey);
    assert FindsNothing(s, 0, row.queue, row.debounceKey);
    steps, s := Extend(steps, s, Insert(0, 0, row));
    assert s.txs == map[0 := Tx(0, Adder, map[0 := Put(row)]), 1 := Tx(1, Adder, map[])];
    assert steps[..2] == first;
    var second := steps;
    assert AddsLookFirst(second, row.queue, row.debounceKey);
    assert FindsNothing(s, 1, row.queue, row.debounceKey);
    steps, s := Extend(steps, s, Insert(1, 1, row));
    assert s.txs == map[0 := Tx(0, Adder, map[0 := Put(row)]), 1 := Tx(1, Adder, map[1 := Put(row)])];
    assert steps[..3] == second;
  }

  lemma NoInsertsSoFar(steps: seq<Step>, queue: string, debounceKey: string)
    requires steps == [Begin(0, 0, Adder), Begin(1, 1, Adder)]
    ensures AddsLookFirst(steps, queue, debounceKey)
  {
    assert steps[..1] == [Begin(0, 0, Adder)];
    assert steps[..1][..0] == [];
  }

  lemma FirstCommits(row: Row) returns (steps: seq<Step>, s: Store)
    requires row.IsPending()
    ensures steps == [Begin(0, 0, Adder), Begin(1, 1, Adder), Insert(0, 0, row), Insert(1, 1, row), Commit(0)]
    ensures After(steps) == Some(s) && AddsLookFirst(steps, row.queue, row.debounceKey)
    ensures s.rows == map[0 := row] && s.txs == map[1 := Tx(1, Adder, map[1 := Put(row)])]
  {
    steps, s := TwoInsert(row);
    var inserts := steps;
    steps, s := Extend(steps, s, Commit(0));
    assert steps[..4] == inserts;
  }

  /** Two overlapping adds on one key, each of which finds nothing: two pending rows are committed. */
  lemma OverlappingAddsLeaveTwo(row: Row) returns (steps: seq<Step>, s: Store)
    requires row.IsPending()
    ensures steps == [Begin(0, 0, Adder), Begin(1, 1, Adder), Insert(0, 0, row), Insert(1, 1, row),
                      Commit(0), Commit(1)]
    ensures After(steps) == Some(s) && Committed(s, row.queue, row.debounceKey) == {0, 1}
    ensures AddsLookFirst(steps, row.queue, row.debounceKey)
  {
    steps, s := FirstCommits(row);
    var half := steps;
    steps, s := Extend(steps, s, Commit(1));
    assert s.rows == map[0 := row, 1 := row];
    assert steps[..5] == half;
  }
}
