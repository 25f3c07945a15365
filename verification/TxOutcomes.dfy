/**
 How the calls on a transaction end: the error, the nil or the panic of `WithTx2`, `Commit` and
 `Rollback`, read off the body alone; and what the lists and logs of TxLifecycle mean.
 */
module TxOutcomes {
  import opened Basics
  import opened TxLifecycle

  // ---------------------------------------------------------------------------------------
  // Panics

  /** A panic anywhere in the operations, or in the callbacks that they register. */
  predicate HasPanic(ops: seq<Op>) {
    ops != [] && (OpHasPanic(ops[0]) || HasPanic(ops[1..]))
  }

  predicate OpHasPanic(op: Op) {
    match op
    case Panic => true
    case OnCommitted(cb) => HasPanic(cb.ops)
    case OnRolledBackOrCommitFailed(cb) => HasPanic(cb.ops)
    case _ => false
  }

  predicate AnyHasPanic(cbs: seq<Callback>) {
    exists i :: 0 <= i < |cbs| && HasPanic(cbs[i].ops)
  }

  lemma {:induction false} ClosedIsCalm(ops: seq<Op>)
    ensures RunClosed(ops).1 <==> !HasPanic(ops)
    decreases ops
  {
    if ops != [] {
      StepIsCalm(ops[0]);
      ClosedIsCalm(ops[1..]);
    }
  }

  lemma {:induction false} StepIsCalm(op: Op)
    ensures StepClosed(op).1 <==> !OpHasPanic(op)
    decreases op
  {
    match op
    case OnCommitted(cb) => ClosedIsCalm(cb.ops);
    case OnRolledBackOrCommitFailed(cb) => ClosedIsCalm(cb.ops);
    case _ =>
  }

  /** On a closed transaction callbacks panic exactly when there is a panic somewhere in them. */
  lemma {:induction false} ListIsCalm(cbs: seq<Callback>, forCommit: bool)
    ensures FireAll(cbs, forCommit).1 <==> !AnyHasPanic(cbs)
  {
    if cbs != [] {
      ClosedIsCalm(cbs[0].ops);
      ListIsCalm(cbs[1..], forCommit);
      assert AnyHasPanic(cbs) <==> HasPanic(cbs[0].ops) || AnyHasPanic(cbs[1..]) by {
        if AnyHasPanic(cbs) {
          var i :| 0 <= i < |cbs| && HasPanic(cbs[i].ops);
          assert i > 0 ==> cbs[1..][i - 1] == cbs[i];
        }
        if AnyHasPanic(cbs[1..]) {
          var i :| 0 <= i < |cbs[1..]| && HasPanic(cbs[1..][i].ops);
          assert cbs[i + 1] == cbs[1..][i];
        }
      }
    }
  }

  // ---------------------------------------------------------------------------------------
  // Outcomes

  /** The body leaves the transaction open and comes to its end. */
  predicate StaysOpen(ops: seq<Op>) {
    |OpenPrefix(ops)| == |ops|
  }

  /** The body closes the transaction itself. */
  predicate ClosesItself(ops: seq<Op>) {
    |OpenPrefix(ops)| < |ops| && (ops[|OpenPrefix(ops)|].CallCommit? || ops[|OpenPrefix(ops)|].CallRollback?)
  }

  /** It closes the transaction and comes to its end, with no panic in a callback that runs or in what follows. */
  predicate ClosesCalmly(ops: seq<Op>, ok: bool) {
    ClosesItself(ops) &&
    var n := |OpenPrefix(ops)|;
    !AnyHasPanic(Registrations(OpenPrefix(ops), ops[n].CallCommit? && ok)) && !HasPanic(ops[n + 1..])
  }

  /** How a body ends, by its operations. */
  lemma BodyOutcome(ops: seq<Op>, ok: bool)
    ensures Ran(FRESH, ops, ok).1 <==> StaysOpen(ops) || ClosesCalmly(ops, ok)
    ensures Ran(FRESH, ops, ok).0.commitCalled <==> ClosesItself(ops)
    ensures Ran(FRESH, ops, ok).0.rollbackCalled <==> ClosesItself(ops) && ops[|OpenPrefix(ops)|].CallRollback?
    ensures StaysOpen(ops) ==>
      Ran(FRESH, ops, ok).0 == Tx(false, false, Registrations(ops, true), Registrations(ops, false), [])
  {
    var tx := RanFromStart(ops, ok);
    PrefixIsPrefix(ops);
    var n := |OpenPrefix(ops)|;
    assert StaysOpen(ops) ==> OpenPrefix(ops) == ops;
    if ClosesItself(ops) {
      var commits := ops[n].CallCommit? && ok;
      ListIsCalm(Registrations(OpenPrefix(ops), commits), commits);
      ClosedIsCalm(ops[n + 1..]);
    }
  }

  /**
   How WithTx2 is left, for every body, error and driver answer. A body that has closed the
   transaction and returns nil gets AlreadyClosed; a body's own error is passed on; a refused
   commit is CommitFailed; nil is a commit; and a panic is a panic of the body or of a callback.
   */
  lemma OutcomeOfWithTx(ops: seq<Op>, error: Option<Error>, ok: bool)
    ensures var r := WithTx(ops, error, ok).1;
      && (ClosesCalmly(ops, ok) ==> r == Returned(if error == None then Some(AlreadyClosed) else error))
      && (StaysOpen(ops) && error == None && ok ==>
        r == if AnyHasPanic(Registrations(ops, true)) then Panicked else Returned(None))
      && (StaysOpen(ops) && error == None && !ok ==>
        r == if AnyHasPanic(Registrations(ops, false)) then Panicked else Returned(Some(CommitFailed)))
      && (StaysOpen(ops) && error.Some? ==>
        r == if AnyHasPanic(Registrations(ops, false)) then Panicked else Returned(error))
      && (!StaysOpen(ops) && !ClosesCalmly(ops, ok) ==> r == Panicked)
  {
    BodyOutcome(ops, ok);
    ListIsCalm(Registrations(ops, true), true);
    ListIsCalm(Registrations(ops, false), false);
  }

  /** A nil body gets AlreadyClosed if and only if it has closed the transaction itself and ended calmly. */
  lemma AlreadyClosedMeansClosedByTheBody(ops: seq<Op>, ok: bool)
    ensures WithTx(ops, None, ok).1 == Returned(Some(AlreadyClosed)) <==> ClosesCalmly(ops, ok)
    ensures WithTx(ops, None, ok).1 == Returned(Some(CommitFailed)) <==>
      StaysOpen(ops) && !ok && !AnyHasPanic(Registrations(ops, false))
  {
    OutcomeOfWithTx(ops, None, ok);
  }

  /** What `Commit` and `Rollback` answer after a body that has come to its end. */
  lemma AnswersOfCommitAndRollback(ops: seq<Op>, ok: bool)
    requires Ran(FRESH, ops, ok).1
    ensures var tx := Ran(FRESH, ops, ok).0;
      && (!StaysOpen(ops) ==>
        Committed(tx, ok) == RolledBack(tx, ok) == (tx, Returned(Some(AlreadyClosed))))
      && (StaysOpen(ops) ==>
        && Committed(tx, ok).1 == (
          if AnyHasPanic(Registrations(ops, ok)) then Panicked
          else if ok then Returned(None) else Returned(Some(CommitFailed)))
        && RolledBack(tx, ok).1 == (
          if AnyHasPanic(Registrations(ops, false)) then Panicked
          else if ok then Returned(None) else Returned(Some(RollbackFailed))))
  {
    BodyOutcome(ops, ok);
    ListIsCalm(Registrations(ops, ok), ok);
    ListIsCalm(Registrations(ops, false), false);
  }

  // ---------------------------------------------------------------------------------------
  // Lists and logs

  predicate IsRegistration(op: Op) {
    op.OnCommitted? || op.OnRolledBackOrCommitFailed?
  }

  /** The open prefix is the longest one that only registers callbacks. */
  lemma {:induction false} OpenPrefixIsTheRegistrations(ops: seq<Op>)
    ensures OpenPrefix(ops) <= ops
    ensures forall i :: 0 <= i < |OpenPrefix(ops)| ==> IsRegistration(ops[i])
    ensures |OpenPrefix(ops)| < |ops| ==> !IsRegistration(ops[|OpenPrefix(ops)|])
    decreases ops
  {
    if ops != [] && IsRegistration(ops[0]) {
      OpenPrefixIsTheRegistrations(ops[1..]);
      assert OpenPrefix(ops)[1..] == OpenPrefix(ops[1..]);
    }
  }

  /** The lists keep the order of the registrations, and each callback goes into its own. */
  lemma {:induction false} RegistrationsInOrder(a: seq<Op>, b: seq<Op>, forCommit: bool)
    ensures Registrations(a + b, forCommit) == Registrations(a, forCommit) + Registrations(b, forCommit)
  {
    if a == [] {
      assert a + b == b;
    } else {
      assert (a + b)[0] == a[0] && (a + b)[1..] == a[1..] + b;
      RegistrationsInOrder(a[1..], b, forCommit);
    }
  }

  lemma OneRegistration(op: Op, forCommit: bool)
    ensures Registrations([op], forCommit) ==
      match op {
        case OnCommitted(cb) => if forCommit then [cb] else []
        case OnRolledBackOrCommitFailed(cb) => if forCommit then [] else [cb]
        case _ => []
      }
  {
    assert [op][1..] == [];
  }

  /** Lists of callbacks are called from first to last, each with its own call first, up to a panic. */
  lemma {:induction false} CallsInOrder(a: seq<Callback>, b: seq<Callback>, forCommit: bool)
    ensures FireAll(a + b, forCommit).0 ==
      FireAll(a, forCommit).0 + (if AnyHasPanic(a) then [] else FireAll(b, forCommit).0)
    decreases |a|
  {
    ListIsCalm(a, forCommit);
    if a == [] {
      assert a + b == b;
      assert FireAll(a, forCommit).0 + FireAll(b, forCommit).0 == FireAll(b, forCommit).0;
    } else {
      assert (a + b)[0] == a[0] && (a + b)[1..] == a[1..] + b;
      CallsInOrder(a[1..], b, forCommit);
      ListIsCalm(a[1..], forCommit);
      var first := Fire(a[0], forCommit).0;
      var rest := if FireAll(a[1..], forCommit).1 then FireAll(b, forCommit).0 else [];
      Regroup(first, FireAll(a[1..], forCommit).0, rest);
      assert first + [] == first;
    }
  }

  lemma OneCall(cb: Callback, forCommit: bool)
    ensures FireAll([cb], forCommit).0 == [Called(cb.id, forCommit)] + RunClosed(cb.ops).0
  {
    assert [cb][1..] == [];
    assert Fire(cb, forCommit).0 + [] == Fire(cb, forCommit).0;
  }

  /** What a callback does itself runs in order as well, and a callback that it registers runs at once. */
  lemma {:induction false} OperationsInOrder(a: seq<Op>, b: seq<Op>)
    ensures RunClosed(a + b).0 == RunClosed(a).0 + (if HasPanic(a) then [] else RunClosed(b).0)
    decreases |a|
  {
    ClosedIsCalm(a);
    if a == [] {
      assert a + b == b;
      assert RunClosed(a).0 + RunClosed(b).0 == RunClosed(b).0;
    } else {
      assert (a + b)[0] == a[0] && (a + b)[1..] == a[1..] + b;
      OperationsInOrder(a[1..], b);
      ClosedIsCalm(a[1..]);
      var first := StepClosed(a[0]).0;
      var rest := if RunClosed(a[1..]).1 then RunClosed(b).0 else [];
      Regroup(first, RunClosed(a[1..]).0, rest);
      assert first + [] == first;
    }
  }

  lemma OneOperation(op: Op)
    ensures RunClosed([op]).0 ==
      match op {
        case OnCommitted(cb) => [Called(cb.id, true)] + RunClosed(cb.ops).0
        case OnRolledBackOrCommitFailed(cb) => [Called(cb.id, false)] + RunClosed(cb.ops).0
        case _ => []
      }
  {
    assert [op][1..] == [];
    assert StepClosed(op).0 + [] == StepClosed(op).0;
  }
}
