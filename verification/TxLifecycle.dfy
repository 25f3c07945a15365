/**
 The transaction object: `txInfo` with its callback lists, `Commit`, `Rollback`, the cleanup
 of `BeginTx2`, and `WithTx2`. Callbacks and transaction bodies are programs over the same
 operations, so re-entrant ones are covered, and any of them may panic.
 */
module TxLifecycle {
  import opened Basics

  /** A callback: when called it leaves its mark in the log and then performs its operations. */
  datatype Callback = Callback(id: nat, ops: seq<Op>)

  datatype Op =
    | OnCommitted(callback: Callback)                    // OnTransactionCommitted
    | OnRolledBackOrCommitFailed(callback: Callback)     // OnTransactionRolledBackOrCommitFailed
    | CallCommit
    | CallRollback
    | Panic

  /** A call is marked by the list that its callback was registered for. */
  datatype Event = DriverCommit(ok: bool) | DriverRollback(ok: bool) | Called(id: nat, forCommit: bool)

  datatype Error = AlreadyClosed | CommitFailed | RollbackFailed | BodyFailed | BeginFailed

  /** How a call is left: it returns an error or nil, or it panics. */
  datatype Outcome = Returned(error: Option<Error>) | Panicked

  // ---------------------------------------------------------------------------------------
  // Closed transactions: every registration fires at once, every close is refused

  /** The calls made by running `ops` on a closed transaction, and whether they end without a panic. */
  function RunClosed(ops: seq<Op>): (seq<Event>, bool) {
    if ops == [] then ([], true)
    else
      var (first, ok) := StepClosed(ops[0]);
      if !ok then (first, false)
      else
        var (rest, done) := RunClosed(ops[1..]);
        (first + rest, done)
  }

  function StepClosed(op: Op): (seq<Event>, bool) {
    match op
    case OnCommitted(cb) => Fire(cb, true)
    case OnRolledBackOrCommitFailed(cb) => Fire(cb, false)
    case Panic => ([], false)
    case _ => ([], true)
  }

  function Fire(cb: Callback, forCommit: bool): (seq<Event>, bool) {
    var (events, ok) := RunClosed(cb.ops);
    ([Called(cb.id, forCommit)] + events, ok)
  }

  /** The loop over a callback list; a panic ends it. */
  function FireAll(cbs: seq<Callback>, forCommit: bool): (seq<Event>, bool) {
    if cbs == [] then ([], true)
    else
      var (first, ok) := Fire(cbs[0], forCommit);
      if !ok then (first, false)
      else
        var (rest, done) := FireAll(cbs[1..], forCommit);
        (first + rest, done)
  }

  // ---------------------------------------------------------------------------------------
  // The object

  datatype Tx = Tx(
    commitCalled: bool, rollbackCalled: bool,
    onCommit: seq<Callback>, onRollback: seq<Callback>, log: seq<Event>)

  const FRESH := Tx(false, false, [], [], [])

  /** `Commit`; `ok` is the driver's answer. */
  function Committed(tx: Tx, ok: bool): (Tx, Outcome) {
    if tx.commitCalled then (tx, Returned(Some(AlreadyClosed)))
    else
      var (events, done) := FireAll(if ok then tx.onCommit else tx.onRollback, ok);
      (tx.(commitCalled := true, log := tx.log + [DriverCommit(ok)] + events),
       if !done then Panicked else if ok then Returned(None) else Returned(Some(CommitFailed)))
  }

  /** `Rollback`. */
  function RolledBack(tx: Tx, ok: bool): (Tx, Outcome) {
    if tx.commitCalled then (tx, Returned(Some(AlreadyClosed)))
    else
      var (events, done) := FireAll(tx.onRollback, false);
      (tx.(commitCalled := true, rollbackCalled := true, log := tx.log + [DriverRollback(ok)] + events),
       if !done then Panicked else if ok then Returned(None) else Returned(Some(RollbackFailed)))
  }

  function Registered(tx: Tx, op: Op): (Tx, bool)
    requires op.OnCommitted? || op.OnRolledBackOrCommitFailed?
  {
    if tx.commitCalled then
      var (events, ok) := Fire(op.callback, op.OnCommitted?);
      (tx.(log := tx.log + events), ok)
    else if op.OnCommitted? then
      (tx.(onCommit := tx.onCommit + [op.callback]), true)
    else
      (tx.(onRollback := tx.onRollback + [op.callback]), true)
  }

  /** One operation of a body; false when it panics. */
  function Performed(tx: Tx, op: Op, ok: bool): (Tx, bool) {
    match op
    case CallCommit => (Committed(tx, ok).0, Committed(tx, ok).1.Returned?)
    case CallRollback => (RolledBack(tx, ok).0, RolledBack(tx, ok).1.Returned?)
    case Panic => (tx, false)
    case _ => Registered(tx, op)
  }

  /** The operations of a body, in order, until one panics. */
  function Ran(tx: Tx, ops: seq<Op>, ok: bool): (Tx, bool)
    decreases ops
  {
    if ops == [] then (tx, true)
    else
      var (next, done) := Performed(tx, ops[0], ok);
      if !done then (next, false) else Ran(next, ops[1..], ok)
  }

  /** `WithTx2` after a successful begin; the body performs `ops` and then returns `error`. */
  function WithTx(ops: seq<Op>, error: Option<Error>, ok: bool): (Tx, Outcome) {
    var (tx, done) := Ran(FRESH, ops, ok);
    if done && error == None then
      var (closed, outcome) := Committed(tx, ok);
      (CleanedUp(closed, ok).0, outcome)
    else
      var (closed, calm) := CleanedUp(tx, ok);
      (closed, if done && calm then Returned(error) else Panicked)
  }

  /** The cleanup of `BeginTx2`; false when a callback panics in it. */
  function CleanedUp(tx: Tx, ok: bool): (Tx, bool) {
    if tx.commitCalled || tx.rollbackCalled then (tx, true)
    else (RolledBack(tx, ok).0, RolledBack(tx, ok).1.Returned?)
  }

  lemma Regroup(a: seq<Event>, b: seq<Event>, c: seq<Event>)
    ensures a + b + c == a + (b + c)
  {
  }

  class TxInfo {
    var commitCalled: bool
    var rollbackCalled: bool
    var commitCallbacks: seq<Callback>
    var rollbackOrCommitErrCallbacks: seq<Callback>
    /** What happened so far, driver calls and callbacks. */
    var log: seq<Event>
    /** The driver's answer to a commit or a rollback. */
    const driverOk: bool

    function Abs(): Tx
      reads this
    {
      Tx(commitCalled, rollbackCalled, commitCallbacks, rollbackOrCommitErrCallbacks, log)
    }

    /** `BeginTx2`, once the driver has begun. */
    constructor (driverOk: bool)
      ensures Abs() == FRESH && this.driverOk == driverOk
    {
      this.driverOk := driverOk;
      commitCalled, rollbackCalled := false, false;
      commitCallbacks, rollbackOrCommitErrCallbacks, log := [], [], [];
    }

    /** Calls a callback of a closed transaction. */
    method Call(cb: Callback, forCommit: bool) returns (ok: bool)
      requires commitCalled
      modifies this
      ensures Abs() == old(Abs()).(log := old(log) + Fire(cb, forCommit).0) && ok == Fire(cb, forCommit).1
      decreases cb, 0
    {
      Regroup(log, [Called(cb.id, forCommit)], RunClosed(cb.ops).0);
      log := log + [Called(cb.id, forCommit)];
      var i := 0;
      while i < |cb.ops|
        invariant i <= |cb.ops|
        invariant Abs() == old(Abs()).(log := log)
        invariant log + RunClosed(cb.ops[i..]).0 == old(log) + Fire(cb, forCommit).0
        invariant RunClosed(cb.ops[i..]).1 == Fire(cb, forCommit).1
      {
        var op := cb.ops[i];
        ghost var before := log;
        assert cb.ops[i..][0] == op && cb.ops[i..][1..] == cb.ops[i + 1..];
        ok := true;
        match op {
          case OnCommitted(inner) => ok := Call(inner, true);
          case OnRolledBackOrCommitFailed(inner) => ok := Call(inner, false);
          case Panic => ok := false;
          case _ =>
        }
        assert log == before + StepClosed(op).0 && ok == StepClosed(op).1;
        if !ok {
          return false;
        }
        Regroup(before, StepClosed(op).0, RunClosed(cb.ops[i + 1..]).0);
        i := i + 1;
      }
      return true;
    }

    /** Calls the callbacks of a list in order. */
    method CallAll(cbs: seq<Callback>, forCommit: bool) returns (ok: bool)
      requires commitCalled
      modifies this
      ensures Abs() == old(Abs()).(log := old(log) + FireAll(cbs, forCommit).0) && ok == FireAll(cbs, forCommit).1
    {
      var i := 0;
      while i < |cbs|
        invariant i <= |cbs|
        invariant Abs() == old(Abs()).(log := log)
        invariant log + FireAll(cbs[i..], forCommit).0 == old(log) + FireAll(cbs, forCommit).0
        invariant FireAll(cbs[i..], forCommit).1 == FireAll(cbs, forCommit).1
      {
        ghost var before := log;
        assert cbs[i..][0] == cbs[i] && cbs[i..][1..] == cbs[i + 1..];
        ok := Call(cbs[i], forCommit);
        assert log == before + Fire(cbs[i], forCommit).0;
        if !ok {
          return false;
        }
        Regroup(before, Fire(cbs[i], forCommit).0, FireAll(cbs[i + 1..], forCommit).0);
        i := i + 1;
      }
      return true;
    }

    method Commit() returns (r: Outcome)
      modifies this
      ensures (Abs(), r) == Committed(old(Abs()), driverOk)
    {
      if commitCalled {
        return Returned(Some(AlreadyClosed));
      }
      commitCalled := true;
      log := log + [DriverCommit(driverOk)];
      if !driverOk {
        var ok := CallAll(rollbackOrCommitErrCallbacks, false);
        return if ok then Returned(Some(CommitFailed)) else Panicked;
      }
      var ok := CallAll(commitCallbacks, true);
      return if ok then Returned(None) else Panicked;
    }

    method Rollback() returns (r: Outcome)
      modifies this
      ensures (Abs(), r) == RolledBack(old(Abs()), driverOk)
    {
      if commitCalled {
        return Returned(Some(AlreadyClosed));
      }
      commitCalled := true;
      rollbackCalled := true;
      log := log + [DriverRollback(driverOk)];
      var ok := CallAll(rollbackOrCommitErrCallbacks, false);
      return if !ok then Panicked else if driverOk then Returned(None) else Returned(Some(RollbackFailed));
    }

    method OnTransactionCommitted(cb: Callback) returns (ok: bool)
      modifies this
      ensures (Abs(), ok) == Registered(old(Abs()), OnCommitted(cb))
    {
      if commitCalled {
        ok := Call(cb, true);
        return;
      }
      commitCallbacks := commitCallbacks + [cb];
      return true;
    }

    method OnTransactionRolledBackOrCommitFailed(cb: Callback) returns (ok: bool)
      modifies this
      ensures (Abs(), ok) == Registered(old(Abs()), OnRolledBackOrCommitFailed(cb))
    {
      if commitCalled {
        ok := Call(cb, false);
        return;
      }
      rollbackOrCommitErrCallbacks := rollbackOrCommitErrCallbacks + [cb];
      return true;
    }

    method Cleanup() returns (ok: bool)
      modifies this
      ensures (Abs(), ok) == CleanedUp(old(Abs()), driverOk)
    {
      if commitCalled {
        return true;
      }
      if rollbackCalled {
        return true;
      }
      var r := Rollback();
      return r.Returned?;
    }

    /** A body: its operations in order, until one panics. */
    method Run(ops: seq<Op>) returns (ok: bool)
      modifies this
      ensures (Abs(), ok) == Ran(old(Abs()), ops, driverOk)
    {
      var i := 0;
      while i < |ops|
        invariant i <= |ops|
        invariant Ran(Abs(), ops[i..], driverOk) == Ran(old(Abs()), ops, driverOk)
      {
        assert ops[i..][0] == ops[i] && ops[i..][1..] == ops[i + 1..];
        ok := true;
        match ops[i] {
          case OnCommitted(cb) => ok := OnTransactionCommitted(cb);
          case OnRolledBackOrCommitFailed(cb) => ok := OnTransactionRolledBackOrCommitFailed(cb);
          case CallCommit => var r := Commit(); ok := r.Returned?;
          case CallRollback => var r := Rollback(); ok := r.Returned?;
          case Panic => ok := false;
        }
        if !ok {
          return false;
        }
        i := i + 1;
      }
      return true;
    }
  }

  /** `WithTx2`; None for the transaction when the begin fails. */
  method WithTx2(beginOk: bool, driverOk: bool, ops: seq<Op>, error: Option<Error>)
    returns (tx: Option<Tx>, r: Outcome)
    ensures !beginOk ==> tx == None && r == Returned(Some(BeginFailed))
    ensures beginOk ==> tx.Some? && (tx.value, r) == WithTx(ops, error, driverOk)
  {
    if !beginOk {
      return None, Returned(Some(BeginFailed));
    }
    var info := new TxInfo(driverOk);
    var done := info.Run(ops);
    if done && error == None {
      r := info.Commit();
    } else {
      r := if done then Returned(error) else Panicked;
    }
    var calm := info.Cleanup();
    if !calm {
      r := Panicked;
    }
    tx := Some(info.Abs());
  }

  // ---------------------------------------------------------------------------------------
  // Main results

  /** The operations before the first close or panic. */
  function OpenPrefix(ops: seq<Op>): seq<Op> {
    if ops == [] || ops[0].CallCommit? || ops[0].CallRollback? || ops[0].Panic? then []
    else [ops[0]] + OpenPrefix(ops[1..])
  }

  /** The callbacks that `ops` registers for a successful commit, or for any other end, in order. */
  function Registrations(ops: seq<Op>, forCommit: bool): seq<Callback> {
    if ops == [] then []
    else if forCommit && ops[0].OnCommitted? then [ops[0].callback] + Registrations(ops[1..], forCommit)
    else if !forCommit && ops[0].OnRolledBackOrCommitFailed? then [ops[0].callback] + Registrations(ops[1..], forCommit)
    else Registrations(ops[1..], forCommit)
  }

  lemma {:induction false} RanClosed(tx: Tx, ops: seq<Op>, ok: bool)
    requires tx.commitCalled
    ensures Ran(tx, ops, ok) == (tx.(log := tx.log + RunClosed(ops).0), RunClosed(ops).1)
    decreases ops
  {
    if ops == [] {
      assert tx.log + [] == tx.log;
    } else {
      var (next, done) := Performed(tx, ops[0], ok);
      assert next == tx.(log := tx.log + StepClosed(ops[0]).0) && done == StepClosed(ops[0]).1;
      RanClosed(next, ops[1..], ok);
      assert tx.log + (StepClosed(ops[0]).0 + RunClosed(ops[1..]).0) == next.log + RunClosed(ops[1..]).0;
    }
  }

  /** While the transaction is open a body only collects callbacks. */
  lemma {:induction false} RanOpen(tx: Tx, ops: seq<Op>, ok: bool)
    requires !tx.commitCalled
    ensures |OpenPrefix(ops)| <= |ops|
    ensures var p := OpenPrefix(ops);
      Ran(tx, ops, ok) == Ran(tx.(onCommit := tx.onCommit + Registrations(p, true),
                                  onRollback := tx.onRollback + Registrations(p, false)), ops[|p|..], ok)
    decreases ops
  {
    var p := OpenPrefix(ops);
    if p == [] {
      assert tx.onCommit + [] == tx.onCommit && tx.onRollback + [] == tx.onRollback;
      assert ops[0..] == ops;
    } else {
      var q := OpenPrefix(ops[1..]);
      assert p == [ops[0]] + q && p[1..] == q;
      var next := Performed(tx, ops[0], ok).0;
      RanOpen(next, ops[1..], ok);
      assert ops[1..][|q|..] == ops[|p|..];
      RegistrationsStep(tx, ops[0], q, ok);
    }
  }

  /** Performing a registration and then collecting the others is collecting them all. */
  lemma RegistrationsStep(tx: Tx, op: Op, rest: seq<Op>, ok: bool)
    requires !tx.commitCalled && (op.OnCommitted? || op.OnRolledBackOrCommitFailed?)
    ensures Performed(tx, op, ok).1
    ensures var next := Performed(tx, op, ok).0;
      tx.(onCommit := tx.onCommit + Registrations([op] + rest, true),
          onRollback := tx.onRollback + Registrations([op] + rest, false))
      == next.(onCommit := next.onCommit + Registrations(rest, true),
               onRollback := next.onRollback + Registrations(rest, false))
  {
    assert ([op] + rest)[1..] == rest;
    var next := Performed(tx, op, ok).0;
    assert tx.onCommit + Registrations([op] + rest, true) == next.onCommit + Registrations(rest, true);
    assert tx.onRollback + Registrations([op] + rest, false) == next.onRollback + Registrations(rest, false);
  }

  /** The driver call that closes the transaction of a body: its own close, or else that of WithTx2. */
  function Closing(ops: seq<Op>, error: Option<Error>, ok: bool): Event
    requires |OpenPrefix(ops)| <= |ops|
  {
    var n := |OpenPrefix(ops)|;
    var commits := if n < |ops| then ops[n] == CallCommit else error == None;
    if commits then DriverCommit(ok) else DriverRollback(ok)
  }

  /** The operations a body performs after closing its own transaction. */
  function LateOps(ops: seq<Op>): seq<Op> {
    var n := |OpenPrefix(ops)|;
    if n < |ops| && (ops[n].CallCommit? || ops[n].CallRollback?) then ops[n + 1..] else []
  }

  /** What a transaction does after its driver call. */
  function AfterClosing(ops: seq<Op>, error: Option<Error>, ok: bool): seq<Event>
    requires |OpenPrefix(ops)| <= |ops|
  {
    var commits := Closing(ops, error, ok) == DriverCommit(true);
    var (fired, done) := FireAll(Registrations(OpenPrefix(ops), commits), commits);
    fired + (if done then RunClosed(LateOps(ops)).0 else [])
  }

  /**
   The whole life of a transaction under WithTx2, for every body and driver answer: one driver
   call, then the callbacks registered before it from the list that matches its outcome, then
   whatever the body still does.
   */
  lemma LifeOfATransaction(ops: seq<Op>, error: Option<Error>, ok: bool)
    ensures |OpenPrefix(ops)| <= |ops|
    ensures WithTx(ops, error, ok).0.log == [Closing(ops, error, ok)] + AfterClosing(ops, error, ok)
  {
    PrefixStopsAtClose(ops);
    var n := |OpenPrefix(ops)|;
    if n == |ops| || ops[n].Panic? {
      WithTxCloses(ops, error, ok);
    } else {
      BodyCloses(ops, error, ok);
    }
  }

  /** The body leaves the transaction open: WithTx2 closes it. */
  lemma WithTxCloses(ops: seq<Op>, error: Option<Error>, ok: bool)
    requires |OpenPrefix(ops)| <= |ops| && (|OpenPrefix(ops)| < |ops| ==> ops[|OpenPrefix(ops)|].Panic?)
    ensures WithTx(ops, error, ok).0.log == [Closing(ops, error, ok)] + AfterClosing(ops, error, ok)
  {
    var tx := RanFromStart(ops, ok);
    var closing := Closing(ops, error, ok);
    var fired := FireAll(if closing == DriverCommit(true) then tx.onCommit else tx.onRollback,
                         closing == DriverCommit(true)).0;
    assert LateOps(ops) == [];
    assert [] + [closing] + fired == [closing] + (fired + []);
  }

  /** The body closes it itself, and may go on. */
  lemma BodyCloses(ops: seq<Op>, error: Option<Error>, ok: bool)
    requires |OpenPrefix(ops)| < |ops| && !ops[|OpenPrefix(ops)|].Panic?
    ensures WithTx(ops, error, ok).0.log == [Closing(ops, error, ok)] + AfterClosing(ops, error, ok)
  {
    var tx := RanFromStart(ops, ok);
    var n := |OpenPrefix(ops)|;
    var (next, done) := Performed(tx, ops[n], ok);
    var closing, late := Closing(ops, error, ok), RunClosed(LateOps(ops)).0;
    var fired := FireAll(if closing == DriverCommit(true) then tx.onCommit else tx.onRollback,
                         closing == DriverCommit(true)).0;
    assert next.log == [closing] + fired by {
      assert [] + [closing] == [closing];
    }
    assert WithTx(ops, error, ok).0.log == if done then next.log + late else next.log;
    Regroup([closing], fired, late);
    assert fired + [] == fired;
  }

  /** A body from the start: it collects callbacks, then closes the transaction, panics or ends. */
  lemma RanFromStart(ops: seq<Op>, ok: bool) returns (tx: Tx)
    ensures |OpenPrefix(ops)| <= |ops|
    ensures tx == FRESH.(onCommit := Registrations(OpenPrefix(ops), true),
                         onRollback := Registrations(OpenPrefix(ops), false))
    ensures var n := |OpenPrefix(ops)|;
      if n == |ops| then Ran(FRESH, ops, ok) == (tx, true)
      else if ops[n].Panic? then Ran(FRESH, ops, ok) == (tx, false)
      else
        && (ops[n].CallCommit? || ops[n].CallRollback?)
        && var (next, done) := Performed(tx, ops[n], ok);
           next.commitCalled &&
           Ran(FRESH, ops, ok) == if !done then (next, false)
                                  else (next.(log := next.log + RunClosed(ops[n + 1..]).0), RunClosed(ops[n + 1..]).1)
  {
    var p := OpenPrefix(ops);
    RanOpen(FRESH, ops, ok);
    PrefixStopsAtClose(ops);
    tx := FRESH.(onCommit := Registrations(p, true), onRollback := Registrations(p, false));
    assert [] + Registrations(p, true) == Registrations(p, true);
    assert [] + Registrations(p, false) == Registrations(p, false);
    if |p| < |ops| {
      assert ops[|p|..][0] == ops[|p|] && ops[|p|..][1..] == ops[|p| + 1..];
      if !ops[|p|].Panic? {
        RanClosed(Performed(tx, ops[|p|], ok).0, ops[|p| + 1..], ok);
      }
    }
  }

  lemma {:induction false} PrefixStopsAtClose(ops: seq<Op>)
    ensures |OpenPrefix(ops)| <= |ops|
    ensures var n := |OpenPrefix(ops)|;
      n < |ops| ==> ops[n].CallCommit? || ops[n].CallRollback? || ops[n].Panic?
    decreases ops
  {
    if OpenPrefix(ops) != [] {
      PrefixStopsAtClose(ops[1..]);
    }
  }

  predicate IsDriver(e: Event) {
    !e.Called?
  }

  function DriverCalls(log: seq<Event>): nat {
    if log == [] then 0 else (if IsDriver(log[0]) then 1 else 0) + DriverCalls(log[1..])
  }

  lemma {:induction false} DriverCallsAppend(a: seq<Event>, b: seq<Event>)
    ensures DriverCalls(a + b) == DriverCalls(a) + DriverCalls(b)
  {
    if a == [] {
      assert a + b == b;
    } else {
      assert (a + b)[1..] == a[1..] + b;
      DriverCallsAppend(a[1..], b);
    }
  }

  /** Nothing that runs on a closed transaction reaches the driver. */
  lemma {:induction false} ClosedNeverReachesTheDriver(ops: seq<Op>)
    ensures DriverCalls(RunClosed(ops).0) == 0
    decreases ops
  {
    if ops != [] {
      StepNeverReachesTheDriver(ops[0]);
      ClosedNeverReachesTheDriver(ops[1..]);
      DriverCallsAppend(StepClosed(ops[0]).0, RunClosed(ops[1..]).0);
    }
  }

  lemma {:induction false} StepNeverReachesTheDriver(op: Op)
    ensures DriverCalls(StepClosed(op).0) == 0
    decreases op
  {
    if op.OnCommitted? || op.OnRolledBackOrCommitFailed? {
      FireNeverReachesTheDriver(op.callback, op.OnCommitted?);
    }
  }

  lemma {:induction false} FireNeverReachesTheDriver(cb: Callback, forCommit: bool)
    ensures DriverCalls(Fire(cb, forCommit).0) == 0
    decreases cb
  {
    ClosedNeverReachesTheDriver(cb.ops);
    DriverCallsAppend([Called(cb.id, forCommit)], RunClosed(cb.ops).0);
  }

  lemma {:induction false} FireAllNeverReachesTheDriver(cbs: seq<Callback>, forCommit: bool)
    ensures DriverCalls(FireAll(cbs, forCommit).0) == 0
  {
    if cbs != [] {
      FireNeverReachesTheDriver(cbs[0], forCommit);
      FireAllNeverReachesTheDriver(cbs[1..], forCommit);
      DriverCallsAppend(Fire(cbs[0], forCommit).0, FireAll(cbs[1..], forCommit).0);
    }
  }

  /** Any operations on an open or closed transaction make at most one driver call, and close it by that call. */
  lemma {:induction false} DriverIsClosedAtMostOnce(tx: Tx, ops: seq<Op>, ok: bool)
    requires DriverCalls(tx.log) == if tx.commitCalled then 1 else 0
    ensures DriverCalls(Ran(tx, ops, ok).0.log) == if Ran(tx, ops, ok).0.commitCalled then 1 else 0
    decreases ops
  {
    if ops != [] {
      OneCallKeepsCount(tx, ops[0], ok);
      DriverIsClosedAtMostOnce(Performed(tx, ops[0], ok).0, ops[1..], ok);
    }
  }

  lemma OneCallKeepsCount(tx: Tx, op: Op, ok: bool)
    requires DriverCalls(tx.log) == if tx.commitCalled then 1 else 0
    ensures DriverCalls(Performed(tx, op, ok).0.log) == if Performed(tx, op, ok).0.commitCalled then 1 else 0
  {
    match op
    case CallCommit =>
      var cbs := if ok then tx.onCommit else tx.onRollback;
      FireAllNeverReachesTheDriver(cbs, ok);
      DriverCallsAppend(tx.log + [DriverCommit(ok)], FireAll(cbs, ok).0);
      DriverCallsAppend(tx.log, [DriverCommit(ok)]);
    case CallRollback =>
      FireAllNeverReachesTheDriver(tx.onRollback, false);
      DriverCallsAppend(tx.log + [DriverRollback(ok)], FireAll(tx.onRollback, false).0);
      DriverCallsAppend(tx.log, [DriverRollback(ok)]);
    case Panic =>
    case _ =>
      FireNeverReachesTheDriver(op.callback, op.OnCommitted?);
      DriverCallsAppend(tx.log, Fire(op.callback, op.OnCommitted?).0);
  }

  /** However WithTx2 is left, by return, error or panic, the driver was closed exactly once. */
  lemma WithTxClosesExactlyOnce(ops: seq<Op>, error: Option<Error>, ok: bool)
    ensures DriverCalls(WithTx(ops, error, ok).0.log) == 1
  {
    var (tx, done) := Ran(FRESH, ops, ok);
    DriverIsClosedAtMostOnce(FRESH, ops, ok);
    RollbackFlagMeansClosed(FRESH, ops, ok);
    OneCallKeepsCount(tx, CallCommit, ok);
    OneCallKeepsCount(tx, CallRollback, ok);
  }

  lemma {:induction false} RollbackFlagMeansClosed(tx: Tx, ops: seq<Op>, ok: bool)
    requires tx.rollbackCalled ==> tx.commitCalled
    ensures Ran(tx, ops, ok).0.rollbackCalled ==> Ran(tx, ops, ok).0.commitCalled
    decreases ops
  {
    if ops != [] {
      RollbackFlagMeansClosed(Performed(tx, ops[0], ok).0, ops[1..], ok);
    }
  }

  /** The callbacks of a list run in order, each at most once: all of them, or up to the first that panics. */
  lemma {:induction false} CallbacksRunInOrder(cbs: seq<Callback>, forCommit: bool) returns (n: nat)
    ensures n <= |cbs| && FireAll(cbs, forCommit).0 == Concat(cbs[..n], forCommit)
    ensures FireAll(cbs, forCommit).1 <==> n == |cbs| && forall i :: 0 <= i < n ==> Fire(cbs[i], forCommit).1
    ensures !FireAll(cbs, forCommit).1 ==>
      n > 0 && !Fire(cbs[n - 1], forCommit).1 && forall i :: 0 <= i < n - 1 ==> Fire(cbs[i], forCommit).1
  {
    if cbs == [] {
      n := 0;
    } else if !Fire(cbs[0], forCommit).1 {
      n := 1;
      assert cbs[..1] == [cbs[0]];
      assert Concat(cbs[..1][1..], forCommit) == [];
    } else {
      n := CallbacksRunInOrder(cbs[1..], forCommit);
      n := n + 1;
      assert cbs[..n][1..] == cbs[1..][..n - 1];
      assert forall i :: 1 <= i < |cbs| ==> cbs[i] == cbs[1..][i - 1];
    }
  }

  /** One call after another, each to its end or its panic. */
  function Concat(cbs: seq<Callback>, forCommit: bool): seq<Event> {
    if cbs == [] then [] else Fire(cbs[0], forCommit).0 + Concat(cbs[1..], forCommit)
  }

  /**
   A nil result means that the driver committed, in WithTx2 itself: it is returned exactly
   when the body neither closed nor panicked, returned nil, the driver agreed, and no commit
   callback panicked.
   */
  lemma NilMeansCommitted(ops: seq<Op>, error: Option<Error>, ok: bool)
    ensures WithTx(ops, error, ok).1 == Returned(None) <==>
      OpenPrefix(ops) == ops && error == None && ok && FireAll(Registrations(ops, true), true).1
    ensures WithTx(ops, error, ok).1 == Returned(None) ==>
      WithTx(ops, error, ok).0.log[..1] == [DriverCommit(true)]
  {
    LifeOfATransaction(ops, error, ok);
    PrefixIsPrefix(ops);
    var tx := RanFromStart(ops, ok);
  }

  lemma {:induction false} PrefixIsPrefix(ops: seq<Op>)
    ensures OpenPrefix(ops) <= ops
    decreases ops
  {
    if OpenPrefix(ops) != [] {
      PrefixIsPrefix(ops[1..]);
    }
  }

  lemma {:induction false} RanAppend(tx: Tx, ops: seq<Op>, more: seq<Op>, ok: bool)
    ensures var (next, done) := Ran(tx, ops, ok);
      Ran(tx, ops + more, ok) == if done then Ran(next, more, ok) else (next, false)
    decreases ops
  {
    if ops == [] {
      assert ops + more == more;
    } else {
      assert (ops + more)[1..] == ops[1..] + more;
      RanAppend(Performed(tx, ops[0], ok).0, ops[1..], more, ok);
    }
  }

  // ---------------------------------------------------------------------------------------
  // Late registrations, and commit callbacks without a commit

  /** The registration of `cb` for a commit, or for any other end. */
  function Registration(cb: Callback, forCommit: bool): Op {
    if forCommit then OnCommitted(cb) else OnRolledBackOrCommitFailed(cb)
  }

  /** A callback that a body registers runs at once exactly when the body has closed the transaction before. */
  lemma LateRegistrationsRunAtOnce(ops: seq<Op>, cb: Callback, ok: bool, forCommit: bool)
    requires Ran(FRESH, ops, ok).1
    ensures |OpenPrefix(ops)| <= |ops|
    ensures var (tx, late) := (Ran(FRESH, ops, ok).0, Ran(FRESH, ops + [Registration(cb, forCommit)], ok).0);
      late.log == tx.log + (if |OpenPrefix(ops)| < |ops| then Fire(cb, forCommit).0 else [])
  {
    var late := Registration(cb, forCommit);
    var tx := RanFromStart(ops, ok);
    RanAppend(FRESH, ops, [late], ok);
    assert [late][1..] == [];
    assert tx.log + [] == tx.log;
  }

  predicate HasCall(log: seq<Event>, forCommit: bool) {
    exists e :: e in log && e.Called? && e.forCommit == forCommit
  }

  lemma HasCallAppend(a: seq<Event>, b: seq<Event>, forCommit: bool)
    ensures HasCall(a + b, forCommit) <==> HasCall(a, forCommit) || HasCall(b, forCommit)
  {
    assert forall e :: e in a + b <==> e in a || e in b;
  }

  /** Running `ops` on a closed transaction comes to a registration for a commit. */
  predicate ReachesCommitCallback(ops: seq<Op>) {
    ops != [] && (StepReaches(ops[0]) || (StepClosed(ops[0]).1 && ReachesCommitCallback(ops[1..])))
  }

  predicate StepReaches(op: Op) {
    match op
    case OnCommitted(_) => true
    case OnRolledBackOrCommitFailed(cb) => ReachesCommitCallback(cb.ops)
    case _ => false
  }

  /** One of the callbacks that run before a panic comes to such a registration. */
  predicate AnyReachesCommitCallback(cbs: seq<Callback>) {
    cbs != [] &&
    (ReachesCommitCallback(cbs[0].ops) || (RunClosed(cbs[0].ops).1 && AnyReachesCommitCallback(cbs[1..])))
  }

  lemma {:induction false} ClosedCallsCommitCallbacks(ops: seq<Op>)
    ensures HasCall(RunClosed(ops).0, true) <==> ReachesCommitCallback(ops)
    decreases ops
  {
    if ops != [] {
      StepCallsCommitCallbacks(ops[0]);
      ClosedCallsCommitCallbacks(ops[1..]);
      HasCallAppend(StepClosed(ops[0]).0, RunClosed(ops[1..]).0, true);
    }
  }

  lemma {:induction false} StepCallsCommitCallbacks(op: Op)
    ensures HasCall(StepClosed(op).0, true) <==> StepReaches(op)
    decreases op
  {
    if op.OnCommitted? || op.OnRolledBackOrCommitFailed? {
      FireCallsCommitCallbacks(op.callback, op.OnCommitted?);
    }
  }

  lemma {:induction false} FireCallsCommitCallbacks(cb: Callback, forCommit: bool)
    ensures HasCall(Fire(cb, forCommit).0, true) <==> forCommit || ReachesCommitCallback(cb.ops)
    decreases cb
  {
    ClosedCallsCommitCallbacks(cb.ops);
    HasCallAppend([Called(cb.id, forCommit)], RunClosed(cb.ops).0, true);
    assert Called(cb.id, forCommit) in [Called(cb.id, forCommit)];
  }

  lemma {:induction false} ListCallsCommitCallbacks(cbs: seq<Callback>)
    ensures HasCall(FireAll(cbs, false).0, true) <==> AnyReachesCommitCallback(cbs)
  {
    if cbs != [] {
      FireCallsCommitCallbacks(cbs[0], false);
      ListCallsCommitCallbacks(cbs[1..]);
      HasCallAppend(Fire(cbs[0], false).0, FireAll(cbs[1..], false).0, true);
    }
  }

  lemma {:induction false} NoDriverCallNoCommit(log: seq<Event>)
    requires DriverCalls(log) == 0
    ensures DriverCommit(true) !in log
  {
    if log != [] {
      NoDriverCallNoCommit(log[1..]);
    }
  }

  lemma ThenNoDriverCall(cbs: seq<Callback>, forCommit: bool, ops: seq<Op>)
    ensures DriverCalls(FireAll(cbs, forCommit).0) == 0
    ensures DriverCalls(FireAll(cbs, forCommit).0 + RunClosed(ops).0) == 0
  {
    FireAllNeverReachesTheDriver(cbs, forCommit);
    ClosedNeverReachesTheDriver(ops);
    DriverCallsAppend(FireAll(cbs, forCommit).0, RunClosed(ops).0);
  }

  lemma AfterClosingIsQuiet(ops: seq<Op>, error: Option<Error>, ok: bool)
    requires |OpenPrefix(ops)| <= |ops|
    ensures DriverCalls(AfterClosing(ops, error, ok)) == 0
  {
    var commits := Closing(ops, error, ok) == DriverCommit(true);
    var listed := Registrations(OpenPrefix(ops), commits);
    ThenNoDriverCall(listed, commits, LateOps(ops));
    assert FireAll(listed, commits).0 + [] == FireAll(listed, commits).0;
  }

  /**
   A commit callback is called although the driver did not commit exactly when the closing
   driver call is no successful commit and what runs after it comes to a registration for a
   commit: a rollback callback, or what the body still does.
   */
  lemma CommitCallbackWithoutCommit(ops: seq<Op>, error: Option<Error>, ok: bool)
    ensures |OpenPrefix(ops)| <= |ops|
    ensures
      var log := WithTx(ops, error, ok).0.log;
      var listed := Registrations(OpenPrefix(ops), false);
      HasCall(log, true) && DriverCommit(true) !in log <==>
        && Closing(ops, error, ok) != DriverCommit(true)
        && (AnyReachesCommitCallback(listed) || (FireAll(listed, false).1 && ReachesCommitCallback(LateOps(ops))))
  {
    LifeOfATransaction(ops, error, ok);
    AfterClosingIsQuiet(ops, error, ok);
    var closing, after := Closing(ops, error, ok), AfterClosing(ops, error, ok);
    NoDriverCallNoCommit(after);
    assert closing in [closing] + after;
    HasCallAppend([closing], after, true);
    if closing != DriverCommit(true) {
      var listed := Registrations(OpenPrefix(ops), false);
      var (fired, done) := FireAll(listed, false);
      ListCallsCommitCallbacks(listed);
      ClosedCallsCommitCallbacks(LateOps(ops));
      HasCallAppend(fired, if done then RunClosed(LateOps(ops)).0 else [], true);
    }
  }

  /** A body that closes its transaction and goes on has one driver call in its log, the first entry. */
  lemma BodyClosesOnce(ops: seq<Op>, ok: bool) returns (rest: seq<Event>)
    requires Ran(FRESH, ops, ok).1 && |OpenPrefix(ops)| < |ops|
    ensures Ran(FRESH, ops, ok).0.log == [Closing(ops, None, ok)] + rest && DriverCalls(rest) == 0
  {
    var tx := RanFromStart(ops, ok);
    DriverIsClosedAtMostOnce(FRESH, ops, ok);
    var log := Ran(FRESH, ops, ok).0.log;
    rest := log[1..];
    assert log == [log[0]] + rest;
    DriverCallsAppend([log[0]], rest);
    assert DriverCalls([log[0]]) == 1;
  }

  /** For a body that registers `cb` after `ops`: it must have closed the transaction by anything but a commit. */
  lemma LateCommitCallbackWithoutCommit(ops: seq<Op>, cb: Callback, ok: bool)
    requires Ran(FRESH, ops, ok).1
    ensures |OpenPrefix(ops)| <= |ops|
    ensures
      var before, after := Ran(FRESH, ops, ok).0.log, Ran(FRESH, ops + [OnCommitted(cb)], ok).0.log;
      var n := |OpenPrefix(ops)|;
      after == before + Fire(cb, true).0 && DriverCommit(true) !in after <==>
        n < |ops| && !(ops[n].CallCommit? && ok)
  {
    LateRegistrationsRunAtOnce(ops, cb, ok, true);
    if |OpenPrefix(ops)| < |ops| {
      var rest := BodyClosesOnce(ops, ok);
      FireNeverReachesTheDriver(cb, true);
      DriverCallsAppend(rest, Fire(cb, true).0);
      NoDriverCallNoCommit(rest + Fire(cb, true).0);
      var before := Ran(FRESH, ops, ok).0.log;
      assert before + Fire(cb, true).0 == [Closing(ops, None, ok)] + (rest + Fire(cb, true).0);
    }
  }

  lemma CloseThenRegister(close: Op, cb: Callback, ok: bool)
    requires close.CallCommit? || close.CallRollback?
    requires close.CallCommit? ==> !ok
    ensures WithTx([close, OnCommitted(cb)], None, ok).0.log ==
      [if close.CallCommit? then DriverCommit(ok) else DriverRollback(ok)] + Fire(cb, true).0
  {
    var ops := [close, OnCommitted(cb)];
    LifeOfATransaction(ops, None, ok);
    assert OpenPrefix(ops) == [] && LateOps(ops) == [OnCommitted(cb)];
    assert [OnCommitted(cb)][1..] == [];
    assert RunClosed([OnCommitted(cb)]).0 == Fire(cb, true).0;
    assert [] + Fire(cb, true).0 == Fire(cb, true).0;
  }

  /** Two bodies that call a commit callback without a commit: after a rollback, and after a commit that failed. */
  lemma CommitCallbackAfterRollback(cb: Callback, ok: bool)
    ensures WithTx([CallRollback, OnCommitted(cb)], None, ok).0.log == [DriverRollback(ok)] + Fire(cb, true).0
    ensures WithTx([CallCommit, OnCommitted(cb)], None, false).0.log == [DriverCommit(false)] + Fire(cb, true).0
    ensures Fire(cb, true).0[0] == Called(cb.id, true)
  {
    CloseThenRegister(CallRollback, cb, ok);
    CloseThenRegister(CallCommit, cb, false);
  }
}
