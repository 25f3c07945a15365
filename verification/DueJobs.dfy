/**
 The dispatcher together with the jobs it is there for: the committed rows that wait for a
 start, the notifications sent for them, the answer of the query in `getPredictedStart`, and
 the timer set from it. The dispatcher's own steps are those of module Dispatcher.
 */
module DueJobs {
  import opened Basics
  import Dispatcher

  type Id = nat
  type Time = int
  type QueueName = Dispatcher.QueueName

  /** A committed row with `started_at is null`. A claim commits only with its result, so jobs in progress count. */
  datatype Due = Due(queue: QueueName, start: Time)

  /**
   `notices` are the queues with a notification that was not delivered yet. `timer` is the time
   the timer was set for, None for the fallback interval. History: `missed` are the queues that
   lost a notification since the last query, `failed` says that the last query failed, and
   `asked` are the rows that it chose from.
   */
  datatype State = State(
    dispatcher: Dispatcher.State, rows: map<Id, Due>, notices: set<QueueName>,
    timer: Option<Time>, missed: set<QueueName>, failed: bool, asked: map<Id, Due>)

  datatype Step =
    | Dispatch(step: Dispatcher.Step)
    | Enqueue(puts: map<Id, Due>)  // a transaction commits its adds, new rows and debounced ones
    | Leave(ids: set<Id>)          // rows completed, by any process
    | Deliver(queue: QueueName)    // one of the above, another process's, or an explicit Notify
    | Lose(queue: QueueName)       // the sender died or could not send, or nobody was listening
    | Query(next: Option<Id>)      // getPredictedStart ends with this row, or with none
    | QueryFails

  const START := State(Dispatcher.START, map[], {}, None, {}, false, map[])

  /** The rows that the query looks at: those of the queues that were not busy. */
  predicate Asked(s: State, id: Id) {
    && id in s.rows
    && s.rows[id].queue in s.dispatcher.listening
    && s.rows[id].queue !in s.dispatcher.busy
  }

  function AskedRows(s: State): map<Id, Due> {
    map id | id in s.rows && Asked(s, id) :: s.rows[id]
  }

  /** `order by min(start_after) ... limit 1`. */
  predicate IsAnswer(s: State, next: Option<Id>) {
    match next
    case None => forall id :: id in s.rows ==> !Asked(s, id)
    case Some(id) =>
      && Asked(s, id)
      && forall other :: other in s.rows && Asked(s, other) ==> s.rows[id].start <= s.rows[other].start
  }

  predicate CanDispatch(s: State, step: Dispatcher.Step) {
    Dispatcher.WellFormed(s.dispatcher) && Dispatcher.Enabled(s.dispatcher, step)
  }

  /** The dispatcher's step inside a step, if there is one. */
  function Inner(s: State, step: Step): Option<Dispatcher.Step> {
    match step
    case Dispatch(inner) => Some(inner)
    case Deliver(queue) => Some(Dispatcher.Notify(queue))
    case Query(Some(id)) => if id in s.rows then Some(Dispatcher.Predict(s.rows[id].queue)) else None
    case Query(None) => Some(Dispatcher.Predict(""))
    case QueryFails => Some(Dispatcher.Predict(""))
    case _ => None
  }

  predicate Enabled(s: State, step: Step) {
    && (Inner(s, step).Some? ==> CanDispatch(s, Inner(s, step).value))
    && match step
       case Dispatch(inner) => !inner.Notify? && !inner.Predict?
       case Query(next) => IsAnswer(s, next)
       case _ => true
  }

  /** The queues whose workers a commit notifies. */
  function Notified(puts: map<Id, Due>): set<QueueName> {
    set id | id in puts :: puts[id].queue
  }

  function Next(s: State, step: Step): State
    requires Enabled(s, step)
  {
    var d := if Inner(s, step).Some? then Dispatcher.Next(s.dispatcher, Inner(s, step).value) else s.dispatcher;
    match step
    case Dispatch(_) => s.(dispatcher := d)
    case Enqueue(puts) => s.(rows := s.rows + puts, notices := s.notices + Notified(puts))
    case Leave(ids) => s.(rows := s.rows - ids)
    case Deliver(queue) => s.(dispatcher := d, notices := s.notices - {queue})
    case Lose(queue) => s.(notices := s.notices - {queue}, missed := s.missed + {queue})
    case Query(next) =>
      s.(dispatcher := d, missed := {}, failed := false, asked := AskedRows(s),
         timer := if next.Some? then Some(s.rows[next.value].start) else None)
    case QueryFails => s.(dispatcher := d, failed := true, timer := None, asked := map[])
  }

  /** The state after a run, when its steps are all enabled. */
  function After(steps: seq<Step>): Option<State> {
    if steps == [] then
      Some(START)
    else
      match After(steps[..|steps| - 1])
      case Some(s) => if Enabled(s, steps[|steps| - 1]) then Some(Next(s, steps[|steps| - 1])) else None
      case None => None
  }

  lemma InnerStepIsTaken(s: State, step: Step)
    requires Enabled(s, step)
    ensures Next(s, step).dispatcher ==
      if Inner(s, step).Some? then Dispatcher.Next(s.dispatcher, Inner(s, step).value) else s.dispatcher
  {
  }

  /** Every run here is a run of the dispatcher, so whatever holds in its runs holds here. */
  lemma {:induction false} RunIsADispatcherRun(steps: seq<Step>, s: State) returns (inner: seq<Dispatcher.Step>)
    requires After(steps) == Some(s)
    ensures Dispatcher.After(inner) == Some(s.dispatcher)
  {
    if steps == [] {
      inner := [];
    } else {
      var step := steps[|steps| - 1];
      var before := After(steps[..|steps| - 1]).value;
      inner := RunIsADispatcherRun(steps[..|steps| - 1], before);
      InnerStepIsTaken(before, step);
      if Inner(before, step).Some? {
        var d;
        inner, d := Dispatcher.Extend(inner, before.dispatcher, Inner(before, step).value);
      }
    }
  }

  // ---------------------------------------------------------------------------------------
  // The timer is set in time

  /** The timer is set no later than the row's start, or the scheduler does not know of the row for a reason. */
  predicate Covered(s: State, row: Due) {
    || s.dispatcher.signal.Some?
    || row.queue in s.notices
    || row.queue in s.missed
    || s.failed
    || (s.timer.Some? && s.timer.value <= row.start)
  }

  predicate StartsFirst(asked: map<Id, Due>, id: Id) {
    id in asked && forall other :: other in asked ==> asked[id].start <= asked[other].start
  }

  /** A row of `queue` that starts no later than any other. */
  ghost predicate MayBeFirst(asked: map<Id, Due>, queue: QueueName) {
    exists id :: StartsFirst(asked, id) && asked[id].queue == queue
  }

  /** A row of `queue` that starts before all rows of other queues. */
  ghost predicate MustBeFirst(asked: map<Id, Due>, queue: QueueName) {
    exists id :: id in asked && asked[id].queue == queue &&
      forall other :: other in asked && asked[other].queue != queue ==> asked[id].start < asked[other].start
  }

  /** The timer and the name that the scheduler keeps are those of an earliest row that the query looked at. */
  predicate TimerIsForTheFirst(s: State) {
    s.timer.Some? ==>
      && (exists id :: id in s.asked && s.asked[id] == Due(s.dispatcher.name, s.timer.value))
      && (forall other :: other in s.asked ==> s.timer.value <= s.asked[other].start)
  }

  /** While the scheduler sleeps, its timer is for the first row and all rows of queues it found free are covered. */
  predicate Inv(s: State) {
    s.dispatcher.scheduler == Dispatcher.Parked ==>
      && TimerIsForTheFirst(s)
      && (s.timer == None ==> s.asked == map[])
      && forall id :: id in s.rows && Asked(s, id) && s.rows[id].queue !in s.dispatcher.dirty ==> Covered(s, s.rows[id])
  }

  /** A step that ends with the scheduler asleep, other than a query, finds it asleep and leaves what it knows. */
  lemma StaysParked(d: Dispatcher.State, step: Dispatcher.Step)
    requires Dispatcher.WellFormed(d) && Dispatcher.Enabled(d, step) && !step.Predict?
    requires Dispatcher.Next(d, step).scheduler == Dispatcher.Parked
    ensures d.scheduler == Dispatcher.Parked
    ensures Dispatcher.Next(d, step).busy == d.busy && Dispatcher.Next(d, step).name == d.name
    ensures d.signal.Some? ==> Dispatcher.Next(d, step).signal.Some?
    ensures d.dirty <= Dispatcher.Next(d, step).dirty
    ensures forall q ::
      q in Dispatcher.Next(d, step).listening ==> q in d.listening || q in Dispatcher.Next(d, step).dirty
  {
  }

  lemma DispatchKeepsInv(s: State, step: Step)
    requires Inv(s) && Enabled(s, step) && (step.Dispatch? || step.Deliver?)
    ensures Inv(Next(s, step))
  {
    var t := Next(s, step);
    if t.dispatcher.scheduler == Dispatcher.Parked {
      StaysParked(s.dispatcher, Inner(s, step).value);
      forall id | id in t.rows && Asked(t, id) && t.rows[id].queue !in t.dispatcher.dirty
        ensures Covered(t, t.rows[id])
      {
        assert Asked(s, id) && Covered(s, s.rows[id]);
      }
    }
  }

  lemma InvKept(s: State, step: Step)
    requires Inv(s) && Enabled(s, step)
    ensures Inv(Next(s, step))
  {
    match step
    case Dispatch(_) => DispatchKeepsInv(s, step);
    case Deliver(_) => DispatchKeepsInv(s, step);
    case Enqueue(puts) => EnqueueKeepsInv(s, puts);
    case Leave(_) => LeaveKeepsInv(s, step);
    case Lose(_) => LeaveKeepsInv(s, step);
    case Query(_) => QueryKeepsInv(s, step);
    case QueryFails => QueryKeepsInv(s, step);
  }

  lemma EnqueueKeepsInv(s: State, puts: map<Id, Due>)
    requires Inv(s)
    ensures Inv(Next(s, Enqueue(puts)))
  {
    var t := Next(s, Enqueue(puts));
    forall id | id in t.rows
      ensures if id in puts then t.rows[id].queue in t.notices else id in s.rows && t.rows[id] == s.rows[id]
    {
      if id in puts {
        assert puts[id].queue in Notified(puts);
      }
    }
    forall id | id in s.rows && id !in puts && Asked(t, id)
      ensures Asked(s, id)
    {
    }
  }

  lemma LeaveKeepsInv(s: State, step: Step)
    requires Inv(s) && Enabled(s, step) && (step.Leave? || step.Lose?)
    ensures Inv(Next(s, step))
  {
    var t := Next(s, step);
    forall id | id in t.rows && Asked(t, id)
      ensures Asked(s, id) && t.rows[id] == s.rows[id]
    {
    }
  }

  /** The query puts the timer at the earliest start among the rows it looks at. */
  lemma QueryKeepsInv(s: State, step: Step)
    requires Enabled(s, step) && (step.Query? || step.QueryFails?)
    ensures Inv(Next(s, step))
  {
    var t := Next(s, step);
    InnerStepIsTaken(s, step);
    forall id | id in t.rows && Asked(t, id)
      ensures Asked(s, id) && t.rows[id] == s.rows[id]
    {
    }
    if step.Query? && step.next.Some? {
      assert t.asked[step.next.value] == Due(t.dispatcher.name, t.timer.value);
    }
  }

  lemma {:induction false} InvAlways(steps: seq<Step>, s: State)
    requires After(steps) == Some(s)
    ensures Inv(s)
  {
    if steps != [] {
      var before := After(steps[..|steps| - 1]).value;
      InvAlways(steps[..|steps| - 1], before);
      InvKept(before, steps[|steps| - 1]);
    }
  }

  /**
   When the scheduler sleeps, nobody is about to wake it and no notification is on its way,
   every waiting job of a queue with a worker has its queue at the limit or the timer set no
   later than its start. What can keep the scheduler from knowing is a slot freed silently, a
   lost notification or a failed query. Which queue the timer leads to is another matter: see
   TimerChecksTheFirstQueue.
   */
  lemma {:induction false} TimerIsSetInTime(steps: seq<Step>, s: State, id: Id)
    requires After(steps) == Some(s) && id in s.rows && s.rows[id].queue in s.dispatcher.listening
    ensures Dispatcher.WellFormed(s.dispatcher)
    ensures var q := s.rows[id].queue; var d := s.dispatcher;
      Dispatcher.Quiet(d) && q !in s.notices && q !in s.missed && q !in d.silent && !s.failed ==>
        Dispatcher.AtLimit(d.infos[d.listening[q]]) || (s.timer.Some? && s.timer.value <= s.rows[id].start)
  {
    InvAlways(steps, s);
    var inner := RunIsADispatcherRun(steps, s);
    Dispatcher.NoLostWakeUp(inner, s.dispatcher);
    if Dispatcher.Quiet(s.dispatcher) && s.rows[id].queue !in s.dispatcher.busy {
      assert Asked(s, id);
    }
  }

  // ---------------------------------------------------------------------------------------
  // The queue that the timer leads to

  predicate ChecksNext(s: State, queue: QueueName)
    requires Enabled(s, Dispatch(Dispatcher.TimerFires))
  {
    Next(s, Dispatch(Dispatcher.TimerFires)).dispatcher.scheduler == Dispatcher.Checking(queue)
  }

  predicate NoTies(asked: map<Id, Due>) {
    forall x, y :: x in asked && y in asked && asked[x].start == asked[y].start ==> asked[x].queue == asked[y].queue
  }

  /**
   A timer set by a query checks only the queue of an earliest row among those that the query
   looked at, jobs in progress included. So it reaches the queue of a waiting row exactly when
   no other queue has a row before all rows of this one; between equal starts the database chooses.
   */
  lemma {:induction false} TimerChecksTheFirstQueue(steps: seq<Step>, s: State, queue: QueueName)
    requires After(steps) == Some(s) && Enabled(s, Dispatch(Dispatcher.TimerFires)) && s.timer.Some?
    requires exists id :: id in s.asked && s.asked[id].queue == queue
    ensures MustBeFirst(s.asked, queue) ==> ChecksNext(s, queue)
    ensures ChecksNext(s, queue) ==> MayBeFirst(s.asked, queue)
    ensures NoTies(s.asked) ==> (ChecksNext(s, queue) <==> MayBeFirst(s.asked, queue))
  {
    InvAlways(steps, s);
    AskedQueuesAreNamed(steps, s);
    var first :| first in s.asked && s.asked[first] == Due(s.dispatcher.name, s.timer.value);
    OrderOfTheFirst(s.asked, first, queue);
  }

  /** What the earliest row says about which queues may and must be first. */
  lemma OrderOfTheFirst(asked: map<Id, Due>, first: Id, queue: QueueName)
    requires StartsFirst(asked, first)
    ensures MustBeFirst(asked, queue) ==> asked[first].queue == queue
    ensures asked[first].queue == queue ==> MayBeFirst(asked, queue)
    ensures NoTies(asked) && MayBeFirst(asked, queue) ==> asked[first].queue == queue
  {
    assert StartsFirst(asked, first);
    if id :| StartsFirst(asked, id) && asked[id].queue == queue {
      assert asked[id].start == asked[first].start;
    }
  }

  /** The query may answer with any queue that has an earliest row. */
  lemma QueryMayChoose(s: State, queue: QueueName)
    requires Dispatcher.WellFormed(s.dispatcher) && s.dispatcher.scheduler == Dispatcher.Reading({})
    ensures MayBeFirst(AskedRows(s), queue) <==>
      exists id :: id in s.rows && s.rows[id].queue == queue && Enabled(s, Query(Some(id)))
  {
    var asked := AskedRows(s);
    if MayBeFirst(asked, queue) {
      var id :| StartsFirst(asked, id) && asked[id].queue == queue;
      assert forall other :: other in s.rows && Asked(s, other) ==> other in asked;
      assert Enabled(s, Query(Some(id)));
    }
    if id :| id in s.rows && s.rows[id].queue == queue && Enabled(s, Query(Some(id))) {
      assert StartsFirst(asked, id);
    }
  }

  lemma {:induction false} AskedQueuesAreNamed(steps: seq<Step>, s: State)
    requires After(steps) == Some(s)
    ensures forall id :: id in s.asked ==> s.asked[id].queue != ""
  {
    if steps != [] {
      var before := After(steps[..|steps| - 1]).value;
      AskedQueuesAreNamed(steps[..|steps| - 1], before);
      var inner := RunIsADispatcherRun(steps[..|steps| - 1], before);
      Dispatcher.QueuesAreNamed(inner, before.dispatcher);
    }
  }

  // ---------------------------------------------------------------------------------------
  // What can keep the scheduler from knowing

  lemma NothingLost(s: State, step: Step)
    requires Enabled(s, step) && !step.Lose? && !step.QueryFails? && s.missed == {} && !s.failed
    ensures Next(s, step).missed == {} && !Next(s, step).failed
  {
  }

  /** Without lost notifications and failed queries there is nothing that the scheduler has missed. */
  lemma {:induction false} MissingHasACause(steps: seq<Step>, s: State)
    requires After(steps) == Some(s)
    requires forall step :: step in steps ==> !step.Lose? && !step.QueryFails?
    ensures s.missed == {} && !s.failed
  {
    if steps != [] {
      var init, step := steps[..|steps| - 1], steps[|steps| - 1];
      assert step in steps && forall x :: x in init ==> x in steps;
      MissingHasACause(init, After(init).value);
      NothingLost(After(init).value, step);
    }
  }

  // ---------------------------------------------------------------------------------------
  // Which rows wait

  predicate ChangesRow(step: Step, id: Id) {
    (step.Enqueue? && id in step.puts) || (step.Leave? && id in step.ids)
  }

  lemma OthersKeepTheRow(s: State, step: Step, id: Id)
    requires Enabled(s, step) && !ChangesRow(step, id)
    ensures id in Next(s, step).rows <==> id in s.rows
    ensures id in s.rows ==> Next(s, step).rows[id] == s.rows[id]
  {
  }

  /** A row waits as the last commit of it said, from that commit until it leaves. */
  lemma {:induction false} RowsWaitAsCommitted(steps: seq<Step>, s: State, n: nat, id: Id)
    requires After(steps) == Some(s) && n < |steps| && ChangesRow(steps[n], id)
    requires forall m :: n < m < |steps| ==> !ChangesRow(steps[m], id)
    ensures steps[n].Enqueue? ==> id in s.rows && s.rows[id] == steps[n].puts[id]
    ensures steps[n].Leave? ==> id !in s.rows
  {
    var init, step := steps[..|steps| - 1], steps[|steps| - 1];
    if n < |init| {
      RowsWaitAsCommitted(init, After(init).value, n, id);
      OthersKeepTheRow(After(init).value, step, id);
    }
  }
}
