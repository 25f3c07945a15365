/**
 The dispatcher of one process: the scheduler goroutine (`monitorScheduled`, `processWork`,
 `getPredictedStart`), one goroutine per dispatched job, the goroutine that registers
 workers, and the one-slot `signal` channel. A step is one atomic action of one goroutine
 and any interleaving of steps is a run. The database answers and the clock are
 nondeterministic, so every run of the program is a run here.
 */
module Dispatcher {
  import opened Basics
  import opened Counting

  type QueueName = string

  /** A registered `WorkerInfo`; the limit is its `NConcurrent`. */
  datatype Info = Info(queue: QueueName, limit: int, nActive: int)

  /** How `startWork` was left. */
  datatype Exit = RanJob | NoJob | Panicked

  /** Program point of a job goroutine. */
  datatype JobPoint =
    | Starting             // in startWork, nothing claimed yet
    | Claimed              // a row is claimed, signalClaimed(true) comes next
    | Running              // the callback runs, or its result is being stored
    | Leaving(exit: Exit)  // startWork has been left, done() comes next
    | Freed(exit: Exit)    // the slot is free, the send on signal comes next
    | Ended

  /** `sends` is everything ever sent on `claimed`; `taken` says that processWork received it. */
  datatype Job = Job(info: nat, at: JobPoint, sends: seq<bool>, taken: bool)

  /** Program point of the scheduler goroutine. */
  datatype SchedulerPoint =
    | Parked                              // in the select on the timer and the signal
    | Checking(queue: QueueName)          // at the top of the processWork loop
    | Awaiting(queue: QueueName, job: nat) // receiving from claimed
    | ToRead                              // before getPredictedStart
    | Reading(left: set<QueueName>)       // in its loop over listeningFor, lock held

  /** Program point of the goroutine running addNewListeners. */
  datatype RegistrarPoint = Idle | Received(info: nat) | Registered(queue: QueueName)

  /**
   The last three fields are history. `dirty`: queues for which a worker was registered, or a
   slot was freed by a goroutine whose startWork returned true, since the scheduler last read
   them. `silent`: queues with a slot freed otherwise since then. `busy`: queues the last
   read skipped because they were at their limit.
   */
  datatype State = State(
    infos: seq<Info>, listening: map<QueueName, nat>, jobs: seq<Job>, signal: Option<QueueName>,
    scheduler: SchedulerPoint, name: QueueName, registrar: RegistrarPoint,
    dirty: set<QueueName>, silent: set<QueueName>, busy: set<QueueName>)

  /** The actions of a job goroutine. */
  datatype Move = Claims | FindsNothing | SignalsClaimed | Finishes | Panics | FreesSlot | Sends

  datatype Step =
    | Create(queue: QueueName, limit: int)  // the application builds a WorkerInfo
    | Offer(info: nat)                      // StartWorkers hands it to addNewListeners
    | Register
    | Announce
    | Notify(queue: QueueName)              // a database notification arrives
    | TimerFires
    | Receive
    | Check
    | Answer
    | BeginRead
    | Read(queue: QueueName)
    | Predict(next: QueueName)              // the query's answer; "" when there is none
    | Advance(job: nat, move: Move)

  const START := State([], map[], [], None, Parked, "", Idle, {}, {}, {})

  /** `isAtConcurrencyLimit`. */
  predicate AtLimit(info: Info) {
    info.nActive >= info.limit
  }

  /** The limit after StartWorkers: zero means one. */
  function EffectiveLimit(limit: int): int {
    if limit == 0 then 1 else limit
  }

  /** `concurrencyCheck` below the limit, and the cancel function it hands out. */
  function SlotTaken(info: Info): Info {
    info.(nActive := info.nActive + 1)
  }

  function SlotFreed(info: Info): Info {
    info.(nActive := info.nActive - 1)
  }

  /** All list indices in the state are in range. */
  predicate WellFormed(s: State) {
    && (forall q :: q in s.listening ==> s.listening[q] < |s.infos| && s.infos[s.listening[q]].queue == q)
    && (forall j :: 0 <= j < |s.jobs| ==> s.jobs[j].info < |s.infos|)
    && (s.scheduler.Awaiting? ==> s.scheduler.job < |s.jobs|)
    && (s.registrar.Received? ==> s.registrar.info < |s.infos|)
  }

  function QueueOf(s: State, job: Job): QueueName
    requires job.info < |s.infos|
  {
    s.infos[job.info].queue
  }

  predicate Enabled(s: State, step: Step)
    requires WellFormed(s)
  {
    match step
    case Create(queue, limit) => queue != ""
    case Offer(info) => s.registrar == Idle && info < |s.infos|
    case Register => s.registrar.Received? && !s.scheduler.Reading?
    case Announce => s.registrar.Registered?
    case Notify(_) => true
    case TimerFires => s.scheduler == Parked
    case Receive => s.scheduler == Parked && s.signal.Some?
    case Check => s.scheduler.Checking?
    case Answer => s.scheduler.Awaiting? && s.jobs[s.scheduler.job].sends != [] && !s.jobs[s.scheduler.job].taken
    case BeginRead => s.scheduler == ToRead
    case Read(queue) => s.scheduler.Reading? && queue in s.scheduler.left && queue in s.listening
    case Predict(next) =>
      s.scheduler == Reading({}) && (next == "" || (next in s.listening && next !in s.busy))
    case Advance(j, move) => j < |s.jobs| && CanMove(s.jobs[j], move)
  }

  /** A non-blocking send on the one-slot channel: dropped when the slot is taken. */
  function Offered(signal: Option<QueueName>, queue: QueueName): Option<QueueName> {
    if signal == None then Some(queue) else signal
  }

  function Next(s: State, step: Step): State
    requires WellFormed(s) && Enabled(s, step)
  {
    match step
    case Create(queue, limit) =>
      s.(infos := s.infos + [Info(queue, EffectiveLimit(limit), 0)])
    case Offer(info) => s.(registrar := Received(info))
    case Register =>
      var queue := s.infos[s.registrar.info].queue;
      s.(listening := s.listening[queue := s.registrar.info],
      registrar := Registered(queue),
      dirty := s.dirty + {queue})
    case Announce => s.(signal := Offered(s.signal, s.registrar.queue), registrar := Idle)
    case Notify(queue) => s.(signal := Offered(s.signal, queue))
    case TimerFires => s.(scheduler := if s.name != "" then Checking(s.name) else ToRead)
    case Receive => s.(name := s.signal.value, signal := None, scheduler := Checking(s.signal.value))
    case Check => AfterCheck(s)
    case Answer =>
      var j := s.scheduler.job;
      s.(jobs := s.jobs[j := s.jobs[j].(taken := true)],
      scheduler := if s.jobs[j].sends[0] then Checking(s.scheduler.queue) else ToRead)
    case BeginRead => s.(scheduler := Reading(s.listening.Keys))
    case Read(queue) =>
      s.(scheduler := Reading(s.scheduler.left - {queue}),
      busy := if AtLimit(s.infos[s.listening[queue]]) then s.busy + {queue} else s.busy - {queue},
      dirty := s.dirty - {queue},
      silent := s.silent - {queue})
    case Predict(next) => s.(scheduler := Parked, name := next)
    case Advance(j, move) => AfterMove(s, j, move)
  }

  /** `signalClaimed`: only the first call sends. */
  function SignalClaimed(job: Job, value: bool): Job {
    if job.sends == [] then job.(sends := [value]) else job
  }

  /** `startWorkConcurrencyCheck` and the start of the goroutine. */
  function AfterCheck(s: State): State
    requires WellFormed(s) && s.scheduler.Checking?
  {
    var queue := s.scheduler.queue;
    if queue !in s.listening || AtLimit(s.infos[s.listening[queue]]) then
      s.(scheduler := ToRead)
    else
      var i := s.listening[queue];
      s.(infos := s.infos[i := SlotTaken(s.infos[i])],
      jobs := s.jobs + [Job(i, Starting, [], false)],
      scheduler := Awaiting(queue, |s.jobs|))
  }

  predicate CanMove(job: Job, move: Move) {
    match move
    case Claims => job.at == Starting
    case FindsNothing => job.at == Starting
    case SignalsClaimed => job.at == Claimed
    case Finishes => job.at == Running
    case Panics => job.at == Starting || job.at == Running
    case FreesSlot => job.at.Leaving?
    case Sends => job.at.Freed?
  }

  /** The goroutine after one of its actions; a deferred signalClaimed(false) runs when startWork is left. */
  function Moved(job: Job, move: Move): Job
    requires CanMove(job, move)
  {
    match move
    case Claims => job.(at := Claimed)
    case FindsNothing => SignalClaimed(job, false).(at := Leaving(NoJob))
    case SignalsClaimed => SignalClaimed(job, true).(at := Running)
    case Finishes => SignalClaimed(job, false).(at := Leaving(RanJob))
    case Panics => SignalClaimed(job, false).(at := Leaving(Panicked))
    case FreesSlot => job.(at := Freed(job.at.exit))
    case Sends => job.(at := Ended)
  }

  /** What a goroutine's action does to the shared state: `done()`, and then the send on signal. */
  function AfterMove(s: State, j: nat, move: Move): (t: State)
    requires WellFormed(s) && j < |s.jobs| && CanMove(s.jobs[j], move)
    ensures t.jobs == s.jobs[j := Moved(s.jobs[j], move)] && t.jobs[j].info == s.jobs[j].info
    ensures |t.infos| == |s.infos|
    ensures forall i {:trigger t.infos[i]} :: 0 <= i < |t.infos| ==>
      t.infos[i].queue == s.infos[i].queue && t.infos[i].limit == s.infos[i].limit
    ensures t.scheduler == s.scheduler && t.registrar == s.registrar && t.listening == s.listening
  {
    var job := s.jobs[j];
    var queue := QueueOf(s, job);
    var t := s.(jobs := s.jobs[j := Moved(job, move)]);
    if move == FreesSlot then
      var freed := t.(infos := s.infos[job.info := SlotFreed(s.infos[job.info])]);
      if job.at.exit == RanJob then freed.(dirty := s.dirty + {queue}) else freed.(silent := s.silent + {queue})
    else if move == Sends && job.at.exit == RanJob then
      t.(signal := Offered(s.signal, queue))
    else
      t
  }

  /** The state after a run, when its steps are all enabled. */
  function After(steps: seq<Step>): Option<State> {
    if steps == [] then
      Some(START)
    else
      match After(steps[..|steps| - 1])
      case Some(s) =>
        if WellFormed(s) && Enabled(s, steps[|steps| - 1]) then Some(Next(s, steps[|steps| - 1])) else None
      case None => None
  }

  // ---------------------------------------------------------------------------------------
  // Slots

  predicate HoldsSlot(job: Job) {
    !job.at.Freed? && !job.at.Ended?
  }

  ghost function SlotOf(i: nat): Job -> nat {
    job => if HoldsSlot(job) && job.info == i then 1 else 0
  }

  /** The number of goroutines that hold a slot of the i-th `WorkerInfo`. */
  ghost function Slots(s: State, i: nat): nat {
    Total(s.jobs, SlotOf(i))
  }

  ghost predicate SlotsCounted(s: State) {
    forall i {:trigger s.infos[i]} :: 0 <= i < |s.infos| ==>
      s.infos[i].nActive == Slots(s, i) && (s.infos[i].nActive == 0 || s.infos[i].nActive <= s.infos[i].limit)
  }

  lemma SlotsKeptByMove(s: State, j: nat, move: Move)
    requires WellFormed(s) && SlotsCounted(s) && j < |s.jobs| && CanMove(s.jobs[j], move)
    requires ClaimProtocol(s.jobs[j])
    ensures SlotsCounted(AfterMove(s, j, move))
  {
    var t := AfterMove(s, j, move);
    forall i | 0 <= i < |t.infos|
      ensures t.infos[i].nActive == Slots(t, i) && (t.infos[i].nActive == 0 || t.infos[i].nActive <= t.infos[i].limit)
    {
      TotalUpdate(s.jobs, j, t.jobs[j], SlotOf(i));
      assert s.infos[i].nActive == Slots(s, i);
    }
  }

  lemma SlotsKept(s: State, step: Step)
    requires WellFormed(s) && SlotsCounted(s) && Enabled(s, step)
    requires forall j :: 0 <= j < |s.jobs| ==> ClaimProtocol(s.jobs[j])
    ensures SlotsCounted(Next(s, step))
  {
    var t := Next(s, step);
    if step.Advance? {
      SlotsKeptByMove(s, step.job, step.move);
    } else {
      forall i | 0 <= i < |t.infos|
        ensures t.infos[i].nActive == Slots(t, i) && (t.infos[i].nActive == 0 || t.infos[i].nActive <= t.infos[i].limit)
      {
        if step.Create? && i == |s.infos| {
          TotalZero(s.jobs, SlotOf(i));
        } else if step.Answer? {
          TotalUpdate(s.jobs, s.scheduler.job, t.jobs[s.scheduler.job], SlotOf(i));
          assert s.infos[i].nActive == Slots(s, i);
        } else {
          if |t.jobs| > |s.jobs| {
            TotalAppend(s.jobs, t.jobs[|s.jobs|], SlotOf(i));
          }
          assert s.infos[i].nActive == Slots(s, i);
        }
      }
    }
  }

  // ---------------------------------------------------------------------------------------
  // The claimed channel

  /** What a goroutine has sent on `claimed`, by program point. */
  predicate ClaimProtocol(job: Job) {
    match job.at
    case Starting => job.sends == []
    case Claimed => job.sends == []
    case Running => job.sends == [true]
    case Leaving(exit) => SentFor(exit, job.sends)
    case Freed(exit) => SentFor(exit, job.sends)
    case Ended => |job.sends| == 1
  }

  predicate SentFor(exit: Exit, sends: seq<bool>) {
    match exit
    case RanJob => sends == [true]
    case NoJob => sends == [false]
    case Panicked => |sends| == 1
  }

  /** Every value is received by the scheduler that dispatched the goroutine, or still expected. */
  predicate ClaimReceived(s: State) {
    forall j :: 0 <= j < |s.jobs| ==>
      if s.scheduler.Awaiting? && s.scheduler.job == j then !s.jobs[j].taken else s.jobs[j].taken
  }

  // ---------------------------------------------------------------------------------------
  // Wake-ups

  /** The scheduler is awake and will still read `queue` before it parks. */
  predicate ReadAhead(s: State, queue: QueueName) {
    match s.scheduler
    case Parked => false
    case Reading(left) => queue in left
    case _ => true
  }

  /** A goroutine stands between freeing a slot of `queue`, or registering it, and its send. */
  predicate SendAhead(s: State, queue: QueueName)
    requires WellFormed(s)
  {
    || s.registrar == Registered(queue)
    || exists j :: 0 <= j < |s.jobs| && s.jobs[j].at == Freed(RanJob) && QueueOf(s, s.jobs[j]) == queue
  }

  predicate WakeUpPending(s: State, queue: QueueName)
    requires WellFormed(s)
  {
    s.signal.Some? || SendAhead(s, queue) || ReadAhead(s, queue)
  }

  /** A queue skipped as busy is still at its limit, unless a slot was freed since. */
  predicate BusyIsCurrent(s: State)
    requires WellFormed(s)
  {
    forall q :: q in s.busy && q !in s.dirty && q !in s.silent ==>
      q in s.listening && AtLimit(s.infos[s.listening[q]])
  }

  predicate Listened(s: State)
    requires WellFormed(s)
  {
    && s.dirty <= s.listening.Keys
    && (forall j :: 0 <= j < |s.jobs| ==> QueueOf(s, s.jobs[j]) in s.listening)
    && (s.scheduler.Reading? ==> s.scheduler.left <= s.listening.Keys)
    && (s.scheduler.Awaiting? ==>
      s.scheduler.job < |s.jobs| && QueueOf(s, s.jobs[s.scheduler.job]) == s.scheduler.queue)
  }

  ghost predicate Inv(s: State) {
    && WellFormed(s)
    && SlotsCounted(s)
    && (forall j :: 0 <= j < |s.jobs| ==> ClaimProtocol(s.jobs[j]))
    && ClaimReceived(s)
    && Listened(s)
    && (forall q :: q in s.dirty ==> WakeUpPending(s, q))
    && BusyIsCurrent(s)
  }

  lemma WellFormedKept(s: State, step: Step)
    requires WellFormed(s) && Enabled(s, step)
    ensures WellFormed(Next(s, step))
  {
  }

  lemma ListenedKeptByMove(s: State, j: nat, move: Move)
    requires WellFormed(s) && Listened(s) && j < |s.jobs| && CanMove(s.jobs[j], move)
    requires WellFormed(AfterMove(s, j, move))
    ensures Listened(AfterMove(s, j, move))
  {
    var t := AfterMove(s, j, move);
    assert t.dirty <= s.dirty + {QueueOf(s, s.jobs[j])};
  }

  lemma ListenedKept(s: State, step: Step)
    requires WellFormed(s) && Listened(s) && Enabled(s, step) && WellFormed(Next(s, step))
    ensures Listened(Next(s, step))
  {
    if step.Advance? {
      ListenedKeptByMove(s, step.job, step.move);
    }
  }

  lemma MoveKeepsProtocol(job: Job, move: Move)
    requires ClaimProtocol(job) && CanMove(job, move)
    ensures ClaimProtocol(Moved(job, move)) && Moved(job, move).info == job.info
  {
  }

  lemma ClaimProtocolKept(s: State, step: Step)
    requires WellFormed(s) && Enabled(s, step)
    requires forall j :: 0 <= j < |s.jobs| ==> ClaimProtocol(s.jobs[j])
    ensures forall j :: 0 <= j < |Next(s, step).jobs| ==> ClaimProtocol(Next(s, step).jobs[j])
  {
    if step.Advance? {
      MoveKeepsProtocol(s.jobs[step.job], step.move);
    }
  }

  lemma ClaimReceivedKept(s: State, step: Step)
    requires WellFormed(s) && ClaimReceived(s) && Enabled(s, step)
    ensures ClaimReceived(Next(s, step))
  {
  }

  lemma SendAheadKept(s: State, step: Step, q: QueueName)
    requires WellFormed(s) && Enabled(s, step) && WellFormed(Next(s, step))
    requires SendAhead(s, q)
    ensures SendAhead(Next(s, step), q) || Next(s, step).signal.Some?
  {
    var t := Next(s, step);
    if s.registrar != Registered(q) {
      var j :| 0 <= j < |s.jobs| && s.jobs[j].at == Freed(RanJob) && QueueOf(s, s.jobs[j]) == q;
      if step != Advance(j, Sends) {
        assert t.jobs[j].at == Freed(RanJob);
        assert QueueOf(t, t.jobs[j]) == q;
      }
    }
  }

  lemma DirtiedIsPending(s: State, step: Step, q: QueueName)
    requires WellFormed(s) && Enabled(s, step) && WellFormed(Next(s, step))
    requires q !in s.dirty && q in Next(s, step).dirty
    ensures SendAhead(Next(s, step), q)
  {
    var t := Next(s, step);
    if step.Advance? {
      assert t.jobs[step.job].at == Freed(RanJob);
      assert QueueOf(t, t.jobs[step.job]) == q;
    }
  }

  lemma WakeUpKept(s: State, step: Step, q: QueueName)
    requires WellFormed(s) && Listened(s) && Enabled(s, step) && WellFormed(Next(s, step))
    requires q in s.dirty ==> WakeUpPending(s, q)
    requires q in Next(s, step).dirty
    ensures WakeUpPending(Next(s, step), q)
  {
    if q !in s.dirty {
      DirtiedIsPending(s, step, q);
    } else if SendAhead(s, q) {
      SendAheadKept(s, step, q);
    } else if s.signal.Some? {
    } else {
      ReadAheadKept(s, step, q);
    }
  }

  lemma ReadAheadKept(s: State, step: Step, q: QueueName)
    requires WellFormed(s) && Listened(s) && Enabled(s, step)
    requires ReadAhead(s, q) && q in s.dirty && q in Next(s, step).dirty
    ensures ReadAhead(Next(s, step), q)
  {
  }

  lemma BusyKept(s: State, step: Step)
    requires WellFormed(s) && BusyIsCurrent(s) && Enabled(s, step) && WellFormed(Next(s, step))
    ensures BusyIsCurrent(Next(s, step))
  {
  }

  lemma InvKept(s: State, step: Step)
    requires Inv(s) && Enabled(s, step)
    ensures Inv(Next(s, step))
  {
    WellFormedKept(s, step);
    ListenedKept(s, step);
    ClaimProtocolKept(s, step);
    ClaimReceivedKept(s, step);
    SlotsKept(s, step);
    forall q | q in Next(s, step).dirty
      ensures WakeUpPending(Next(s, step), q)
    {
      WakeUpKept(s, step, q);
    }
    BusyKept(s, step);
  }

  lemma {:induction false} InvAlways(steps: seq<Step>, s: State)
    requires After(steps) == Some(s)
    ensures Inv(s)
  {
    if steps != [] {
      var before := After(steps[..|steps| - 1]).value;
      InvAlways(steps[..|steps| - 1], before);
      InvKept(before, steps[|steps| - 1]);
    }
  }

  // ---------------------------------------------------------------------------------------
  // Main results

  /** In every reachable state each goroutine that holds a slot is counted, and the limit is kept. */
  lemma {:induction false} SlotAccounting(steps: seq<Step>, s: State)
    requires After(steps) == Some(s)
    ensures forall i {:trigger s.infos[i]} :: 0 <= i < |s.infos| ==>
      && s.infos[i].nActive == Slots(s, i) >= 0
      && (s.infos[i].limit >= 0 ==> s.infos[i].nActive <= s.infos[i].limit)
      && (s.infos[i].limit < 0 ==> s.infos[i].nActive == 0)
  {
    InvAlways(steps, s);
    forall i | 0 <= i < |s.infos|
      ensures s.infos[i].nActive == Slots(s, i)
      ensures s.infos[i].nActive == 0 || s.infos[i].nActive <= s.infos[i].limit
    {
    }
  }

  /** Nothing set in motion and nobody about to send. */
  predicate Quiet(s: State)
    requires WellFormed(s)
  {
    && s.scheduler == Parked
    && s.signal == None
    && !s.registrar.Registered?
    && forall j :: 0 <= j < |s.jobs| ==> s.jobs[j].at != Freed(RanJob)
  }

  /**
   No lost wake-up. When the scheduler sleeps and nobody is about to wake it, every queue
   with a new worker, or a slot freed after a job, has been read since; so a queue that was
   skipped as busy is still at its limit, silent releases aside.
   */
  lemma {:induction false} NoLostWakeUp(steps: seq<Step>, s: State)
    requires After(steps) == Some(s)
    ensures WellFormed(s)
    ensures forall q :: q in s.dirty ==> WakeUpPending(s, q)
    ensures Quiet(s) ==> s.dirty == {}
    ensures Quiet(s) ==> forall q :: q in s.busy && q !in s.silent ==>
      q in s.listening && AtLimit(s.infos[s.listening[q]])
  {
    InvAlways(steps, s);
    assert Quiet(s) ==> forall q :: !WakeUpPending(s, q);
  }

  lemma {:induction false} InfosAreNamed(steps: seq<Step>, s: State)
    requires After(steps) == Some(s)
    ensures forall i :: 0 <= i < |s.infos| ==> s.infos[i].queue != ""
  {
    if steps != [] {
      InfosAreNamed(steps[..|steps| - 1], After(steps[..|steps| - 1]).value);
    }
  }

  /** Every queue listened for has a name. */
  lemma {:induction false} QueuesAreNamed(steps: seq<Step>, s: State)
    requires After(steps) == Some(s)
    ensures "" !in s.listening
  {
    InvAlways(steps, s);
    InfosAreNamed(steps, s);
  }

  /** Freeing a slot sets a wake-up in motion exactly when startWork returned true. */
  lemma FreeingWakesOnlyAfterAJob(s: State, j: nat)
    requires Inv(s) && Enabled(s, Advance(j, FreesSlot))
    ensures var t := Next(s, Advance(j, FreesSlot)); var q := QueueOf(s, s.jobs[j]);
      WellFormed(t) && (WakeUpPending(t, q) <==> s.jobs[j].at.exit == RanJob || WakeUpPending(s, q))
  {
    var t := Next(s, Advance(j, FreesSlot));
    var q := QueueOf(s, s.jobs[j]);
    InvKept(s, Advance(j, FreesSlot));
    if s.jobs[j].at.exit == RanJob {
      assert t.jobs[j].at == Freed(RanJob) && QueueOf(t, t.jobs[j]) == q;
    } else {
      SilentFreeChangesNoWakeUp(s, j, q);
    }
  }

  lemma SilentFreeChangesNoWakeUp(s: State, j: nat, q: QueueName)
    requires WellFormed(s) && Enabled(s, Advance(j, FreesSlot)) && s.jobs[j].at.exit != RanJob
    requires WellFormed(Next(s, Advance(j, FreesSlot)))
    ensures WakeUpPending(Next(s, Advance(j, FreesSlot)), q) <==> WakeUpPending(s, q)
  {
    var t := Next(s, Advance(j, FreesSlot));
    assert forall k :: 0 <= k < |s.jobs| ==> QueueOf(t, t.jobs[k]) == QueueOf(s, s.jobs[k]);
    assert forall k :: 0 <= k < |s.jobs| ==> (t.jobs[k].at == Freed(RanJob) <==> s.jobs[k].at == Freed(RanJob));
  }

  /** Steps of a goroutine until it has sent on `claimed`. */
  function StepsToSend(job: Job): nat {
    match job.at
    case Starting => 2
    case Claimed => 1
    case _ => 0
  }

  /**
   `processWork` is always released: each goroutine sends at most once, and has sent once
   startWork is left, panics included; while processWork waits, either the value is there or
   the goroutine it waits for can move.
   */
  lemma {:induction false} ProcessWorkIsReleased(steps: seq<Step>, s: State)
    requires After(steps) == Some(s)
    ensures WellFormed(s)
    ensures forall j :: 0 <= j < |s.jobs| ==>
      |s.jobs[j].sends| <= 1 && (StepsToSend(s.jobs[j]) == 0 <==> |s.jobs[j].sends| == 1)
    ensures s.scheduler.Awaiting? ==>
      var job := s.jobs[s.scheduler.job];
      && ClaimProtocol(job)
      && (Enabled(s, Answer) <==> StepsToSend(job) == 0)
      && (StepsToSend(job) > 0 ==> exists move :: CanMove(job, move))
  {
    InvAlways(steps, s);
    if s.scheduler.Awaiting? {
      var job := s.jobs[s.scheduler.job];
      assert ClaimProtocol(job);
      assert job.at == Starting ==> CanMove(job, Claims);
      assert job.at == Claimed ==> CanMove(job, SignalsClaimed);
    }
  }

  lemma MovesComeCloser(job: Job, move: Move)
    requires ClaimProtocol(job) && CanMove(job, move)
    ensures StepsToSend(Moved(job, move)) <= StepsToSend(job)
    ensures StepsToSend(job) > 0 ==> StepsToSend(Moved(job, move)) < StepsToSend(job)
  {
  }

  /** And each of its moves brings the send closer, while nothing else disturbs the wait. */
  lemma NothingDisturbsTheWait(s: State, step: Step)
    requires WellFormed(s) && s.scheduler.Awaiting? && Enabled(s, step) && step != Answer
    requires ClaimProtocol(s.jobs[s.scheduler.job])
    ensures var j := s.scheduler.job;
      && Next(s, step).scheduler == s.scheduler
      && j < |Next(s, step).jobs|
      && StepsToSend(Next(s, step).jobs[j]) <= StepsToSend(s.jobs[j])
      && (step.Advance? && step.job == j && StepsToSend(s.jobs[j]) > 0 ==>
        StepsToSend(Next(s, step).jobs[j]) < StepsToSend(s.jobs[j]))
  {
    if step.Advance? && step.job == s.scheduler.job {
      MovesComeCloser(s.jobs[step.job], step.move);
    }
  }

  // ---------------------------------------------------------------------------------------
  // The wake-up that is not promised

  lemma {:induction false} Extend(steps: seq<Step>, s: State, step: Step) returns (longer: seq<Step>, t: State)
    requires After(steps) == Some(s) && WellFormed(s) && Enabled(s, step)
    ensures longer == steps + [step] && After(longer) == Some(t) && t == Next(s, step) && WellFormed(t)
  {
    longer, t := steps + [step], Next(s, step);
    assert longer[..|longer| - 1] == steps;
    InvAlways(longer, t);
  }

  /** A run up to the registration of a queue with one slot. */
  lemma FirstRegistration(queue: QueueName) returns (steps: seq<Step>, s: State)
    requires queue != ""
    ensures After(steps) == Some(s) && WellFormed(s)
    ensures s == START.(infos := [Info(queue, 1, 0)], listening := map[queue := 0],
                        registrar := Registered(queue), dirty := {queue})
  {
    steps, s := [], START;
    steps, s := Extend(steps, s, Create(queue, 0));
    assert s == START.(infos := [Info(queue, 1, 0)]);
    steps, s := Extend(steps, s, Offer(0));
    assert s == START.(infos := [Info(queue, 1, 0)], registrar := Received(0));
    steps, s := Extend(steps, s, Register);
  }

  /** A run up to the scheduler looking at the new queue. */
  lemma FirstLook(queue: QueueName) returns (steps: seq<Step>, s: State)
    requires queue != ""
    ensures After(steps) == Some(s) && WellFormed(s)
    ensures s == START.(infos := [Info(queue, 1, 0)], listening := map[queue := 0],
                        scheduler := Checking(queue), name := queue, dirty := {queue})
  {
    steps, s := FirstRegistration(queue);
    steps, s := Extend(steps, s, Announce);
    steps, s := Extend(steps, s, Receive);
  }

  lemma FirstCheck(queue: QueueName, s: State)
    requires s == START.(infos := [Info(queue, 1, 0)], listening := map[queue := 0],
                         scheduler := Checking(queue), name := queue, dirty := {queue})
    ensures WellFormed(s) && Enabled(s, Check)
    ensures AfterCheck(s) == s.(infos := [Info(queue, 1, 1)], jobs := [Job(0, Starting, [], false)],
                                scheduler := Awaiting(queue, 0))
  {
    assert [Info(queue, 1, 0)][0 := Info(queue, 1, 1)] == [Info(queue, 1, 1)];
    assert [] + [Job(0, Starting, [], false)] == [Job(0, Starting, [], false)];
  }

  /** A run up to its first dispatch. */
  lemma FirstDispatch(queue: QueueName) returns (steps: seq<Step>, s: State)
    requires queue != ""
    ensures After(steps) == Some(s) && WellFormed(s)
    ensures s == START.(infos := [Info(queue, 1, 1)], listening := map[queue := 0],
                        jobs := [Job(0, Starting, [], false)], scheduler := Awaiting(queue, 0),
                        name := queue, dirty := {queue})
  {
    steps, s := FirstLook(queue);
    FirstCheck(queue, s);
    steps, s := Extend(steps, s, Check);
  }

  /** The dispatched goroutine runs its job, and the scheduler finds the queue at its limit. */
  lemma FirstJobRuns(queue: QueueName) returns (steps: seq<Step>, s: State)
    requires queue != ""
    ensures After(steps) == Some(s) && WellFormed(s)
    ensures s.infos == [Info(queue, 1, 1)] && s.listening == map[queue := 0]
    ensures s.scheduler == ToRead && s.signal == None && s.registrar == Idle
    ensures s.jobs == [Job(0, Running, [true], true)]
  {
    steps, s := FirstDispatch(queue);
    steps, s := Extend(steps, s, Advance(0, Claims));
    steps, s := Extend(steps, s, Advance(0, SignalsClaimed));
    steps, s := Extend(steps, s, Answer);
    steps, s := Extend(steps, s, Check);
  }

  lemma FirstJobFindsNothing(queue: QueueName) returns (steps: seq<Step>, s: State)
    requires queue != ""
    ensures After(steps) == Some(s) && WellFormed(s)
    ensures s.infos == [Info(queue, 1, 1)] && s.listening == map[queue := 0]
    ensures s.scheduler == ToRead && s.signal == None && s.registrar == Idle
    ensures s.jobs == [Job(0, Leaving(NoJob), [false], true)]
  {
    steps, s := FirstDispatch(queue);
    steps, s := Extend(steps, s, Advance(0, FindsNothing));
    steps, s := Extend(steps, s, Answer);
  }

  /** From ToRead, with the only queue at its limit: read it and sleep. */
  lemma {:induction false} Sleep(steps0: seq<Step>, s0: State, queue: QueueName) returns (steps: seq<Step>, s: State)
    requires After(steps0) == Some(s0) && WellFormed(s0)
    requires s0.scheduler == ToRead && s0.infos == [Info(queue, 1, 1)] && s0.listening == map[queue := 0]
    ensures After(steps) == Some(s) && WellFormed(s)
    ensures s == s0.(scheduler := Parked, name := "", busy := s0.busy + {queue}, dirty := s0.dirty - {queue},
                silent := s0.silent - {queue})
  {
    steps, s := Extend(steps0, s0, BeginRead);
    steps, s := Extend(steps, s, Read(queue));
    assert s.scheduler.left == {};
    steps, s := Extend(steps, s, Predict(""));
  }

  /** The only goroutine frees its slot and ends, without a send. */
  lemma {:induction false} FreeSilently(steps0: seq<Step>, s0: State, queue: QueueName)
      returns (steps: seq<Step>, s: State)
    requires After(steps0) == Some(s0) && WellFormed(s0)
    requires |s0.jobs| == 1 && s0.jobs[0].info == 0 && s0.jobs[0].at.Leaving? && s0.jobs[0].at.exit != RanJob
    requires s0.infos == [Info(queue, 1, 1)]
    ensures After(steps) == Some(s) && WellFormed(s)
    ensures s == s0.(infos := [Info(queue, 1, 0)], jobs := [s0.jobs[0].(at := Ended)], silent := s0.silent + {queue})
  {
    steps, s := Extend(steps0, s0, Advance(0, FreesSlot));
    assert s.jobs == [s0.jobs[0].(at := Freed(s0.jobs[0].at.exit))];
    steps, s := Extend(steps, s, Advance(0, Sends));
  }

  /** Up to the scheduler asleep, with a goroutine that is about to free its slot silently. */
  lemma AsleepBeforeRelease(queue: QueueName, claims: bool) returns (steps: seq<Step>, s: State)
    requires queue != ""
    ensures After(steps) == Some(s) && WellFormed(s) && Quiet(s)
    ensures s.infos == [Info(queue, 1, 1)] && s.listening == map[queue := 0] && queue in s.busy
    ensures |s.jobs| == 1 && s.jobs[0] == Job(0, Leaving(if claims then Panicked else NoJob), [claims], true)
  {
    if claims {
      steps, s := FirstJobRuns(queue);
      steps, s := Sleep(steps, s, queue);
      steps, s := Extend(steps, s, Advance(0, Panics));
    } else {
      steps, s := FirstJobFindsNothing(queue);
      steps, s := Sleep(steps, s, queue);
    }
  }

  /**
   Runs that end with the scheduler asleep, no wake-up on its way, and a free slot on a queue
   it skipped as busy: a goroutine that claimed nothing, and one that panicked after its claim.
   */
  lemma SilentReleaseIsMissed(queue: QueueName, claims: bool) returns (steps: seq<Step>, s: State)
    requires queue != ""
    ensures After(steps) == Some(s) && WellFormed(s) && Quiet(s)
    ensures queue in s.busy && queue in s.listening && !AtLimit(s.infos[s.listening[queue]])
    ensures |s.jobs| == 1 && s.jobs[0].sends == [claims]
  {
    steps, s := AsleepBeforeRelease(queue, claims);
    steps, s := FreeSilently(steps, s, queue);
  }

  // ---------------------------------------------------------------------------------------
  // The counter object

  const FIVE_MINUTES := 300

  /** `WorkerInfo`; its mutex makes each method one atomic action. Durations are in seconds. */
  class WorkerInfo {
    const queueName: QueueName
    const hasCallback: bool
    var nConcurrent: int
    var retainResultsFor: int
    var nActive: int

    constructor (queueName: QueueName, hasCallback: bool, nConcurrent: int, retainResultsFor: int)
      ensures Abs() == Info(queueName, nConcurrent, 0)
      ensures this.hasCallback == hasCallback && this.retainResultsFor == retainResultsFor
    {
      this.queueName, this.hasCallback := queueName, hasCallback;
      this.nConcurrent, this.retainResultsFor := nConcurrent, retainResultsFor;
      nActive := 0;
    }

    function Abs(): Info
      reads this
    {
      Info(queueName, nConcurrent, nActive)
    }

    /** `StartWorkers` up to the hand-over to addNewListeners; false when it panics instead. */
    method StartWorkers() returns (ok: bool)
      modifies this
      ensures ok <==> queueName != "" && hasCallback
      ensures Abs() == old(Abs()).(limit := EffectiveLimit(old(nConcurrent)))
      ensures retainResultsFor == if old(retainResultsFor) == 0 then FIVE_MINUTES else old(retainResultsFor)
    {
      if nConcurrent == 0 {
        nConcurrent := 1;
      }
      if retainResultsFor == 0 {
        retainResultsFor := FIVE_MINUTES;
      }
      if queueName == "" {
        return false;
      }
      if !hasCallback {
        return false;
      }
      return true;
    }

    method IsAtConcurrencyLimit() returns (r: bool)
      ensures r == AtLimit(Abs())
    {
      r := nActive >= nConcurrent;
    }

    /** The counter part of the dispatcher's check. */
    method ConcurrencyCheck() returns (ok: bool)
      modifies this
      ensures ok == !AtLimit(old(Abs()))
      ensures Abs() == if ok then SlotTaken(old(Abs())) else old(Abs())
    {
      if nActive >= nConcurrent {
        return false;
      }
      nActive := nActive + 1;
      return true;
    }

    /** The cancel function that ConcurrencyCheck hands out. */
    method Cancel()
      modifies this
      ensures Abs() == SlotFreed(old(Abs()))
    {
      nActive := nActive - 1;
    }
  }
}
