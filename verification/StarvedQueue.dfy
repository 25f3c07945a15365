/**
 A job in progress keeps the timer from another queue: runs of DueJobs in which the timer fires
 again and again for a row whose claim is not committed, while another queue has a free slot
 and a waiting row.
 */
module StarvedQueue {
  import opened Basics
  import Dispatcher
  import opened DueJobs

  /** How often the timer fired in a run, and how often the scheduler came to check `queue`. */
  ghost function Firings(steps: seq<Step>): nat {
    if steps == [] then 0
    else Firings(steps[..|steps| - 1]) + (if steps[|steps| - 1] == Dispatch(Dispatcher.TimerFires) then 1 else 0)
  }

  ghost function Checks(steps: seq<Step>, queue: QueueName): nat {
    if steps == [] then 0
    else
      Checks(steps[..|steps| - 1], queue) +
      (if After(steps).Some? && After(steps).value.dispatcher.scheduler == Dispatcher.Checking(queue) then 1 else 0)
  }

  ghost predicate Runs(steps: seq<Step>, s: State) {
    After(steps) == Some(s) && Dispatcher.WellFormed(s.dispatcher) && Checks(steps, "B") == 0
  }

  lemma {:induction false} Extend(steps: seq<Step>, s: State, step: Step) returns (longer: seq<Step>, t: State)
    requires Runs(steps, s) && Enabled(s, step)
    requires Next(s, step).dispatcher.scheduler != Dispatcher.Checking("B")
    ensures longer == steps + [step] && Runs(longer, t) && t == Next(s, step)
    ensures Firings(longer) == Firings(steps) + if step == Dispatch(Dispatcher.TimerFires) then 1 else 0
  {
    longer, t := steps + [step], Next(s, step);
    assert longer[..|longer| - 1] == steps;
    if Inner(s, step).Some? {
      Dispatcher.WellFormedKept(s.dispatcher, Inner(s, step).value);
    }
    InnerStepIsTaken(s, step);
  }

  /** One step of the dispatcher. */
  lemma {:induction false} Move(steps: seq<Step>, s: State, inner: Dispatcher.Step)
      returns (longer: seq<Step>, t: State)
    requires Runs(steps, s) && Enabled(s, Dispatch(inner))
    requires Dispatcher.Next(s.dispatcher, inner).scheduler != Dispatcher.Checking("B")
    ensures Runs(longer, t) && t == s.(dispatcher := Dispatcher.Next(s.dispatcher, inner))
    ensures Firings(longer) == Firings(steps) + if inner.TimerFires? then 1 else 0
  {
    longer, t := Extend(steps, s, Dispatch(inner));
  }

  const WAITING := map[0 := Due("A", 0), 1 := Due("B", 5)]
  const NONE_ACTIVE := [Dispatcher.Info("A", 2, 0), Dispatcher.Info("B", 1, 0)]
  const ONE_ACTIVE := [Dispatcher.Info("A", 2, 1), Dispatcher.Info("B", 1, 0)]
  const TWO_ACTIVE := [Dispatcher.Info("A", 2, 2), Dispatcher.Info("B", 1, 0)]

  const IN_PROGRESS := Dispatcher.Job(0, Dispatcher.Running, [true], true)

  /**
   Asleep with nothing on its way: one of the two slots of A runs the job of row 0, whose claim
   is not committed, B has a free slot, row 1 waits for it, and the timer is set for row 0.
   */
  predicate Spinning(s: State) {
    var d := s.dispatcher;
    && d.infos == ONE_ACTIVE && d.listening == map["A" := 0, "B" := 1] && d.jobs != [] && d.jobs[0] == IN_PROGRESS
    && d.scheduler == Dispatcher.Parked && d.name == "A"
    && d.registrar == Dispatcher.Idle && d.signal == None && d.busy == d.dirty == d.silent == {}
    && s.rows == WAITING && s.notices == s.missed == {} && !s.failed && s.timer == Some(0)
  }

  /** The state of a round: what the last of the goroutines is doing. */
  function InRound(
      s: State, infos: seq<Dispatcher.Info>, job: Dispatcher.Job, scheduler: Dispatcher.SchedulerPoint): State
  {
    s.(dispatcher := s.dispatcher.(infos := infos, jobs := s.dispatcher.jobs + [job], scheduler := scheduler))
  }

  lemma LastReplaced(jobs: seq<Dispatcher.Job>, x: Dispatcher.Job, y: Dispatcher.Job)
    ensures (jobs + [x])[|jobs| := y] == jobs + [y]
  {
  }

  /** A check of A below its limit. */
  lemma {:induction false} Dispatches(
      steps0: seq<Step>, s0: State, before: seq<Dispatcher.Info>, after: seq<Dispatcher.Info>)
      returns (steps: seq<Step>, s: State)
    requires Runs(steps0, s0) && s0.dispatcher.scheduler == Dispatcher.Checking("A")
    requires s0.dispatcher.infos == before && "A" in s0.dispatcher.listening && s0.dispatcher.listening["A"] == 0
    requires (before == NONE_ACTIVE && after == ONE_ACTIVE) || (before == ONE_ACTIVE && after == TWO_ACTIVE)
    ensures Runs(steps, s) && Firings(steps) == Firings(steps0)
    ensures s == InRound(s0, after, Dispatcher.Job(0, Dispatcher.Starting, [], false),
                         Dispatcher.Awaiting("A", |s0.dispatcher.jobs|))
  {
    assert before[0 := Dispatcher.SlotTaken(before[0])] == after;
    steps, s := Move(steps0, s0, Dispatcher.Check);
  }

  lemma {:induction false} TimerDispatches(steps0: seq<Step>, s0: State) returns (steps: seq<Step>, s: State)
    requires Runs(steps0, s0) && Spinning(s0)
    ensures Runs(steps, s) && Firings(steps) == Firings(steps0) + 1
    ensures s == InRound(s0, TWO_ACTIVE, Dispatcher.Job(0, Dispatcher.Starting, [], false),
                         Dispatcher.Awaiting("A", |s0.dispatcher.jobs|))
  {
    steps, s := Move(steps0, s0, Dispatcher.TimerFires);
    steps, s := Dispatches(steps, s, ONE_ACTIVE, TWO_ACTIVE);
  }

  lemma {:induction false} LastFindsNothing(steps0: seq<Step>, s0: State, base: State)
      returns (steps: seq<Step>, s: State)
    requires Runs(steps0, s0)
    requires s0 == InRound(base, TWO_ACTIVE, Dispatcher.Job(0, Dispatcher.Starting, [], false),
                           Dispatcher.Awaiting("A", |base.dispatcher.jobs|))
    ensures Runs(steps, s) && Firings(steps) == Firings(steps0)
    ensures s == InRound(base, TWO_ACTIVE, Dispatcher.Job(0, Dispatcher.Leaving(Dispatcher.NoJob), [false], false),
                         Dispatcher.Awaiting("A", |base.dispatcher.jobs|))
  {
    var jobs := base.dispatcher.jobs;
    LastReplaced(jobs, Dispatcher.Job(0, Dispatcher.Starting, [], false),
                 Dispatcher.Job(0, Dispatcher.Leaving(Dispatcher.NoJob), [false], false));
    steps, s := Move(steps0, s0, Dispatcher.Advance(|jobs|, Dispatcher.FindsNothing));
  }

  lemma {:induction false} NothingToClaim(steps0: seq<Step>, s0: State, base: State)
      returns (steps: seq<Step>, s: State)
    requires Runs(steps0, s0)
    requires s0 == InRound(base, TWO_ACTIVE, Dispatcher.Job(0, Dispatcher.Starting, [], false),
                           Dispatcher.Awaiting("A", |base.dispatcher.jobs|))
    ensures Runs(steps, s) && Firings(steps) == Firings(steps0)
    ensures s == InRound(base, TWO_ACTIVE, Dispatcher.Job(0, Dispatcher.Leaving(Dispatcher.NoJob), [false], true),
                         Dispatcher.ToRead)
  {
    var left := Dispatcher.Job(0, Dispatcher.Leaving(Dispatcher.NoJob), [false], false);
    LastReplaced(base.dispatcher.jobs, left, left.(taken := true));
    steps, s := LastFindsNothing(steps0, s0, base);
    steps, s := Move(steps, s, Dispatcher.Answer);
  }

  /** The slot of the last goroutine comes back, silently. */
  function SlotBack(base: State, at: Dispatcher.JobPoint): State {
    var t := InRound(base, ONE_ACTIVE, Dispatcher.Job(0, at, [false], true), Dispatcher.ToRead);
    t.(dispatcher := t.dispatcher.(silent := {"A"}))
  }

  lemma {:induction false} FreesTheSlot(steps0: seq<Step>, s0: State, base: State) returns (steps: seq<Step>, s: State)
    requires Runs(steps0, s0) && base.dispatcher.silent == {}
    requires s0 == InRound(base, TWO_ACTIVE, Dispatcher.Job(0, Dispatcher.Leaving(Dispatcher.NoJob), [false], true),
                           Dispatcher.ToRead)
    ensures Runs(steps, s) && Firings(steps) == Firings(steps0)
    ensures s == SlotBack(base, Dispatcher.Freed(Dispatcher.NoJob))
  {
    var jobs := base.dispatcher.jobs;
    LastReplaced(jobs, Dispatcher.Job(0, Dispatcher.Leaving(Dispatcher.NoJob), [false], true),
                 Dispatcher.Job(0, Dispatcher.Freed(Dispatcher.NoJob), [false], true));
    assert TWO_ACTIVE[0 := Dispatcher.SlotFreed(TWO_ACTIVE[0])] == ONE_ACTIVE;
    steps, s := Move(steps0, s0, Dispatcher.Advance(|jobs|, Dispatcher.FreesSlot));
  }

  lemma {:induction false} EndsSilently(steps0: seq<Step>, s0: State, base: State) returns (steps: seq<Step>, s: State)
    requires Runs(steps0, s0) && s0 == SlotBack(base, Dispatcher.Freed(Dispatcher.NoJob))
    ensures Runs(steps, s) && Firings(steps) == Firings(steps0)
    ensures s == SlotBack(base, Dispatcher.Ended)
  {
    var jobs := base.dispatcher.jobs;
    LastReplaced(jobs, Dispatcher.Job(0, Dispatcher.Freed(Dispatcher.NoJob), [false], true),
                 Dispatcher.Job(0, Dispatcher.Ended, [false], true));
    steps, s := Move(steps0, s0, Dispatcher.Advance(|jobs|, Dispatcher.Sends));
  }

  /** Awake before getPredictedStart, one job of A in progress. */
  predicate BeforeReading(s: State) {
    var d := s.dispatcher;
    && d.infos == ONE_ACTIVE && d.listening == map["A" := 0, "B" := 1] && d.jobs != [] && d.jobs[0] == IN_PROGRESS
    && d.scheduler == Dispatcher.ToRead && d.registrar == Dispatcher.Idle && d.signal == None
    && d.busy == {} && d.dirty <= {"A", "B"} && d.silent <= {"A"}
    && s.rows == WAITING && s.notices == s.missed == {} && !s.failed
  }

  lemma {:induction false} BeginsReading(steps0: seq<Step>, s0: State) returns (steps: seq<Step>, s: State)
    requires Runs(steps0, s0) && BeforeReading(s0)
    ensures Runs(steps, s) && Firings(steps) == Firings(steps0)
    ensures s == s0.(dispatcher := s0.dispatcher.(scheduler := Dispatcher.Reading({"A", "B"})))
  {
    assert s0.dispatcher.listening.Keys == {"A", "B"};
    steps, s := Move(steps0, s0, Dispatcher.BeginRead);
  }

  /** The read of a queue below its limit, when there is nothing else to forget. */
  lemma AfterRead(d: Dispatcher.State, queue: QueueName, left: set<QueueName>, dirty: set<QueueName>)
    requires Dispatcher.WellFormed(d) && d.scheduler.Reading? && queue in d.scheduler.left && queue in d.listening
    requires !Dispatcher.AtLimit(d.infos[d.listening[queue]]) && d.busy == {} && d.silent <= {queue}
    requires d.scheduler.left - {queue} == left && d.dirty - {queue} == dirty
    ensures Dispatcher.Enabled(d, Dispatcher.Read(queue))
    ensures Dispatcher.Next(d, Dispatcher.Read(queue)) ==
      d.(scheduler := Dispatcher.Reading(left), dirty := dirty, silent := {})
  {
    assert d.busy - {queue} == {};
    assert d.silent - {queue} == {};
  }

  lemma {:induction false} ReadsA(steps0: seq<Step>, s0: State) returns (steps: seq<Step>, s: State)
    requires Runs(steps0, s0) && BeforeReading(s0)
    ensures Runs(steps, s) && Firings(steps) == Firings(steps0)
    ensures s == s0.(dispatcher := s0.dispatcher.(
      scheduler := Dispatcher.Reading({"B"}), dirty := s0.dispatcher.dirty - {"A"}, silent := {}))
  {
    steps, s := BeginsReading(steps0, s0);
    assert {"A", "B"} - {"A"} == {"B"};
    AfterRead(s.dispatcher, "A", {"B"}, s.dispatcher.dirty - {"A"});
    steps, s := Move(steps, s, Dispatcher.Read("A"));
  }

  lemma {:induction false} ReadsBoth(steps0: seq<Step>, s0: State) returns (steps: seq<Step>, s: State)
    requires Runs(steps0, s0) && BeforeReading(s0)
    ensures Runs(steps, s) && Firings(steps) == Firings(steps0)
    ensures s == s0.(dispatcher := s0.dispatcher.(scheduler := Dispatcher.Reading({}), dirty := {}, silent := {}))
  {
    steps, s := ReadsA(steps0, s0);
    assert {"B"} - {"B"} == {} && s.dispatcher.dirty - {"B"} == {};
    AfterRead(s.dispatcher, "B", {}, {});
    steps, s := Move(steps, s, Dispatcher.Read("B"));
  }

  lemma AnswersWithA(s: State)
    requires Dispatcher.WellFormed(s.dispatcher)
    requires BeforeReading(s.(dispatcher := s.dispatcher.(scheduler := Dispatcher.ToRead)))
    requires s.dispatcher.scheduler == Dispatcher.Reading({}) && s.dispatcher.dirty == s.dispatcher.silent == {}
    ensures Enabled(s, Query(Some(0))) && Spinning(Next(s, Query(Some(0))))
    ensures Next(s, Query(Some(0))).dispatcher.scheduler == Dispatcher.Parked
  {
    assert Asked(s, 0) && s.rows[0] == Due("A", 0) && s.rows[1] == Due("B", 5);
    assert Inner(s, Query(Some(0))) == Some(Dispatcher.Predict("A"));
    assert CanDispatch(s, Dispatcher.Predict("A"));
  }

  /** The scheduler reads both queues and the query answers with the row in progress. */
  lemma {:induction false} ReadsAgain(steps0: seq<Step>, s0: State) returns (steps: seq<Step>, s: State)
    requires Runs(steps0, s0) && BeforeReading(s0)
    ensures Runs(steps, s) && Firings(steps) == Firings(steps0) && Spinning(s)
  {
    steps, s := ReadsBoth(steps0, s0);
    AnswersWithA(s);
    steps, s := Extend(steps, s, Query(Some(0)));
  }

  lemma {:induction false} OneMoreRound(steps0: seq<Step>, s0: State) returns (steps: seq<Step>, s: State)
    requires Runs(steps0, s0) && Spinning(s0)
    ensures Runs(steps, s) && Spinning(s) && Firings(steps) == Firings(steps0) + 1
  {
    steps, s := TimerDispatches(steps0, s0);
    steps, s := NothingToClaim(steps, s, s0);
    steps, s := FreesTheSlot(steps, s, s0);
    steps, s := EndsSilently(steps, s, s0);
    steps, s := ReadsAgain(steps, s);
  }

  /** A run up to the registration of both queues; the signal holds the first name, the second was dropped. */
  lemma RegistersA() returns (steps: seq<Step>, s: State)
    ensures Runs(steps, s)
    ensures s == START.(dispatcher := START.dispatcher.(
      infos := NONE_ACTIVE, listening := map["A" := 0], signal := Some("A"), dirty := {"A"}))
  {
    steps, s := [], START;
    steps, s := Move(steps, s, Dispatcher.Create("A", 2));
    assert s.dispatcher == START.dispatcher.(infos := [Dispatcher.Info("A", 2, 0)]);
    steps, s := Move(steps, s, Dispatcher.Create("B", 1));
    assert s.dispatcher == START.dispatcher.(infos := NONE_ACTIVE);
    steps, s := Registers(steps, s, 0);
  }

  /** Registration of a queue, up to the attempt to send its name. */
  lemma {:induction false} Registers(steps0: seq<Step>, s0: State, info: nat) returns (steps: seq<Step>, s: State)
    requires Runs(steps0, s0)
    requires s0.dispatcher.registrar == Dispatcher.Idle && s0.dispatcher.scheduler == Dispatcher.Parked
    requires info < |s0.dispatcher.infos|
    ensures Runs(steps, s)
    ensures var queue := s0.dispatcher.infos[info].queue;
      s == s0.(dispatcher := s0.dispatcher.(
        listening := s0.dispatcher.listening[queue := info], dirty := s0.dispatcher.dirty + {queue},
        signal := Dispatcher.Offered(s0.dispatcher.signal, queue)))
  {
    steps, s := Move(steps0, s0, Dispatcher.Offer(info));
    steps, s := Move(steps, s, Dispatcher.Register);
    steps, s := Move(steps, s, Dispatcher.Announce);
  }

  /** Both queues registered, the signal taken by the name of A. */
  function Announced(rows: map<Id, Due>, notices: set<QueueName>): State {
    State(START.dispatcher.(infos := NONE_ACTIVE, listening := map["A" := 0, "B" := 1], signal := Some("A"),
                            dirty := {"A", "B"}), rows, notices, None, {}, false, map[])
  }

  lemma BothRegistered() returns (steps: seq<Step>, s: State)
    ensures Runs(steps, s) && s == Announced(map[], {})
  {
    steps, s := RegistersA();
    steps, s := Registers(steps, s, 1);
    assert {"A"} + {"B"} == {"A", "B"};
  }

  /** Both rows are committed, and both notifications find the signal taken. */
  lemma RowsArrive() returns (steps: seq<Step>, s: State)
    ensures Runs(steps, s) && s == Announced(WAITING, {})
  {
    steps, s := BothRegistered();
    var notices := Notified(WAITING);
    assert notices <= {"A", "B"};
    steps, s := Extend(steps, s, Enqueue(WAITING));
    assert s == Announced(WAITING, notices);
    steps, s := Dropped(steps, s, "A", notices);
    steps, s := Dropped(steps, s, "B", notices - {"A"});
    assert notices - {"A"} - {"B"} == {};
  }

  /** A notification that finds the signal taken. */
  lemma {:induction false} Dropped(steps0: seq<Step>, s0: State, queue: QueueName, notices: set<QueueName>)
      returns (steps: seq<Step>, s: State)
    requires Runs(steps0, s0) && s0 == Announced(WAITING, notices)
    ensures Runs(steps, s) && s == Announced(WAITING, notices - {queue})
  {
    steps, s := Extend(steps0, s0, Deliver(queue));
  }

  /** Both queues registered, the row of A with its goroutine. */
  function WithJob(job: Dispatcher.Job, scheduler: Dispatcher.SchedulerPoint): State {
    State(START.dispatcher.(infos := ONE_ACTIVE, listening := map["A" := 0, "B" := 1], name := "A",
                            jobs := [job], scheduler := scheduler, dirty := {"A", "B"}),
          WAITING, {}, None, {}, false, map[])
  }

  lemma FirstDispatch() returns (steps: seq<Step>, s: State)
    ensures Runs(steps, s)
    ensures s == WithJob(Dispatcher.Job(0, Dispatcher.Starting, [], false), Dispatcher.Awaiting("A", 0))
  {
    steps, s := RowsArrive();
    var d := s.dispatcher.(name := "A", signal := None);
    steps, s := Move(steps, s, Dispatcher.Receive);
    assert s.dispatcher == d.(scheduler := Dispatcher.Checking("A"));
    steps, s := Dispatches(steps, s, NONE_ACTIVE, ONE_ACTIVE);
    var job := Dispatcher.Job(0, Dispatcher.Starting, [], false);
    assert [] + [job] == [job];
  }

  lemma FirstClaim() returns (steps: seq<Step>, s: State)
    ensures Runs(steps, s)
    ensures s == WithJob(Dispatcher.Job(0, Dispatcher.Claimed, [], false), Dispatcher.Awaiting("A", 0))
  {
    steps, s := FirstDispatch();
    assert s.dispatcher.jobs[0 := Dispatcher.Job(0, Dispatcher.Claimed, [], false)] ==
      [Dispatcher.Job(0, Dispatcher.Claimed, [], false)];
    steps, s := Move(steps, s, Dispatcher.Advance(0, Dispatcher.Claims));
  }

  lemma FirstSignal() returns (steps: seq<Step>, s: State)
    ensures Runs(steps, s)
    ensures s == WithJob(Dispatcher.Job(0, Dispatcher.Running, [true], false), Dispatcher.Awaiting("A", 0))
  {
    steps, s := FirstClaim();
    var running := Dispatcher.Job(0, Dispatcher.Running, [true], false);
    assert s.dispatcher.jobs[0 := running] == [running];
    steps, s := Move(steps, s, Dispatcher.Advance(0, Dispatcher.SignalsClaimed));
  }

  /** The scheduler has dispatched the row of A, and its job runs. */
  lemma FirstJobRuns() returns (steps: seq<Step>, s: State)
    ensures Runs(steps, s)
    ensures s == WithJob(IN_PROGRESS, Dispatcher.Checking("A"))
  {
    steps, s := FirstSignal();
    assert s.dispatcher.jobs[0 := IN_PROGRESS] == [IN_PROGRESS];
    steps, s := Move(steps, s, Dispatcher.Answer);
  }

  /** With one job in progress the scheduler goes on to dispatch another goroutine, which finds nothing. */
  lemma FirstSleep() returns (steps: seq<Step>, s: State)
    ensures Runs(steps, s) && Spinning(s)
  {
    steps, s := FirstJobRuns();
    var base := s;
    steps, s := Dispatches(steps, s, ONE_ACTIVE, TWO_ACTIVE);
    steps, s := NothingToClaim(steps, s, base);
    steps, s := FreesTheSlot(steps, s, base);
    steps, s := EndsSilently(steps, s, base);
    steps, s := ReadsAgain(steps, s);
  }

  /**
   Runs in which the timer fires any number of times without the scheduler ever checking B,
   although B has a free slot and a waiting row, and the timer is set no later than its start:
   the query keeps answering with the row of the job in progress.
   */
  lemma {:induction false} JobInProgressHidesAnotherQueue(n: nat) returns (steps: seq<Step>, s: State)
    ensures After(steps) == Some(s) && Spinning(s)
    ensures Firings(steps) >= n && Checks(steps, "B") == 0
  {
    if n == 0 {
      steps, s := FirstSleep();
    } else {
      steps, s := JobInProgressHidesAnotherQueue(n - 1);
      var inner := RunIsADispatcherRun(steps, s);
      Dispatcher.InvAlways(inner, s.dispatcher);
      steps, s := OneMoreRound(steps, s);
    }
  }
}
