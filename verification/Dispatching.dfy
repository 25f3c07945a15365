/**
 What the dispatcher gets done: free slots are filled, finished jobs and new workers bring the
 scheduler back to their queue, and it knows which queues are busy.
 */
module Dispatching {
  import opened Basics
  import opened Dispatcher

  predicate Goes(s: State, step: Step, t: State) {
    WellFormed(s) && Enabled(s, step) && t == Next(s, step)
  }

  /** The states that a list of steps goes through. */
  ghost predicate Path(states: seq<State>, steps: seq<Step>) {
    |states| == |steps| + 1 &&
    forall i {:trigger steps[i]} :: 0 <= i < |steps| ==> Goes(states[i], steps[i], states[i + 1])
  }

  /** The steps lead from one state to another. */
  ghost predicate Leads(s: State, steps: seq<Step>, t: State) {
    exists states :: Path(states, steps) && states[0] == s && states[|steps|] == t
  }

  lemma LeadsAppend(s: State, a: seq<Step>, t: State, b: seq<Step>, u: State)
    requires Leads(s, a, t) && Leads(t, b, u)
    ensures Leads(s, a + b, u)
  {
    var x :| Path(x, a) && x[0] == s && x[|a|] == t;
    var y :| Path(y, b) && y[0] == t && y[|b|] == u;
    var states := x + y[1..];
    forall i | 0 <= i < |a + b|
      ensures Goes(states[i], (a + b)[i], states[i + 1])
    {
      if i < |a| {
        assert (a + b)[i] == a[i];
      } else {
        assert (a + b)[i] == b[i - |a|];
      }
    }
    assert Path(states, a + b) && states[0] == s && states[|a + b|] == u;
  }

  lemma StepOn(steps: seq<Step>, s: State, step: Step, t: State)
    requires After(steps) == Some(s) && Goes(s, step, t)
    ensures After(steps + [step]) == Some(t)
  {
    var longer, u := Extend(steps, s, step);
  }

  lemma OneMore(steps: seq<Step>, more: seq<Step>, n: nat)
    requires 0 < n <= |more|
    ensures steps + more[..n - 1] + [more[n - 1]] == steps + more[..n]
  {
    assert more[..n] == more[..n - 1] + [more[n - 1]];
  }

  lemma {:induction false} PathOn(steps: seq<Step>, states: seq<State>, more: seq<Step>, n: nat)
    requires Path(states, more) && n <= |more| && After(steps) == Some(states[0])
    ensures After(steps + more[..n]) == Some(states[n])
  {
    if n == 0 {
      assert steps + more[..0] == steps;
    } else {
      PathOn(steps, states, more, n - 1);
      assert Goes(states[n - 1], more[n - 1], states[n]);
      StepOn(steps + more[..n - 1], states[n - 1], more[n - 1], states[n]);
      OneMore(steps, more, n);
    }
  }

  /** What a reachable state leads to is reachable. */
  lemma LeadsOn(steps: seq<Step>, s: State, more: seq<Step>, t: State)
    requires After(steps) == Some(s) && Leads(s, more, t)
    ensures After(steps + more) == Some(t)
  {
    var states :| Path(states, more) && states[0] == s && states[|more|] == t;
    PathOn(steps, states, more, |more|);
    assert more[..|more|] == more;
  }

  lemma FourSteps(s: State, a: State, b: State, c: State, t: State, steps: seq<Step>)
    requires |steps| == 4 && Goes(s, steps[0], a) && Goes(a, steps[1], b)
    requires Goes(b, steps[2], c) && Goes(c, steps[3], t)
    ensures Leads(s, steps, t)
  {
    assert Path([s, a, b, c, t], steps);
  }

  lemma NoSteps(s: State)
    ensures Leads(s, [], s)
  {
    assert Path([s], []);
  }

  // ---------------------------------------------------------------------------------------
  // Free slots are filled

  /** A slot of the `WorkerInfo` that the scheduler would find under this name is free. */
  predicate HasFreeSlot(s: State, queue: QueueName)
    requires WellFormed(s)
  {
    queue in s.listening && s.infos[s.listening[queue]].nActive < s.infos[s.listening[queue]].limit
  }

  /**
   A check dispatches one more goroutine, takes one slot of the listening worker for it and waits
   for it, if and only if the queue has a worker with a free slot. Otherwise it only leaves the loop.
   */
  lemma {:induction false} CheckTakesAFreeSlot(steps: seq<Step>, s: State, queue: QueueName)
    requires After(steps) == Some(s) && s.scheduler == Checking(queue)
    ensures WellFormed(s) && Enabled(s, Check)
    ensures |Next(s, Check).jobs| > |s.jobs| <==> HasFreeSlot(s, queue)
    ensures HasFreeSlot(s, queue) ==>
      var i := s.listening[queue];
      Next(s, Check) == s.(infos := s.infos[i := Info(s.infos[i].queue, s.infos[i].limit, s.infos[i].nActive + 1)],
                           jobs := s.jobs + [Job(i, Starting, [], false)],
                           scheduler := Awaiting(queue, |s.jobs|))
    ensures !HasFreeSlot(s, queue) ==> Next(s, Check) == s.(scheduler := ToRead)
  {
    InvAlways(steps, s);
  }

  /** A check whose goroutine claims a row and says so. */
  function Round(job: nat): seq<Step> {
    [Check, Advance(job, Claims), Advance(job, SignalsClaimed), Answer]
  }

  function Rounds(job: nat, n: nat): seq<Step> {
    if n == 0 then [] else Rounds(job, n - 1) + Round(job + n - 1)
  }

  lemma ClaimAndSignal(s: State, j: nat) returns (a: State, t: State)
    requires WellFormed(s) && j < |s.jobs| && s.jobs[j].at == Starting && s.jobs[j].sends == []
    ensures Goes(s, Advance(j, Claims), a) && Goes(a, Advance(j, SignalsClaimed), t) && WellFormed(t)
    ensures t == s.(jobs := s.jobs[j := s.jobs[j].(at := Running, sends := [true])])
  {
    a := Next(s, Advance(j, Claims));
    assert a == s.(jobs := s.jobs[j := s.jobs[j].(at := Claimed)]);
    WellFormedKept(s, Advance(j, Claims));
    t := Next(a, Advance(j, SignalsClaimed));
    WellFormedKept(a, Advance(j, SignalsClaimed));
    assert a.jobs[j := t.jobs[j]] == s.jobs[j := t.jobs[j]];
  }

  lemma OneRound(s: State, queue: QueueName) returns (t: State)
    requires WellFormed(s) && s.scheduler == Checking(queue) && HasFreeSlot(s, queue)
    ensures Leads(s, Round(|s.jobs|), t) && WellFormed(t)
    ensures var i := s.listening[queue];
      t == s.(infos := s.infos[i := s.infos[i].(nActive := s.infos[i].nActive + 1)],
              jobs := s.jobs + [Job(i, Running, [true], true)])
  {
    var i, j := s.listening[queue], |s.jobs|;
    var a := Next(s, Check);
    WellFormedKept(s, Check);
    assert a.jobs[j] == Job(i, Starting, [], false);
    var b, c := ClaimAndSignal(a, j);
    assert c.jobs == s.jobs + [Job(i, Running, [true], false)];
    t := Next(c, Answer);
    WellFormedKept(c, Answer);
    assert t.jobs == s.jobs + [Job(i, Running, [true], true)];
    FourSteps(s, a, b, c, t, Round(j));
  }

  /** Still checking the queue, with `n` more of its slots taken by `n` more goroutines. */
  predicate HasFilled(s: State, t: State, queue: QueueName, n: nat) {
    && WellFormed(s) && WellFormed(t) && queue in s.listening
    && t.scheduler == Checking(queue) && t.listening == s.listening
    && |t.jobs| == |s.jobs| + n && |t.infos| == |s.infos|
    && t.infos[s.listening[queue]] == s.infos[s.listening[queue]].(nActive := s.infos[s.listening[queue]].nActive + n)
  }

  lemma FillsOneMore(s: State, queue: QueueName, job: nat) returns (t: State)
    requires WellFormed(s) && s.scheduler == Checking(queue) && HasFreeSlot(s, queue) && job == |s.jobs|
    ensures Leads(s, Round(job), t) && HasFilled(s, t, queue, 1)
  {
    t := OneRound(s, queue);
  }

  lemma JoinLeads(s: State, u: State, t: State, job: nat, n: nat)
    requires n > 0 && Leads(s, Rounds(job, n - 1), u) && Leads(u, Round(job + n - 1), t)
    ensures Leads(s, Rounds(job, n), t)
  {
    LeadsAppend(s, Rounds(job, n - 1), u, Round(job + n - 1), t);
  }

  lemma JoinFilled(s: State, u: State, t: State, queue: QueueName, n: nat)
    requires n > 0 && HasFilled(s, u, queue, n - 1) && HasFilled(u, t, queue, 1)
    ensures HasFilled(s, t, queue, n)
  {
  }

  lemma AnotherRound(s: State, u: State, queue: QueueName, n: nat) returns (t: State)
    requires n > 0 && Leads(s, Rounds(|s.jobs|, n - 1), u) && HasFilled(s, u, queue, n - 1) && HasFreeSlot(u, queue)
    ensures Leads(s, Rounds(|s.jobs|, n), t) && HasFilled(s, t, queue, n)
  {
    t := FillsOneMore(u, queue, |s.jobs| + n - 1);
    JoinLeads(s, u, t, |s.jobs|, n);
    JoinFilled(s, u, t, queue, n);
  }

  /**
   From any check, `n` rounds take `n` more slots, as many as there are below the limit; so with
   enough due rows the scheduler fills all slots before it leaves the loop.
   */
  lemma {:induction false} RoundsFillTheSlots(s: State, queue: QueueName, n: nat) returns (t: State)
    requires WellFormed(s) && s.scheduler == Checking(queue) && queue in s.listening
    requires n > 0 ==> s.infos[s.listening[queue]].nActive + n <= s.infos[s.listening[queue]].limit
    ensures Leads(s, Rounds(|s.jobs|, n), t) && HasFilled(s, t, queue, n)
    ensures HasFreeSlot(t, queue) <==>
      s.infos[s.listening[queue]].nActive + n < s.infos[s.listening[queue]].limit
  {
    if n == 0 {
      t := s;
      NoSteps(s);
    } else {
      var u := RoundsFillTheSlots(s, queue, n - 1);
      t := AnotherRound(s, u, queue, n);
    }
  }

  // ---------------------------------------------------------------------------------------
  // What brings the scheduler back

  /** A job that has ended gives its slot back and leaves the name of its queue in the signal. */
  lemma EndsAndSends(s: State, j: nat) returns (a: State, b: State, c: State)
    requires WellFormed(s) && s.signal == None && j < |s.jobs| && s.jobs[j].at == Running && s.jobs[j].sends == [true]
    ensures Goes(s, Advance(j, Finishes), a) && Goes(a, Advance(j, FreesSlot), b) && Goes(b, Advance(j, Sends), c)
    ensures WellFormed(c) && c.scheduler == s.scheduler && c.signal == Some(s.infos[s.jobs[j].info].queue)
    ensures var i := s.jobs[j].info; c.infos == s.infos[i := s.infos[i].(nActive := s.infos[i].nActive - 1)]
  {
    a := Next(s, Advance(j, Finishes));
    WellFormedKept(s, Advance(j, Finishes));
    assert a == s.(jobs := s.jobs[j := s.jobs[j].(at := Leaving(RanJob))]);
    b := Next(a, Advance(j, FreesSlot));
    WellFormedKept(a, Advance(j, FreesSlot));
    assert b.jobs[j].at == Freed(RanJob) && b.jobs[j].info == s.jobs[j].info && b.signal == None;
    c := Next(b, Advance(j, Sends));
    WellFormedKept(b, Advance(j, Sends));
  }

  /**
   A job that ends while the scheduler sleeps gives its slot back and brings the scheduler to its
   own queue.
   */
  lemma {:induction false} FinishedJobBringsTheScheduler(steps: seq<Step>, s: State, j: nat) returns (t: State)
    requires After(steps) == Some(s) && WellFormed(s) && j < |s.jobs| && s.jobs[j].at == Running
    requires s.scheduler == Parked && s.signal == None
    ensures Leads(s, [Advance(j, Finishes), Advance(j, FreesSlot), Advance(j, Sends), Receive], t)
    ensures t.scheduler == Checking(s.infos[s.jobs[j].info].queue) && t.signal == None
    ensures var i := s.jobs[j].info; t.infos == s.infos[i := s.infos[i].(nActive := s.infos[i].nActive - 1)]
  {
    InvAlways(steps, s);
    assert ClaimProtocol(s.jobs[j]);
    var a, b, c := EndsAndSends(s, j);
    t := Next(c, Receive);
    FourSteps(s, a, b, c, t, [Advance(j, Finishes), Advance(j, FreesSlot), Advance(j, Sends), Receive]);
  }

  /** A worker that registers while the scheduler sleeps replaces the old one and brings the scheduler to its queue. */
  lemma NewWorkerBringsTheScheduler(s: State, info: nat) returns (t: State)
    requires WellFormed(s) && info < |s.infos|
    requires s.scheduler == Parked && s.signal == None && s.registrar == Idle
    ensures Leads(s, [Offer(info), Register, Announce, Receive], t)
    ensures t.scheduler == Checking(s.infos[info].queue) && t.signal == None && t.infos == s.infos
    ensures t.listening == s.listening[s.infos[info].queue := info]
  {
    var a := Next(s, Offer(info));
    WellFormedKept(s, Offer(info));
    var b := Next(a, Register);
    WellFormedKept(a, Register);
    assert b.registrar == Registered(s.infos[info].queue);
    var c := Next(b, Announce);
    WellFormedKept(b, Announce);
    t := Next(c, Receive);
    FourSteps(s, a, b, c, t, [Offer(info), Register, Announce, Receive]);
  }

  /** A notification does the same for the queue it names. */
  lemma NotificationBringsTheScheduler(s: State, queue: QueueName) returns (a: State, t: State)
    requires WellFormed(s) && s.scheduler == Parked && s.signal == None
    ensures Goes(s, Notify(queue), a) && Goes(a, Receive, t)
    ensures t == s.(scheduler := Checking(queue), name := queue)
  {
    a := Next(s, Notify(queue));
    WellFormedKept(s, Notify(queue));
    t := Next(a, Receive);
  }

  /** Whatever wakes the scheduler, it will read every queue before it sleeps again. */
  lemma WakingLeadsToARead(s: State, step: Step, queue: QueueName)
    requires WellFormed(s) && Enabled(s, step) && (step == TimerFires || step == Receive)
    ensures ReadAhead(Next(s, step), queue)
  {
  }

  // ---------------------------------------------------------------------------------------
  // What the scheduler knows

  /** A queue at its limit was skipped as busy, or will be read. */
  predicate LimitsAreKnown(s: State)
    requires WellFormed(s)
  {
    forall q :: q in s.listening && q !in s.dirty && !HasFreeSlot(s, q) ==> q in s.busy || ReadAhead(s, q)
  }

  lemma LimitsStayKnown(s: State, step: Step)
    requires WellFormed(s) && LimitsAreKnown(s) && Enabled(s, step) && WellFormed(Next(s, step))
    ensures LimitsAreKnown(Next(s, step))
  {
  }

  lemma {:induction false} LimitsAreAlwaysKnown(steps: seq<Step>, s: State)
    requires After(steps) == Some(s)
    ensures WellFormed(s) && LimitsAreKnown(s)
  {
    InvAlways(steps, s);
    if steps != [] {
      LimitsAreAlwaysKnown(steps[..|steps| - 1], After(steps[..|steps| - 1]).value);
      LimitsStayKnown(After(steps[..|steps| - 1]).value, steps[|steps| - 1]);
    }
  }

  /**
   While the scheduler sleeps it has left out of its query exactly the queues without a free
   slot, but for those of which something changed since.
   */
  lemma {:induction false} BusyIsExact(steps: seq<Step>, s: State, queue: QueueName)
    requires After(steps) == Some(s) && s.scheduler == Parked && queue in s.listening
    requires queue !in s.dirty && queue !in s.silent
    ensures WellFormed(s) && (queue in s.busy <==> !HasFreeSlot(s, queue))
  {
    InvAlways(steps, s);
    LimitsAreAlwaysKnown(steps, s);
  }

  /** All goroutines that left startWork ran a job, and no slot was freed silently. */
  predicate NothingSilent(s: State) {
    s.silent == {} &&
    forall j :: 0 <= j < |s.jobs| ==> (s.jobs[j].at.Leaving? || s.jobs[j].at.Freed? ==> s.jobs[j].at.exit == RanJob)
  }

  lemma StaysLoud(s: State, step: Step)
    requires WellFormed(s) && Enabled(s, step) && NothingSilent(s)
    requires step.Advance? ==> !step.move.FindsNothing? && !step.move.Panics?
    ensures NothingSilent(Next(s, step))
  {
  }

  /** A slot is only freed silently by a goroutine that has found nothing to claim, or has panicked. */
  lemma {:induction false} SilenceHasACause(steps: seq<Step>, s: State)
    requires After(steps) == Some(s)
    requires forall step :: step in steps && step.Advance? ==> !step.move.FindsNothing? && !step.move.Panics?
    ensures NothingSilent(s)
  {
    if steps != [] {
      var init, step := steps[..|steps| - 1], steps[|steps| - 1];
      assert step in steps && forall x :: x in init ==> x in steps;
      SilenceHasACause(init, After(init).value);
      StaysLoud(After(init).value, step);
    }
  }

  // ---------------------------------------------------------------------------------------
  // The workers

  /** The queues and limits that the application has asked for, in order. */
  function Created(steps: seq<Step>): seq<(QueueName, int)> {
    if steps == [] then []
    else
      Created(steps[..|steps| - 1]) +
      (if steps[|steps| - 1].Create? then [(steps[|steps| - 1].queue, steps[|steps| - 1].limit)] else [])
  }

  predicate AsCreated(info: Info, queue: QueueName, limit: int) {
    info.queue == queue && info.limit == if limit == 0 then 1 else limit
  }

  lemma LimitsStay(s: State, step: Step)
    requires WellFormed(s) && Enabled(s, step)
    ensures |Next(s, step).infos| == |s.infos| + (if step.Create? then 1 else 0)
    ensures forall i {:trigger Next(s, step).infos[i]} :: 0 <= i < |s.infos| ==>
      Next(s, step).infos[i].queue == s.infos[i].queue && Next(s, step).infos[i].limit == s.infos[i].limit
    ensures step.Create? ==>
      AsCreated(Next(s, step).infos[|s.infos|], step.queue, step.limit) && Next(s, step).infos[|s.infos|].nActive == 0
  {
  }

  /** The workers keep their queues and limits for good; a zero limit means one. */
  lemma {:induction false} WorkersAreAsCreated(steps: seq<Step>, s: State)
    requires After(steps) == Some(s)
    ensures |s.infos| == |Created(steps)|
    ensures forall i {:trigger s.infos[i]} :: 0 <= i < |s.infos| ==>
      AsCreated(s.infos[i], Created(steps)[i].0, Created(steps)[i].1)
  {
    if steps != [] {
      WorkersAreAsCreated(steps[..|steps| - 1], After(steps[..|steps| - 1]).value);
      LimitsStay(After(steps[..|steps| - 1]).value, steps[|steps| - 1]);
    }
  }
}
