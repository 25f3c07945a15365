/**
 The render-slot manager: the `autoShutdown` goroutine, two rendezvous channels, the mutex
 `p.mu`, and any number of clients inside `setupBrowser` or holding its release function.
 `MaxConcurrentRenders` is a constant; ticks, setups and renders end at any time.
 */
module RenderSlots {
  import opened Basics
  import opened Counting

  /** Program point of autoShutdown. `recycle` tells the two shutdown branches apart. */
  datatype ManagerPoint =
    | ToSetup                    // locking p.mu for setupInstance
    | InSetup
    | Select
    | Replying(client: nat)      // received an increment, the answer comes next
    | Draining
    | ToClose(recycle: bool)     // locking p.mu in shutdown
    | Closing(recycle: bool)

  /** Program point of a client. */
  datatype ClientPoint =
    | Idle
    | Asking              // sending the increment
    | AwaitingReply
    | Answered(ok: bool)
    | Locking             // locking p.mu
    | SettingUp           // the rest of these four hold p.mu
    | FailSending         // the deferred decrement of a failed setup
    | FailUnlocking
    | Ready
    | Rendering
    | Releasing           // the decrement of the release function

  datatype Owner = Nobody | Manager | Client(client: nat)

  /** `idleSince` and `agedSince` say whether `inactiveShutdown` and `maxActiveShutdown` are set. */
  datatype State = State(
    max: int, manager: ManagerPoint, active: int, idleSince: bool, agedSince: bool,
    mu: Owner, clients: seq<ClientPoint>)

  datatype Step =
    | Arrive(client: nat)
    | GiveUp(client: nat)       // the context is done
    | Accept(client: nat)       // rendezvous on activeIncrementC
    | Reply
    | ReadReply(client: nat)
    | Lock(client: nat)
    | SetupEnds(client: nat, ok: bool)
    | Decrement(client: nat)    // rendezvous on activeDecrementC
    | Unlock(client: nat)
    | FinishRender(client: nat)
    | SetupLock
    | SetupDone
    | TickIdle                  // the inactive branch of the ticker
    | TickAged                  // the lifetime branch
    | Drained
    | CloseLock
    | CloseDone

  function Start(max: int, n: nat): State {
    State(max, ToSetup, 0, false, false, Nobody, seq(n, _ => Idle))
  }

  predicate At(s: State, c: nat, point: ClientPoint) {
    c < |s.clients| && s.clients[c] == point
  }

  predicate Enabled(s: State, step: Step) {
    match step
    case Arrive(c) => At(s, c, Idle)
    case GiveUp(c) => At(s, c, Asking)
    case Accept(c) => At(s, c, Asking) && s.manager == Select
    case Reply => s.manager.Replying? && s.manager.client < |s.clients|
    case ReadReply(c) => c < |s.clients| && s.clients[c].Answered?
    case Lock(c) => At(s, c, Locking) && s.mu == Nobody
    case SetupEnds(c, _) => At(s, c, SettingUp)
    case Decrement(c) =>
      && (At(s, c, FailSending) || At(s, c, Releasing))
      && (s.manager == Select || (s.manager == Draining && s.active > 0))
    case Unlock(c) => At(s, c, FailUnlocking) || At(s, c, Ready)
    case FinishRender(c) => At(s, c, Rendering)
    case SetupLock => s.manager == ToSetup && s.mu == Nobody
    case SetupDone => s.manager == InSetup
    case TickIdle => s.manager == Select && s.idleSince
    case TickAged => s.manager == Select && s.agedSince
    case Drained => s.manager == Draining && s.active <= 0
    case CloseLock => s.manager.ToClose? && s.mu == Nobody
    case CloseDone => s.manager.Closing?
  }

  function WithClient(s: State, c: nat, point: ClientPoint): State
    requires c < |s.clients|
  {
    s.(clients := s.clients[c := point])
  }

  function Next(s: State, step: Step): State
    requires Enabled(s, step)
  {
    match step
    case Arrive(c) => WithClient(s, c, Asking)
    case GiveUp(c) => WithClient(s, c, Idle)
    case Accept(c) => WithClient(s, c, AwaitingReply).(manager := Replying(c))
    case Reply => AfterReply(s, s.manager.client)
    case ReadReply(c) => WithClient(s, c, if s.clients[c].ok then Locking else Idle)
    case Lock(c) => WithClient(s, c, SettingUp).(mu := Client(c))
    case SetupEnds(c, ok) => WithClient(s, c, if ok then Ready else FailSending)
    case Decrement(c) => AfterDecrement(WithClient(s, c, if s.clients[c] == FailSending then FailUnlocking else Idle))
    case Unlock(c) => WithClient(s, c, if s.clients[c] == Ready then Rendering else Idle).(mu := Nobody)
    case FinishRender(c) => WithClient(s, c, Releasing)
    case SetupLock => s.(manager := InSetup, mu := Manager)
    case SetupDone => s.(manager := Select, mu := Nobody)
    case TickIdle => if s.active <= 0 then s.(manager := ToClose(false)) else s.(idleSince := false)
    case TickAged => s.(manager := Draining)
    case Drained => s.(manager := ToClose(true))
    case CloseLock => s.(manager := Closing(s.manager.recycle), mu := Manager)
    case CloseDone =>
      if s.manager.recycle then s.(manager := Select, mu := Nobody, agedSince := false)
      else s.(manager := Select, mu := Nobody, idleSince := false)
  }

  function AfterReply(s: State, c: nat): State
    requires c < |s.clients|
  {
    if s.active + 1 > s.max then
      WithClient(s, c, Answered(false)).(manager := Select)
    else
      WithClient(s, c, Answered(true)).(
      manager := Select, agedSince := s.agedSince || s.active == 0, active := s.active + 1, idleSince := false)
  }

  /** The manager's side of a decrement: only its main select resets the idle clock. */
  function AfterDecrement(s: State): State {
    if s.manager == Draining then s.(active := s.active - 1)
    else if s.active - 1 <= 0 then s.(active := 0, idleSince := true)
    else s.(active := s.active - 1)
  }

  /** The state after a run, when its steps are all enabled. */
  function After(s: State, steps: seq<Step>): Option<State> {
    if steps == [] then
      Some(s)
    else
      match After(s, steps[..|steps| - 1])
      case Some(t) => if Enabled(t, steps[|steps| - 1]) then Some(Next(t, steps[|steps| - 1])) else None
      case None => None
  }

  // ---------------------------------------------------------------------------------------
  // Invariant

  /** The client was granted a slot that the manager has not received back. */
  predicate HoldsSlot(p: ClientPoint) {
    match p
    case Idle => false
    case Asking => false
    case AwaitingReply => false
    case Answered(ok) => ok
    case FailUnlocking => false
    case _ => true
  }

  predicate HoldsMutex(p: ClientPoint) {
    p == SettingUp || p == FailSending || p == FailUnlocking || p == Ready
  }

  ghost function SlotWeight(): ClientPoint -> nat {
    p => if HoldsSlot(p) then 1 else 0
  }

  /** The granted slots not yet received back. */
  ghost function Outstanding(s: State): nat {
    Total(s.clients, SlotWeight())
  }

  predicate MutexOk(s: State) {
    && (s.mu == Manager <==> s.manager == InSetup || s.manager.Closing?)
    && (forall c :: 0 <= c < |s.clients| ==> (HoldsMutex(s.clients[c]) <==> s.mu == Client(c)))
    && (s.mu.Client? ==> s.mu.client < |s.clients|)
  }

  predicate RepliesOk(s: State) {
    && (s.manager.Replying? ==> s.manager.client < |s.clients|)
    && (forall c :: 0 <= c < |s.clients| ==> (s.clients[c] == AwaitingReply <==> s.manager == Replying(c)))
  }

  /** Where the manager needs the mutex, or is about to shut the browser down. */
  predicate ManagerIsAlone(m: ManagerPoint) {
    m == ToSetup || m == InSetup || m.ToClose? || m.Closing?
  }

  predicate CountOk(s: State) {
    && 0 <= s.active
    && (s.active == 0 || s.active <= s.max)
    && (s.idleSince ==> s.active == 0)
    && (ManagerIsAlone(s.manager) ==> s.active == 0)
  }

  ghost predicate Inv(s: State) {
    s.active == Outstanding(s) && CountOk(s) && MutexOk(s) && RepliesOk(s)
  }

  /** The client that a step moves. */
  function Mover(s: State, step: Step): Option<nat> {
    match step
    case Arrive(c) => Some(c)
    case GiveUp(c) => Some(c)
    case Accept(c) => Some(c)
    case Reply => if s.manager.Replying? then Some(s.manager.client) else None
    case ReadReply(c) => Some(c)
    case Lock(c) => Some(c)
    case SetupEnds(c, _) => Some(c)
    case Decrement(c) => Some(c)
    case Unlock(c) => Some(c)
    case FinishRender(c) => Some(c)
    case _ => None
  }

  lemma OnlyTheMoverMoves(s: State, step: Step)
    requires Enabled(s, step)
    ensures Mover(s, step) == None ==> Next(s, step).clients == s.clients
    ensures Mover(s, step).Some? ==>
      var c := Mover(s, step).value;
      c < |s.clients| && |Next(s, step).clients| == |s.clients|
      && Next(s, step).clients == s.clients[c := Next(s, step).clients[c]]
  {
  }

  /** The count changes as the mover's slot does. */
  lemma CountFollowsTheMover(s: State, step: Step)
    requires RepliesOk(s) && 0 <= s.active && Enabled(s, step)
    requires forall c :: 0 <= c < |s.clients| && HoldsSlot(s.clients[c]) ==> s.active >= 1
    ensures Mover(s, step) == None ==> Next(s, step).active == s.active
    ensures Mover(s, step).Some? ==>
      var c := Mover(s, step).value;
      c < |s.clients| && |Next(s, step).clients| == |s.clients|
      && Next(s, step).active + SlotWeight()(s.clients[c]) == s.active + SlotWeight()(Next(s, step).clients[c])
  {
  }

  lemma HoldersAreCounted(s: State)
    requires s.active == Outstanding(s)
    ensures forall c :: 0 <= c < |s.clients| && HoldsSlot(s.clients[c]) ==> s.active >= 1
  {
    forall c | 0 <= c < |s.clients| && HoldsSlot(s.clients[c])
      ensures s.active >= 1
    {
      TotalAtLeast(s.clients, c, SlotWeight());
    }
  }

  lemma OutstandingKept(s: State, step: Step)
    requires Inv(s) && Enabled(s, step)
    ensures Next(s, step).active == Outstanding(Next(s, step))
  {
    HoldersAreCounted(s);
    OnlyTheMoverMoves(s, step);
    CountFollowsTheMover(s, step);
    if Mover(s, step).Some? {
      var c := Mover(s, step).value;
      TotalUpdate(s.clients, c, Next(s, step).clients[c], SlotWeight());
    }
  }

  lemma CountOkKept(s: State, step: Step)
    requires CountOk(s) && Enabled(s, step)
    requires forall c :: 0 <= c < |s.clients| && HoldsSlot(s.clients[c]) ==> s.active >= 1
    ensures CountOk(Next(s, step))
  {
  }

  predicate TouchesMutex(step: Step) {
    step.Lock? || step.Unlock? || step.SetupLock? || step.SetupDone? || step.CloseLock? || step.CloseDone?
  }

  lemma ManagerMutexUntouched(s: State, step: Step)
    requires Enabled(s, step) && !TouchesMutex(step)
    ensures Next(s, step).mu == s.mu
    ensures Next(s, step).manager == InSetup <==> s.manager == InSetup
    ensures Next(s, step).manager.Closing? <==> s.manager.Closing?
  {
  }

  lemma ClientMutexUntouched(s: State, step: Step)
    requires RepliesOk(s) && Enabled(s, step) && !TouchesMutex(step) && Mover(s, step).Some?
    ensures var c := Mover(s, step).value;
      c < |s.clients| && |Next(s, step).clients| == |s.clients|
      && HoldsMutex(Next(s, step).clients[c]) == HoldsMutex(s.clients[c])
  {
  }

  lemma MutexLeftKept(s: State, step: Step)
    requires MutexOk(s) && RepliesOk(s) && Enabled(s, step) && !TouchesMutex(step)
    ensures MutexOk(Next(s, step))
  {
    var t := Next(s, step);
    OnlyTheMoverMoves(s, step);
    ManagerMutexUntouched(s, step);
    if Mover(s, step).Some? {
      ClientMutexUntouched(s, step);
    }
    forall c | 0 <= c < |t.clients|
      ensures HoldsMutex(t.clients[c]) == HoldsMutex(s.clients[c])
    {
      assert Mover(s, step) != Some(c) ==> t.clients[c] == s.clients[c];
    }
  }

  lemma ClientMutexMovedKept(s: State, step: Step)
    requires MutexOk(s) && Enabled(s, step) && (step.Lock? || step.Unlock?)
    ensures MutexOk(Next(s, step))
  {
    assert step.Unlock? ==> s.mu == Client(step.client);
  }

  lemma ManagerMutexMovedKept(s: State, step: Step)
    requires MutexOk(s) && Enabled(s, step)
    requires step.SetupLock? || step.SetupDone? || step.CloseLock? || step.CloseDone?
    ensures MutexOk(Next(s, step))
  {
    assert Next(s, step).clients == s.clients;
  }

  lemma MutexKept(s: State, step: Step)
    requires MutexOk(s) && RepliesOk(s) && Enabled(s, step)
    ensures MutexOk(Next(s, step))
  {
    if !TouchesMutex(step) {
      MutexLeftKept(s, step);
    } else if step.Lock? || step.Unlock? {
      ClientMutexMovedKept(s, step);
    } else {
      ManagerMutexMovedKept(s, step);
    }
  }

  /** The manager and the client it answers enter and leave the exchange together. */
  lemma RepliesOfTheMover(s: State, step: Step, c: nat)
    requires RepliesOk(s) && Enabled(s, step) && Mover(s, step) == Some(c)
    ensures c < |s.clients| && |Next(s, step).clients| == |s.clients|
    ensures Next(s, step).clients[c] == AwaitingReply <==> Next(s, step).manager == Replying(c)
    ensures Next(s, step).manager.Replying? ==>
      Next(s, step).manager == Replying(c) || Next(s, step).manager == s.manager
    ensures s.manager.Replying? && s.manager.client != c ==> Next(s, step).manager == s.manager
  {
  }

  lemma ManagerAloneKeepsReplies(s: State, step: Step)
    requires Enabled(s, step) && Mover(s, step) == None
    ensures Next(s, step).clients == s.clients
    ensures !s.manager.Replying? && !Next(s, step).manager.Replying?
  {
  }

  lemma RepliesKept(s: State, step: Step)
    requires RepliesOk(s) && Enabled(s, step)
    ensures RepliesOk(Next(s, step))
  {
    var t := Next(s, step);
    OnlyTheMoverMoves(s, step);
    if Mover(s, step) == None {
      ManagerAloneKeepsReplies(s, step);
    } else {
      RepliesOfTheMover(s, step, Mover(s, step).value);
      forall c | 0 <= c < |t.clients|
        ensures t.clients[c] == AwaitingReply <==> t.manager == Replying(c)
      {
        assert c != Mover(s, step).value ==> t.clients[c] == s.clients[c];
      }
    }
  }

  lemma InvKept(s: State, step: Step)
    requires Inv(s) && Enabled(s, step)
    ensures Inv(Next(s, step)) && Next(s, step).max == s.max
  {
    HoldersAreCounted(s);
    OutstandingKept(s, step);
    CountOkKept(s, step);
    MutexKept(s, step);
    RepliesKept(s, step);
  }

  lemma {:induction false} InvAlways(s: State, steps: seq<Step>, t: State)
    requires Inv(s) && After(s, steps) == Some(t)
    ensures Inv(t) && t.max == s.max
  {
    if steps != [] {
      var before := After(s, steps[..|steps| - 1]).value;
      InvAlways(s, steps[..|steps| - 1], before);
      InvKept(before, steps[|steps| - 1]);
    }
  }

  lemma StartIsOk(max: int, n: nat)
    ensures Inv(Start(max, n))
  {
    TotalZero(Start(max, n).clients, SlotWeight());
  }

  // ---------------------------------------------------------------------------------------
  // Main results

  /**
   Slot accounting: `active` is exactly the number of granted slots not yet received back and
   never exceeds the limit. The manager shuts the browser down, or is about to, only when
   there are none, after a drain as well; and while it does, no client is in its setup.
   */
  lemma {:induction false} SlotAccounting(max: int, n: nat, steps: seq<Step>, s: State)
    requires After(Start(max, n), steps) == Some(s)
    ensures s.active == Outstanding(s)
    ensures s.active == 0 || s.active <= max
    ensures s.manager.ToClose? || s.manager.Closing? ==>
      forall c :: 0 <= c < |s.clients| ==> !HoldsSlot(s.clients[c])
    ensures s.manager.Closing? ==> forall c :: 0 <= c < |s.clients| ==> !HoldsMutex(s.clients[c])
    ensures s.manager == Select && s.idleSince ==> Next(s, TickIdle).manager == ToClose(false)
  {
    StartIsOk(max, n);
    InvAlways(Start(max, n), steps, s);
    if ManagerIsAlone(s.manager) {
      forall c | 0 <= c < |s.clients|
        ensures !HoldsSlot(s.clients[c])
      {
        TotalAtLeast(s.clients, c, SlotWeight());
      }
    }
  }

  /** What `MaxConcurrentRenders` is documented to mean: values below one are treated as one. */
  function DocumentedLimit(max: int): int {
    if max < 1 then 1 else max
  }

  predicate Grants(s: State)
    requires s.manager.Replying? && s.manager.client < |s.clients|
  {
    Next(s, Reply).clients[s.manager.client] == Answered(true)
  }

  /** The documented rule: a request is granted exactly when a slot of the documented limit is free. */
  ghost predicate FollowsTheRule(s: State)
    requires s.manager.Replying? && s.manager.client < |s.clients|
  {
    Grants(s) <==> Outstanding(s) < DocumentedLimit(s.max)
  }

  /**
   A request is granted exactly when fewer slots are outstanding than the limit; and every
   answer of every run follows the documented rule if and only if the limit is at least one.
   Below one, no slot is ever granted.
   */
  lemma {:induction false} GrantsFollowTheRule(max: int, n: nat, steps: seq<Step>, s: State)
    requires After(Start(max, n), steps) == Some(s)
    ensures s.manager.Replying? ==> Enabled(s, Reply) && (Grants(s) <==> Outstanding(s) < max)
    ensures s.manager.Replying? ==> Enabled(s, Reply) && (FollowsTheRule(s) <==> max >= 1)
    ensures max < 1 ==> forall c :: 0 <= c < |s.clients| ==> !HoldsSlot(s.clients[c])
  {
    StartIsOk(max, n);
    InvAlways(Start(max, n), steps, s);
    if max < 1 {
      forall c | 0 <= c < |s.clients|
        ensures !HoldsSlot(s.clients[c])
      {
        TotalAtLeast(s.clients, c, SlotWeight());
      }
    }
  }

  lemma {:induction false} Extend(s: State, steps: seq<Step>, t: State, step: Step)
      returns (longer: seq<Step>, u: State)
    requires After(s, steps) == Some(t) && Enabled(t, step)
    ensures longer == steps + [step] && After(s, longer) == Some(u) && u == Next(t, step)
  {
    longer, u := steps + [step], Next(t, step);
    assert longer[..|longer| - 1] == steps;
  }

  /** The select loop with nothing active yet. */
  function Waiting(max: int, clients: seq<ClientPoint>): State {
    State(max, Select, 0, false, false, Nobody, clients)
  }

  /** A run up to the first request. */
  lemma FirstRequest(max: int, n: nat) returns (steps: seq<Step>, s: State)
    requires n > 0
    ensures steps == [SetupLock, SetupDone, Arrive(0)] && After(Start(max, n), steps) == Some(s)
    ensures s == Waiting(max, Start(max, n).clients[0 := Asking])
  {
    var start := Start(max, n);
    steps, s := Extend(start, [], start, SetupLock);
    assert s == start.(manager := InSetup, mu := Manager);
    steps, s := Extend(start, steps, s, SetupDone);
    assert s == Waiting(max, start.clients);
    steps, s := Extend(start, steps, s, Arrive(0));
  }

  /** With the limit zero, a run whose only request is refused although the browser is idle. */
  lemma LimitZeroRefuses() returns (steps: seq<Step>, s: State)
    ensures steps == [SetupLock, SetupDone, Arrive(0), Accept(0)] && After(Start(0, 1), steps) == Some(s)
    ensures s.manager == Replying(0) && Outstanding(s) == 0 && |s.clients| == 1 && !Grants(s) && !FollowsTheRule(s)
  {
    steps, s := FirstRequest(0, 1);
    steps, s := Extend(Start(0, 1), steps, s, Accept(0));
    GrantsFollowTheRule(0, 1, steps, s);
    TotalZero(s.clients, SlotWeight());
  }

  /** With the limit one and two clients, a run up to the grant to the first. */
  lemma FirstIsGranted() returns (steps: seq<Step>, s: State)
    ensures steps == [SetupLock, SetupDone, Arrive(0), Accept(0), Reply] && After(Start(1, 2), steps) == Some(s)
    ensures s == State(1, Select, 1, false, true, Nobody, [Answered(true), Idle])
  {
    steps, s := FirstRequest(1, 2);
    assert s.clients == [Asking, Idle];
    steps, s := Extend(Start(1, 2), steps, s, Accept(0));
    assert s.clients == [AwaitingReply, Idle];
    steps, s := Extend(Start(1, 2), steps, s, Reply);
    assert s.clients == [Answered(true), Idle];
  }

  lemma SecondAsks() returns (steps: seq<Step>, s: State)
    ensures steps == [SetupLock, SetupDone, Arrive(0), Accept(0), Reply, Arrive(1)]
    ensures After(Start(1, 2), steps) == Some(s) && s.manager == Select && s.max == 1
    ensures s.clients == [Answered(true), Asking]
  {
    steps, s := FirstIsGranted();
    steps, s := Extend(Start(1, 2), steps, s, Arrive(1));
    assert s.clients == [Answered(true), Asking];
  }

  /** The second client then asks while the first holds the only slot: it is refused at once, it does not wait. */
  lemma ExcessRequestIsRefused() returns (steps: seq<Step>, s: State)
    ensures steps == [SetupLock, SetupDone, Arrive(0), Accept(0), Reply, Arrive(1), Accept(1)]
    ensures After(Start(1, 2), steps) == Some(s) && s.manager == Replying(1)
    ensures |s.clients| == 2 && HoldsSlot(s.clients[0]) && Outstanding(s) == s.max == 1
    ensures Enabled(s, Reply) && Next(s, Reply).clients[1] == Answered(false)
  {
    steps, s := SecondAsks();
    steps, s := Extend(Start(1, 2), steps, s, Accept(1));
    assert s.clients == [Answered(true), AwaitingReply];
    StartIsOk(1, 2);
    InvAlways(Start(1, 2), steps, s);
  }

  /** Steps that need no outside event: no new request, no cancellation, no tick. */
  predicate Internal(step: Step) {
    !step.Arrive? && !step.GiveUp? && !step.TickIdle? && !step.TickAged?
  }

  predicate Settled(s: State) {
    s.manager == Select && forall c :: 0 <= c < |s.clients| ==> s.clients[c] == Idle
  }

  function ClientWork(p: ClientPoint): nat {
    match p
    case Idle => 0
    case Asking => 9
    case AwaitingReply => 7
    case Answered(_) => 6
    case Locking => 5
    case SettingUp => 4
    case Ready => 3
    case FailSending => 2
    case FailUnlocking => 1
    case Rendering => 2
    case Releasing => 1
  }

  function ManagerWork(m: ManagerPoint): nat {
    match m
    case Select => 0
    case Replying(_) => 1
    case InSetup => 1
    case ToSetup => 2
    case Closing(_) => 1
    case ToClose(_) => 2
    case Draining => 3
  }

  /** The internal steps that can still happen. */
  ghost function Work(s: State): nat {
    Total(s.clients, ClientWork) + ManagerWork(s.manager)
  }

  lemma InternalStepsUseUpWork(s: State, step: Step)
    requires RepliesOk(s) && Enabled(s, step) && Internal(step)
    ensures Work(Next(s, step)) < Work(s)
  {
    OnlyTheMoverMoves(s, step);
    MoverUsesUpWork(s, step);
    if Mover(s, step).Some? {
      var c := Mover(s, step).value;
      TotalUpdate(s.clients, c, Next(s, step).clients[c], ClientWork);
    }
  }

  lemma MoverUsesUpWork(s: State, step: Step)
    requires RepliesOk(s) && Enabled(s, step) && Internal(step)
    ensures Mover(s, step) == None ==> ManagerWork(Next(s, step).manager) < ManagerWork(s.manager)
    ensures Mover(s, step).Some? ==>
      var c := Mover(s, step).value;
      c < |s.clients| && |Next(s, step).clients| == |s.clients|
      && ClientWork(Next(s, step).clients[c]) + ManagerWork(Next(s, step).manager)
         < ClientWork(s.clients[c]) + ManagerWork(s.manager)
  {
  }

  /** The holder of the mutex can move, or the manager can, even when the holder waits to send a decrement. */
  lemma MutexHolderMoves(s: State) returns (step: Step)
    requires Inv(s) && s.mu != Nobody
    ensures Internal(step) && Enabled(s, step)
  {
    if s.mu == Manager {
      step := if s.manager == InSetup then SetupDone else CloseDone;
    } else {
      var c := s.mu.client;
      TotalAtLeast(s.clients, c, SlotWeight());
      assert HoldsMutex(s.clients[c]);
      if s.clients[c] == SettingUp {
        step := SetupEnds(c, true);
      } else if s.clients[c] == FailSending {
        step := if s.manager.Replying? then Reply else Decrement(c);
      } else {
        step := Unlock(c);
      }
    }
  }

  /** With the mutex free, a client that holds a slot can move, or the manager can. */
  lemma SlotHolderMoves(s: State, c: nat) returns (step: Step)
    requires Inv(s) && s.mu == Nobody && c < |s.clients| && HoldsSlot(s.clients[c])
    ensures Internal(step) && Enabled(s, step)
  {
    TotalAtLeast(s.clients, c, SlotWeight());
    assert !HoldsMutex(s.clients[c]);
    if s.clients[c].Answered? {
      step := ReadReply(c);
    } else if s.clients[c] == Locking {
      step := Lock(c);
    } else if s.clients[c] == Rendering {
      step := FinishRender(c);
    } else {
      step := if s.manager.Replying? then Reply else Decrement(c);
    }
  }

  lemma SomeoneMoves(s: State) returns (step: Step)
    requires Inv(s) && !Settled(s)
    ensures Internal(step) && Enabled(s, step)
  {
    if s.mu != Nobody {
      step := MutexHolderMoves(s);
    } else if s.manager == ToSetup {
      step := SetupLock;
    } else if s.manager.Replying? {
      step := Reply;
    } else if s.manager.ToClose? {
      step := CloseLock;
    } else if s.manager == Draining && s.active <= 0 {
      step := Drained;
    } else if s.manager == Draining {
      var c := TotalPositive(s.clients, SlotWeight());
      step := SlotHolderMoves(s, c);
    } else {
      assert s.manager == Select;
      var c :| 0 <= c < |s.clients| && s.clients[c] != Idle;
      if HoldsSlot(s.clients[c]) {
        step := SlotHolderMoves(s, c);
      } else {
        step := if s.clients[c] == Asking then Accept(c) else ReadReply(c);
      }
    }
  }

  /**
   No deadlock and no livelock: in every reachable state, unless all is settled, some step is
   enabled that needs no outside event, and every run of such steps is at most `Work` long; so
   without new requests and ticks everything settles.
   */
  lemma {:induction false} NeverDeadlocked(max: int, n: nat, steps: seq<Step>, s: State, more: seq<Step>, t: State)
    requires After(Start(max, n), steps) == Some(s)
    requires After(s, more) == Some(t) && forall step :: step in more ==> Internal(step)
    ensures |more| + Work(t) <= Work(s)
    ensures Settled(t) || exists step :: Internal(step) && Enabled(t, step)
  {
    StartIsOk(max, n);
    InvAlways(Start(max, n), steps, s);
    InternalRunsAreShort(s, more, t);
    InvAlways(s, more, t);
    if !Settled(t) {
      var step := SomeoneMoves(t);
    }
  }

  lemma {:induction false} InternalRunsAreShort(s: State, more: seq<Step>, t: State)
    requires Inv(s) && After(s, more) == Some(t) && forall step :: step in more ==> Internal(step)
    ensures |more| + Work(t) <= Work(s)
  {
    if more != [] {
      var init, last := more[..|more| - 1], more[|more| - 1];
      var before := After(s, init).value;
      assert last in more;
      InternalRunsAreShort(s, init, before);
      InvAlways(s, init, before);
      InternalStepsUseUpWork(before, last);
    }
  }

  // ---------------------------------------------------------------------------------------
  // The two clocks

  /**
   The last slot that comes back starts the idle clock: the next tick of it shuts the browser
   down, after which the clock is off. A grant in between turns it off.
   */
  lemma {:induction false} IdleBrowserIsShutDown(max: int, n: nat, steps: seq<Step>, s: State, c: nat)
    requires After(Start(max, n), steps) == Some(s)
    requires s.manager == Select && Outstanding(s) == 1 && Enabled(s, Decrement(c))
    ensures var t := Next(s, Decrement(c));
      && Outstanding(t) == 0 && t.manager == Select && Enabled(t, TickIdle)
      && Next(t, TickIdle).manager == ToClose(false)
    ensures var u := Next(Next(s, Decrement(c)), TickIdle);
      u.mu == Nobody ==>
        && Enabled(u, CloseLock) && Next(u, CloseLock).mu == Manager
        && Enabled(Next(u, CloseLock), CloseDone)
        && var v := Next(Next(u, CloseLock), CloseDone);
           v.manager == Select && v.mu == Nobody && !Enabled(v, TickIdle)
  {
    StartIsOk(max, n);
    InvAlways(Start(max, n), steps, s);
    OutstandingKept(s, Decrement(c));
  }

  /** A granted slot turns the idle clock off, and the first one starts the clock of the browser's age. */
  lemma {:induction false} GrantSetsTheClocks(max: int, n: nat, steps: seq<Step>, s: State)
    requires After(Start(max, n), steps) == Some(s) && s.manager.Replying?
    ensures Enabled(s, Reply)
    ensures Grants(s) ==> !Enabled(Next(s, Reply), TickIdle)
    ensures Grants(s) && Outstanding(s) == 0 ==> Enabled(Next(s, Reply), TickAged)
    ensures !Grants(s) ==>
      && (Enabled(Next(s, Reply), TickIdle) <==> s.idleSince)
      && (Enabled(Next(s, Reply), TickAged) <==> s.agedSince)
  {
    StartIsOk(max, n);
    InvAlways(Start(max, n), steps, s);
  }

  /**
   An aged browser is recycled once all slots have come back: no request is accepted while the
   manager drains, and no tick heard; it goes on draining with each decrement, and shuts the
   browser down exactly when none is left.
   */
  lemma {:induction false} DrainingEndsWithTheLastSlot(max: int, n: nat, steps: seq<Step>, s: State)
    requires After(Start(max, n), steps) == Some(s) && s.manager == Draining
    ensures forall c :: !Enabled(s, Accept(c))
    ensures !Enabled(s, TickIdle) && !Enabled(s, TickAged)
    ensures Enabled(s, Drained) <==> Outstanding(s) == 0
    ensures forall c :: Enabled(s, Decrement(c)) ==> Outstanding(s) > 0 && Next(s, Decrement(c)).manager == Draining
  {
    StartIsOk(max, n);
    InvAlways(Start(max, n), steps, s);
  }

  /** The tick of the age clock starts the draining; the shutdown after it turns that clock off. */
  lemma AgedBrowserIsRecycled(s: State)
    ensures Enabled(s, TickAged) ==> Next(s, TickAged) == s.(manager := Draining)
    ensures Enabled(s, Drained) ==> Next(s, Drained) == s.(manager := ToClose(true))
    ensures s.manager == Closing(true) ==>
      && Enabled(s, CloseDone) && Next(s, CloseDone).manager == Select && Next(s, CloseDone).mu == Nobody
      && !Enabled(Next(s, CloseDone), TickAged)
  {
  }

  // ---------------------------------------------------------------------------------------
  // A render from its grant to its end

  predicate Goes(s: State, step: Step, t: State) {
    Enabled(s, step) && t == Next(s, step)
  }

  /** With the mutex free, a granted client takes it. */
  lemma GrantedClientLocks(s: State, c: nat) returns (a: State, b: State)
    requires At(s, c, Answered(true)) && s.mu == Nobody
    ensures Goes(s, ReadReply(c), a) && Goes(a, Lock(c), b)
    ensures b == WithClient(s, c, SettingUp).(mu := Client(c))
  {
    a := Next(s, ReadReply(c));
    b := Next(a, Lock(c));
    assert b.clients == s.clients[c := SettingUp];
  }

  /** It sets up and renders, up to its decrement, with the mutex free again. */
  lemma RenderComesToItsEnd(s: State, c: nat) returns (a: State, b: State, d: State, e: State, t: State)
    requires At(s, c, Answered(true)) && s.mu == Nobody
    ensures Goes(s, ReadReply(c), a) && Goes(a, Lock(c), b) && b.mu == Client(c)
    ensures Goes(b, SetupEnds(c, true), d) && Goes(d, Unlock(c), e) && e.clients[c] == Rendering && e.mu == Nobody
    ensures Goes(e, FinishRender(c), t) && t == WithClient(s, c, Releasing)
  {
    a, b := GrantedClientLocks(s, c);
    d := Next(b, SetupEnds(c, true));
    e := Next(d, Unlock(c));
    t := Next(e, FinishRender(c));
    assert t.clients == s.clients[c := Releasing];
  }

  /** A failed setup sends its decrement with the mutex held, and then gives the mutex back. */
  lemma FailedSetupGivesBoth(s: State, c: nat) returns (a: State, b: State, t: State)
    requires At(s, c, SettingUp) && s.mu == Client(c) && s.manager == Select && s.active > 0
    ensures Goes(s, SetupEnds(c, false), a) && Goes(a, Decrement(c), b) && b.active == s.active - 1 && b.mu == Client(c)
    ensures Goes(b, Unlock(c), t) && t.mu == Nobody && At(t, c, Idle) && t.active == s.active - 1
  {
    a := Next(s, SetupEnds(c, false));
    b := Next(a, Decrement(c));
    t := Next(b, Unlock(c));
  }

  /** A request waits until it is accepted, and can be given up as long as it waits. */
  lemma RequestsComeAndGo(s: State, c: nat) returns (a: State, b: State)
    requires At(s, c, Idle)
    ensures Goes(s, Arrive(c), a) && a == WithClient(s, c, Asking)
    ensures Goes(a, GiveUp(c), b) && b == s
    ensures Enabled(a, Accept(c)) <==> s.manager == Select
    ensures Enabled(a, Accept(c)) ==>
      Next(a, Accept(c)).manager == Replying(c) && At(Next(a, Accept(c)), c, AwaitingReply)
  {
    a := Next(s, Arrive(c));
    b := Next(a, GiveUp(c));
    assert b.clients == s.clients;
  }
}
