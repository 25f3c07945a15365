/**
 The channel limiter: a buffered channel of tokens, the `start` goroutine that refills it on
 every tick, and any number of concurrent callers. `IsLimited` is two separate channel
 operations, a take and a put-back that may be dropped.
 */
module ChannelLimiter {
  import opened Basics

  /** Program point of the start goroutine. */
  datatype Refiller = Filling(i: nat) | Waiting | Returned

  /**
   `bucket` is the number of tokens in the channel and `holding` the number of IsLimited
   calls between their take and their put-back. `grants`, `rounds`, `sent` and `lost` are
   history: Takes that succeeded, refill rounds started, tokens put in by `start`, and tokens
   dropped at a put-back.
   */
  datatype State = State(
    count: nat, bucket: nat, refiller: Refiller, tickPending: bool, stopped: bool, holding: nat,
    grants: nat, rounds: nat, sent: nat, lost: nat, roundsAfterStop: nat)

  datatype Step =
    | Fill          // one non-blocking send of start
    | EndRound      // the for loop is done
    | Tick          // the ticker fires
    | NextRound     // start receives the tick
    | Return        // start receives from done
    | Grant         // Take, TakeContext or WaitTake receives a token
    | Borrow        // IsLimited receives a token
    | PutBack       // the second half of IsLimited
    | Stop

  function Start(count: nat): State {
    State(count, 0, Filling(0), false, false, 0, 0, 1, 0, 0, 0)
  }

  predicate Enabled(s: State, step: Step) {
    match step
    case Fill => s.refiller.Filling? && s.refiller.i < s.count
    case EndRound => s.refiller == Filling(s.count)
    case Tick => !s.stopped
    case NextRound => s.refiller == Waiting && s.tickPending
    case Return => s.refiller == Waiting && s.stopped
    case Grant => s.bucket > 0
    case Borrow => s.bucket > 0
    case PutBack => s.holding > 0
    case Stop => true
  }

  function Next(s: State, step: Step): State
    requires Enabled(s, step)
  {
    match step
    case Fill =>
      var t := s.(refiller := Filling(s.refiller.i + 1));
      if s.bucket < s.count then t.(bucket := s.bucket + 1, sent := s.sent + 1) else t
    case EndRound => s.(refiller := Waiting)
    case Tick => s.(tickPending := true)
    case NextRound =>
      s.(refiller := Filling(0), tickPending := false, rounds := s.rounds + 1,
      roundsAfterStop := s.roundsAfterStop + if s.stopped then 1 else 0)
    case Return => s.(refiller := Returned)
    case Grant => s.(bucket := s.bucket - 1, grants := s.grants + 1)
    case Borrow => s.(bucket := s.bucket - 1, holding := s.holding + 1)
    case PutBack =>
      var t := s.(holding := s.holding - 1);
      if s.bucket < s.count then t.(bucket := s.bucket + 1) else t.(lost := s.lost + 1)
    case Stop => s.(stopped := true)
  }

  /** The state after a run, when its steps are all enabled. */
  function After(count: nat, steps: seq<Step>): Option<State> {
    if steps == [] then
      Some(Start(count))
    else
      match After(count, steps[..|steps| - 1])
      case Some(s) => if Enabled(s, steps[|steps| - 1]) then Some(Next(s, steps[|steps| - 1])) else None
      case None => None
  }

  /** The sends that the current and the earlier rounds have attempted. */
  function Attempts(s: State): int {
    if s.refiller.Filling? then s.count * (s.rounds - 1) + s.refiller.i else s.count * s.rounds
  }

  predicate Inv(s: State) {
    && s.bucket <= s.count
    && s.grants + s.bucket + s.holding + s.lost == s.sent
    && s.rounds >= 1
    && s.sent <= Attempts(s)
    && (s.refiller.Filling? ==> s.refiller.i <= s.count)
    && s.roundsAfterStop + (if s.tickPending && s.stopped then 1 else 0) <= 1
    && (!s.stopped ==> s.roundsAfterStop == 0)
  }

  lemma InvKept(s: State, step: Step)
    requires Inv(s) && Enabled(s, step)
    ensures Inv(Next(s, step)) && Next(s, step).count == s.count
  {
    RoundsDistribute(s.count, s.rounds);
  }

  lemma RoundsDistribute(count: nat, rounds: int)
    ensures count * (rounds - 1) + count == count * rounds
    ensures count * (rounds + 1 - 1) == count * rounds
  {
  }

  lemma AttemptsAtMost(s: State)
    requires Inv(s)
    ensures Attempts(s) <= s.count * s.rounds
  {
    RoundsDistribute(s.count, s.rounds);
  }

  lemma {:induction false} InvAlways(count: nat, steps: seq<Step>, s: State)
    requires After(count, steps) == Some(s)
    ensures Inv(s) && s.count == count
  {
    if steps != [] {
      var before := After(count, steps[..|steps| - 1]).value;
      InvAlways(count, steps[..|steps| - 1], before);
      InvKept(before, steps[|steps| - 1]);
    }
  }

  /**
   Conservation in every interleaving: each token that was put in is still in the channel, was
   granted, is held by an IsLimited call, or was lost at a put-back. So the bucket never holds
   more than `count`, and at most `count` Takes succeed for each refill round started.
   */
  lemma {:induction false} TokensAreConserved(count: nat, steps: seq<Step>, s: State)
    requires After(count, steps) == Some(s)
    ensures s.grants + s.bucket + s.holding + s.lost == s.sent
    ensures s.bucket <= count && s.grants <= count * s.rounds
  {
    InvAlways(count, steps, s);
    AttemptsAtMost(s);
  }

  /** After Stop at most one more round starts, from a tick that was already there. */
  lemma {:induction false} StopEndsRefills(count: nat, steps: seq<Step>, s: State)
    requires After(count, steps) == Some(s)
    ensures s.roundsAfterStop <= 1
    ensures s.roundsAfterStop == 1 ==> !s.tickPending
  {
    InvAlways(count, steps, s);
  }

  // ---------------------------------------------------------------------------------------
  // What a round provides

  predicate Goes(s: State, step: Step, t: State) {
    Enabled(s, step) && t == Next(s, step)
  }

  /** The state after a list of steps. */
  predicate Leads(s: State, steps: seq<Step>, t: State)
    decreases |steps|
  {
    if steps == [] then t == s else Enabled(s, steps[0]) && Leads(Next(s, steps[0]), steps[1..], t)
  }

  function Times(step: Step, n: nat): seq<Step> {
    if n == 0 then [] else [step] + Times(step, n - 1)
  }

  /** A round without takes fills the bucket to `count`. */
  lemma {:induction false} RoundFillsTheBucket(s: State, i: nat) returns (t: State)
    requires s.refiller == Filling(i) && i <= s.count && i <= s.bucket <= s.count
    ensures Leads(s, Times(Fill, s.count - i), t)
    ensures t.bucket == s.count && t.refiller == Filling(s.count) && t.count == s.count && t.grants == s.grants
    decreases s.count - i
  {
    if i == s.count {
      t := s;
    } else {
      t := RoundFillsTheBucket(Next(s, Fill), i + 1);
      assert Times(Fill, s.count - i)[1..] == Times(Fill, s.count - i - 1);
    }
  }

  /** And as many Takes succeed as there are tokens, but not one more. */
  lemma {:induction false} TakesSucceed(s: State, n: nat) returns (t: State)
    requires n <= s.bucket
    ensures Leads(s, Times(Grant, n), t)
    ensures t.bucket == s.bucket - n && t.grants == s.grants + n
    ensures n == s.bucket ==> !Enabled(t, Grant) && !Enabled(t, Borrow)
    decreases n
  {
    if n == 0 {
      t := s;
    } else {
      t := TakesSucceed(Next(s, Grant), n - 1);
      assert Times(Grant, n)[1..] == Times(Grant, n - 1);
    }
  }

  /** From the start, the first round puts in `count` tokens, which `count` Takes then get. */
  lemma FirstRoundGivesCount(count: nat) returns (s: State, t: State)
    ensures Leads(Start(count), Times(Fill, count), s) && Leads(s, Times(Grant, count), t)
    ensures s.bucket == count && t.grants == count && !Enabled(t, Grant)
  {
    s := RoundFillsTheBucket(Start(count), 0);
    t := TakesSucceed(s, count);
  }

  /** A tick starts another round. */
  lemma TickStartsARound(s: State) returns (a: State, b: State)
    requires s.refiller == Waiting && !s.stopped
    ensures Goes(s, Tick, a) && Goes(a, NextRound, b)
    ensures b.refiller == Filling(0) && b.bucket == s.bucket && !Enabled(b, NextRound)
  {
    a := Next(s, Tick);
    b := Next(a, NextRound);
  }

  /** `IsLimited` undisturbed takes nothing. */
  lemma IsLimitedPutsBack(s: State)
    requires Enabled(s, Borrow) && s.bucket <= s.count
    ensures Enabled(Next(s, Borrow), PutBack) && Next(Next(s, Borrow), PutBack) == s
  {
  }
}
