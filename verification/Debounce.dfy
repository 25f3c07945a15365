/**
 `Queue.add`: inserting a job, or debouncing it onto the pending job with the same queue and
 key. Adds are serial here, while any number of claims may be open; JobStore has the
 interleavings.
 */
module Debounce {
  import opened Basics
  import opened JobStore

  /** The arguments of `add`, with the clock; a zero `startAfter` is None. */
  datatype AddCall = AddCall(
    queue: string, debounceKey: string, keepOriginalStart: bool, merge: Option<(Bytes, Bytes) -> Option<Bytes>>,
    startAfter: Option<Time>, now: Time, arg: Bytes, scope: (Option<int>, Option<int>))
  {
    function Start(): Time {
      if startAfter.Some? then startAfter.value else now
    }

    function NewRow(): Row {
      Row(queue, debounceKey, arg, scope, Start(), None, None, None, None, None)
    }

    predicate IsFor(queue: string, debounceKey: string) {
      this.queue == queue && this.debounceKey == debounceKey
    }
  }

  /** The row carries the call: its queue, key, argument and scope, and the start given with it, or else its time. */
  predicate IsJobOfCall(row: Row, call: AddCall) {
    && row.queue == call.queue && row.debounceKey == call.debounceKey
    && row.arg == call.arg && row.scope == call.scope
    && row.startAfter == match call.startAfter { case Some(start) => start case None => call.now }
  }

  /** The rows that the `existing` query can return. */
  function Existing(rows: map<Id, Row>, queue: string, debounceKey: string): set<Id> {
    set id | id in rows && rows[id].queue == queue && rows[id].debounceKey == debounceKey && rows[id].startedAt == None
  }

  /** The row `existing ... limit 1` returns, if any. */
  predicate IsPick(rows: map<Id, Row>, call: AddCall, picked: Option<Id>) {
    var existing := Existing(rows, call.queue, call.debounceKey);
    if call.debounceKey == "" || existing == {} then picked == None else picked.Some? && picked.value in existing
  }

  /** What a debounced add makes of the pending row; None when DebounceMerge fails. */
  function Debounced(row: Row, call: AddCall): Option<Row> {
    if call.merge.Some? then
      var merged := call.merge.value(row.arg, call.arg);
      if merged == None then None
      else
        var start := if call.keepOriginalStart then row.startAfter else call.Start();
        Some(row.(arg := merged.value, startAfter := start))
    else if call.keepOriginalStart then Some(row)
    else Some(row.(arg := call.arg, startAfter := call.Start()))
  }

  /** The table after an add. */
  function AddedRows(rows: map<Id, Row>, call: AddCall, id: Id, picked: Option<Id>): map<Id, Row>
    requires IsPick(rows, call, picked)
  {
    if picked == None then rows[id := call.NewRow()]
    else match Debounced(rows[picked.value], call)
      case Some(row) => rows[picked.value := row]
      case None => rows
  }

  /** The id that an add returns; None when it fails. */
  function AddedId(rows: map<Id, Row>, call: AddCall, id: Id, picked: Option<Id>): Option<Id>
    requires IsPick(rows, call, picked)
  {
    if picked == None then Some(id)
    else if Debounced(rows[picked.value], call).Some? then picked
    else None
  }

  class JobTable {
    var rows: map<Id, Row>

    method Insert(call: AddCall, id: Id)
      modifies this
      ensures rows == old(rows)[id := call.NewRow()]
      ensures rows[id].IsPending() && IsJobOfCall(rows[id], call)
    {
      var start := if call.startAfter == None then call.now else call.startAfter.value;
      rows := rows[id := Row(call.queue, call.debounceKey, call.arg, call.scope, start, None, None, None, None, None)];
    }

    /** `add`, with the generated id as a parameter. */
    method Add(call: AddCall, id: Id) returns (r: Option<Id>, ghost picked: Option<Id>)
      requires id !in rows
      modifies this
      ensures IsPick(old(rows), call, picked)
      ensures rows == AddedRows(old(rows), call, id, picked)
      ensures r == AddedId(old(rows), call, id, picked)
    {
      picked := None;
      if call.debounceKey == "" {
        Insert(call, id);
        return Some(id), None;
      }
      var existing := Existing(rows, call.queue, call.debounceKey);
      if existing == {} {
        Insert(call, id);
        return Some(id), None;
      }
      var found :| found in existing;
      picked := Some(found);
      if call.merge.Some? {
        var merged := call.merge.value(rows[found].arg, call.arg);
        if merged == None {
          return None, picked;
        }
        var start := rows[found].startAfter;
        if !call.keepOriginalStart {
          start := call.Start();
        }
        rows := rows[found := rows[found].(arg := merged.value, startAfter := start)];
      } else if !call.keepOriginalStart {
        rows := rows[found := rows[found].(startAfter := call.Start(), arg := call.arg)];
      }
      return Some(found), picked;
    }
  }

  // ---------------------------------------------------------------------------------------
  // Serial runs

  /** The keys of claims and aborts are those of the row. */
  datatype Event =
    | Add(call: AddCall, id: Id, picked: Option<Id>)
    | Claim(id: Id, queue: string, debounceKey: string, started: Time)
    | Finish(id: Id, completed: Time, retain: Time, result: Option<Bytes>, commitError: Option<string>)
    | Abort(id: Id, queue: string, debounceKey: string)  // rollback of the transaction that claimed the row
    | Clean(id: Id)

  /** `used` are the generated ids, `delivered` the rows handed to workers, `returned` the ids adds returned. */
  datatype World = World(rows: map<Id, Row>, used: set<Id>, delivered: seq<Row>, returned: seq<Option<Id>>)

  predicate IsRunning(row: Row) {
    row.startedAt.Some? && row.completedAt == None
  }

  /** The rows of one key that a worker holds. */
  function Running(rows: map<Id, Row>, queue: string, debounceKey: string): set<Id> {
    set id | id in rows && rows[id].queue == queue && rows[id].debounceKey == debounceKey && IsRunning(rows[id])
  }

  ghost predicate Enabled(w: World, e: Event) {
    match e
    case Add(call, id, picked) => id !in w.used && IsPick(w.rows, call, picked)
    case Claim(id, queue, debounceKey, _) => id in Existing(w.rows, queue, debounceKey)
    case Finish(id, _, _, _, _) => id in w.rows && IsRunning(w.rows[id])
    case Abort(id, queue, debounceKey) => id in Running(w.rows, queue, debounceKey)
    case Clean(id) => id in w.rows && w.rows[id].IsDone()
  }

  ghost function Next(w: World, e: Event): World
    requires Enabled(w, e)
  {
    match e
    case Add(call, id, picked) =>
      World(AddedRows(w.rows, call, id, picked), w.used + {id}, w.delivered,
            w.returned + [AddedId(w.rows, call, id, picked)])
    case Claim(id, _, _, started) =>
      w.(rows := w.rows[id := w.rows[id].(startedAt := Some(started))], delivered := w.delivered + [w.rows[id]])
    case Finish(id, completed, retain, result, commitError) =>
      w.(rows := w.rows[id := w.rows[id].(
         result := result, completedAt := Some(completed), retainUntil := Some(retain), commitError := commitError)])
    case Abort(id, _, _) => w.(rows := w.rows[id := w.rows[id].(startedAt := None)])
    case Clean(id) => w.(rows := w.rows - {id})
  }

  ghost function After(events: seq<Event>): Option<World> {
    if events == [] then
      Some(World(map[], {}, [], []))
    else
      match After(events[..|events| - 1])
      case Some(w) => if Enabled(w, events[|events| - 1]) then Some(Next(w, events[|events| - 1])) else None
      case None => None
  }

  // ---------------------------------------------------------------------------------------
  // The fold

  /** What a worker gets to see of a job. */
  datatype Job = Job(arg: Bytes, startAfter: Time, scope: (Option<int>, Option<int>))

  function JobOf(row: Row): Job {
    Job(row.arg, row.startAfter, row.scope)
  }

  /** One more add on a pending job. */
  ghost function Absorb(job: Job, call: AddCall): Job {
    match call.merge
    case Some(f) =>
      (match f(job.arg, call.arg)
       case Some(merged) =>
         job.(arg := merged, startAfter := if call.keepOriginalStart then job.startAfter else call.Start())
       case None => job)
    case None => if call.keepOriginalStart then job else job.(arg := call.arg, startAfter := call.Start())
  }

  ghost function Fold(calls: seq<AddCall>): Job
    requires calls != []
  {
    if |calls| == 1 then Job(calls[0].arg, calls[0].Start(), calls[0].scope)
    else Absorb(Fold(calls[..|calls| - 1]), calls[|calls| - 1])
  }

  predicate CutsAt(e: Event, queue: string, debounceKey: string) {
    e.Claim? && e.queue == queue && e.debounceKey == debounceKey
  }

  predicate AddsTo(e: Event, queue: string, debounceKey: string) {
    e.Add? && e.call.IsFor(queue, debounceKey)
  }

  predicate AbortsOn(e: Event, queue: string, debounceKey: string) {
    e.Abort? && e.queue == queue && e.debounceKey == debounceKey
  }

  /** Nothing was added to the key, and no claim of it aborted, since its last claim. */
  predicate Vacant(events: seq<Event>, queue: string, debounceKey: string) {
    if events == [] then true
    else
      var e := events[|events| - 1];
      if CutsAt(e, queue, debounceKey) then true
      else !AddsTo(e, queue, debounceKey) && !AbortsOn(e, queue, debounceKey)
           && Vacant(events[..|events| - 1], queue, debounceKey)
  }

  /** Every abort on the key comes while it is vacant. */
  predicate TidyAborts(events: seq<Event>, queue: string, debounceKey: string) {
    if events == [] then true
    else
      var init := events[..|events| - 1];
      TidyAborts(init, queue, debounceKey) &&
      (AbortsOn(events[|events| - 1], queue, debounceKey) ==> Vacant(init, queue, debounceKey))
  }

  /**
   The adds on one key since its last claim, and the id of their row. An abort reopens the
   segment that its claim had cut off.
   */
  ghost function OpenSegment(events: seq<Event>, queue: string, debounceKey: string): (seq<AddCall>, Id)
    decreases |events|
  {
    if events == [] then ([], 0)
    else
      var e, init := events[|events| - 1], events[..|events| - 1];
      var (calls, id) := OpenSegment(init, queue, debounceKey);
      if CutsAt(e, queue, debounceKey) then ([], 0)
      else if AddsTo(e, queue, debounceKey) then (calls + [e.call], if calls == [] then e.id else id)
      else if AbortsOn(e, queue, debounceKey) then (ClaimedSegment(init, e.id, queue, debounceKey), e.id)
      else (calls, id)
  }

  /** The segment that the last claim of a row cut off. */
  ghost function ClaimedSegment(events: seq<Event>, id: Id, queue: string, debounceKey: string): seq<AddCall>
    decreases |events|
  {
    if events == [] then []
    else
      var e, init := events[|events| - 1], events[..|events| - 1];
      if CutsAt(e, queue, debounceKey) && e.id == id then OpenSegment(init, queue, debounceKey).0
      else ClaimedSegment(init, id, queue, debounceKey)
  }

  /** The segments that earlier claims cut off. */
  ghost function ClosedSegments(events: seq<Event>, queue: string, debounceKey: string): seq<seq<AddCall>> {
    if events == [] then []
    else
      var init := events[..|events| - 1];
      ClosedSegments(init, queue, debounceKey) +
      (if CutsAt(events[|events| - 1], queue, debounceKey) then [OpenSegment(init, queue, debounceKey).0] else [])
  }

  /** The jobs delivered for one key. */
  ghost function Delivered(rows: seq<Row>, queue: string, debounceKey: string): seq<Job> {
    if rows == [] then []
    else
      var row := rows[|rows| - 1];
      Delivered(rows[..|rows| - 1], queue, debounceKey) +
      (if row.queue == queue && row.debounceKey == debounceKey then [JobOf(row)] else [])
  }

  /** The jobs that workers received are the folds of the closed segments. */
  ghost predicate DeliversFolds(jobs: seq<Job>, segments: seq<seq<AddCall>>) {
    |jobs| == |segments| &&
    forall i :: 0 <= i < |segments| ==> segments[i] != [] && jobs[i] == Fold(segments[i])
  }

  /** The pending rows of one key are exactly the fold of its open segment. */
  ghost predicate PendingIsFold(w: World, segment: (seq<AddCall>, Id), queue: string, debounceKey: string) {
    if segment.0 == [] then Existing(w.rows, queue, debounceKey) == {}
    else Existing(w.rows, queue, debounceKey) == {segment.1} && JobOf(w.rows[segment.1]) == Fold(segment.0)
  }

  lemma AddKeepsFold(w: World, e: Event, segment: (seq<AddCall>, Id), queue: string, debounceKey: string)
    requires e.Add? && Enabled(w, e) && w.rows.Keys <= w.used && debounceKey != ""
    requires PendingIsFold(w, segment, queue, debounceKey)
    ensures AddsTo(e, queue, debounceKey) ==>
      PendingIsFold(Next(w, e), (segment.0 + [e.call], if segment.0 == [] then e.id else segment.1), queue, debounceKey)
    ensures !AddsTo(e, queue, debounceKey) ==> PendingIsFold(Next(w, e), segment, queue, debounceKey)
  {
    if !AddsTo(e, queue, debounceKey) {
      assert Existing(Next(w, e).rows, queue, debounceKey) == Existing(w.rows, queue, debounceKey);
    } else if segment.0 == [] {
      assert Existing(Next(w, e).rows, queue, debounceKey) == {e.id};
    } else {
      AddAbsorbs(w, e, segment, queue, debounceKey);
    }
  }

  lemma AddAbsorbs(w: World, e: Event, segment: (seq<AddCall>, Id), queue: string, debounceKey: string)
    requires Enabled(w, e) && AddsTo(e, queue, debounceKey) && debounceKey != ""
    requires segment.0 != [] && PendingIsFold(w, segment, queue, debounceKey)
    ensures PendingIsFold(Next(w, e), (segment.0 + [e.call], segment.1), queue, debounceKey)
  {
    assert e.picked == Some(segment.1);
    assert Existing(Next(w, e).rows, queue, debounceKey) == Existing(w.rows, queue, debounceKey);
    assert (segment.0 + [e.call])[..|segment.0|] == segment.0;
    assert Fold(segment.0 + [e.call]) == Absorb(Fold(segment.0), e.call);
  }

  /** The rows in progress of one key are the folds of the segments that their claims cut off. */
  ghost predicate RunningAreFolds(w: World, events: seq<Event>, queue: string, debounceKey: string) {
    forall id :: id in Running(w.rows, queue, debounceKey) ==>
      var calls := ClaimedSegment(events, id, queue, debounceKey);
      calls != [] && JobOf(w.rows[id]) == Fold(calls)
  }

  lemma ClaimCutsFold(w: World, e: Event, segment: (seq<AddCall>, Id), queue: string, debounceKey: string)
    requires Enabled(w, e) && CutsAt(e, queue, debounceKey)
    requires PendingIsFold(w, segment, queue, debounceKey)
    ensures Existing(Next(w, e).rows, queue, debounceKey) == {}
    ensures segment.0 != [] && JobOf(w.rows[e.id]) == Fold(segment.0)
  {
    var before, after := Existing(w.rows, queue, debounceKey), Existing(Next(w, e).rows, queue, debounceKey);
    assert e.id in before;
    assert forall id :: id in after ==> id in before && id != e.id;
  }

  lemma AbortReopensFold(w: World, e: Event, events: seq<Event>, queue: string, debounceKey: string)
    requires Enabled(w, e) && AbortsOn(e, queue, debounceKey)
    requires RunningAreFolds(w, events, queue, debounceKey)
    ensures var calls := ClaimedSegment(events, e.id, queue, debounceKey);
      calls != [] && JobOf(Next(w, e).rows[e.id]) == Fold(calls)
    ensures e.id !in Existing(w.rows, queue, debounceKey)
    ensures Existing(Next(w, e).rows, queue, debounceKey) == Existing(w.rows, queue, debounceKey) + {e.id}
  {
    assert e.id in Running(w.rows, queue, debounceKey);
  }

  /** Events that neither add to, claim from, nor abort on the key leave its pending rows alone. */
  lemma OthersKeepFold(w: World, e: Event, queue: string, debounceKey: string)
    requires !e.Add? && Enabled(w, e) && !CutsAt(e, queue, debounceKey) && !AbortsOn(e, queue, debounceKey)
    ensures forall id ::
      id in Existing(Next(w, e).rows, queue, debounceKey) <==> id in Existing(w.rows, queue, debounceKey)
    ensures forall id :: id in Existing(w.rows, queue, debounceKey) ==> Next(w, e).rows[id] == w.rows[id]
  {
  }

  lemma RunningKept(w: World, e: Event, queue: string, debounceKey: string, id: Id)
    requires Enabled(w, e) && w.rows.Keys <= w.used && id in Running(Next(w, e).rows, queue, debounceKey)
    requires !(CutsAt(e, queue, debounceKey) && e.id == id)
    ensures id in Running(w.rows, queue, debounceKey) && JobOf(Next(w, e).rows[id]) == JobOf(w.rows[id])
  {
  }

  lemma {:induction false} RowsAreUsed(events: seq<Event>, w: World)
    requires After(events) == Some(w)
    ensures w.rows.Keys <= w.used
  {
    if events != [] {
      RowsAreUsed(events[..|events| - 1], After(events[..|events| - 1]).value);
    }
  }

  /** Rows in progress stay folds, whatever aborts. */
  lemma {:induction false} RunningAreAlwaysFolds(
      init: seq<Event>, e: Event, before: World, queue: string, debounceKey: string)
    requires After(init) == Some(before) && Enabled(before, e)
    requires RunningAreFolds(before, init, queue, debounceKey)
    requires PendingIsFold(before, OpenSegment(init, queue, debounceKey), queue, debounceKey)
    ensures RunningAreFolds(Next(before, e), init + [e], queue, debounceKey)
  {
    var events, w := init + [e], Next(before, e);
    assert events[..|init|] == init;
    RowsAreUsed(init, before);
    forall id | id in Running(w.rows, queue, debounceKey)
      ensures ClaimedSegment(events, id, queue, debounceKey) != []
      ensures JobOf(w.rows[id]) == Fold(ClaimedSegment(events, id, queue, debounceKey))
    {
      if CutsAt(e, queue, debounceKey) && e.id == id {
        ClaimCutsFold(before, e, OpenSegment(init, queue, debounceKey), queue, debounceKey);
      } else {
        RunningKept(before, e, queue, debounceKey, id);
      }
    }
  }

  /** One event, tidy if it aborts, takes the fold of the open segment to that of the next one. */
  lemma {:induction false} PendingStaysFold(
      init: seq<Event>, e: Event, before: World, queue: string, debounceKey: string)
    requires After(init) == Some(before) && Enabled(before, e) && debounceKey != ""
    requires RunningAreFolds(before, init, queue, debounceKey)
    requires PendingIsFold(before, OpenSegment(init, queue, debounceKey), queue, debounceKey)
    requires AbortsOn(e, queue, debounceKey) ==> OpenSegment(init, queue, debounceKey).0 == []
    ensures PendingIsFold(Next(before, e), OpenSegment(init + [e], queue, debounceKey), queue, debounceKey)
  {
    var segment := OpenSegment(init, queue, debounceKey);
    assert (init + [e])[..|init|] == init;
    if e.Add? {
      RowsAreUsed(init, before);
      AddKeepsFold(before, e, segment, queue, debounceKey);
    } else if CutsAt(e, queue, debounceKey) {
      ClaimCutsFold(before, e, segment, queue, debounceKey);
    } else if AbortsOn(e, queue, debounceKey) {
      AbortReopensFold(before, e, init, queue, debounceKey);
      assert Existing(Next(before, e).rows, queue, debounceKey) == {e.id};
    } else {
      OthersKeepFold(before, e, queue, debounceKey);
    }
  }

  /**
   Debounce is a fold: as long as aborts come while the key is vacant, at most one unclaimed
   row exists for it, which is the fold of the open segment, and workers received the folds
   of the segments that claims cut off.
   */
  lemma {:induction false} DebounceIsAFold(events: seq<Event>, w: World, queue: string, debounceKey: string)
    requires After(events) == Some(w) && debounceKey != "" && TidyAborts(events, queue, debounceKey)
    ensures PendingIsFold(w, OpenSegment(events, queue, debounceKey), queue, debounceKey)
    ensures Vacant(events, queue, debounceKey) <==> OpenSegment(events, queue, debounceKey).0 == []
    ensures RunningAreFolds(w, events, queue, debounceKey)
    ensures DeliversFolds(Delivered(w.delivered, queue, debounceKey), ClosedSegments(events, queue, debounceKey))
  {
    if events != [] {
      var init, e := events[..|events| - 1], events[|events| - 1];
      var before := After(init).value;
      assert init + [e] == events;
      DebounceIsAFold(init, before, queue, debounceKey);
      PendingStaysFold(init, e, before, queue, debounceKey);
      RunningAreAlwaysFolds(init, e, before, queue, debounceKey);
      if AbortsOn(e, queue, debounceKey) {
        AbortReopensFold(before, e, init, queue, debounceKey);
      }
      if e.Claim? {
        assert w.delivered[..|w.delivered| - 1] == before.delivered;
      }
      if CutsAt(e, queue, debounceKey) {
        ClaimCutsFold(before, e, OpenSegment(init, queue, debounceKey), queue, debounceKey);
      }
    }
  }

  /** Every add returns the id of the row that is then pending, unless its merge fails. */
  lemma {:induction false} AddReturnsThePendingRow(events: seq<Event>, w: World, queue: string, debounceKey: string)
    requires After(events) == Some(w) && debounceKey != "" && TidyAborts(events, queue, debounceKey)
    requires events != [] && AddsTo(events[|events| - 1], queue, debounceKey)
    ensures w.returned != []
    ensures w.returned[|w.returned| - 1].Some? ==>
      Existing(w.rows, queue, debounceKey) == {w.returned[|w.returned| - 1].value}
    ensures w.returned[|w.returned| - 1] == None ==>
      events[|events| - 1].call.merge.Some? && After(events[..|events| - 1]).Some?
      && w.rows == After(events[..|events| - 1]).value.rows
  {
    var init, e := events[..|events| - 1], events[|events| - 1];
    DebounceIsAFold(events, w, queue, debounceKey);
    DebounceIsAFold(init, After(init).value, queue, debounceKey);
  }

  // ---------------------------------------------------------------------------------------
  // Aborted claims

  ghost predicate AtMostOnePending(w: Option<World>, queue: string, debounceKey: string) {
    w.Some? ==> |Existing(w.value.rows, queue, debounceKey)| <= 1
  }

  /** The key has at most one pending row all along a run. */
  ghost predicate NeverTwoPending(events: seq<Event>, queue: string, debounceKey: string) {
    forall n {:trigger events[..n]} :: 0 <= n <= |events| ==> AtMostOnePending(After(events[..n]), queue, debounceKey)
  }

  lemma NeverTwoUpToTheLast(init: seq<Event>, e: Event, queue: string, debounceKey: string)
    ensures NeverTwoPending(init + [e], queue, debounceKey) <==>
      NeverTwoPending(init, queue, debounceKey) && AtMostOnePending(After(init + [e]), queue, debounceKey)
  {
    var events := init + [e];
    assert events[..|events|] == events;
    forall n | 0 <= n <= |init|
      ensures init[..n] == events[..n]
    {
    }
    if NeverTwoPending(events, queue, debounceKey) {
      forall n | 0 <= n <= |init|
        ensures AtMostOnePending(After(init[..n]), queue, debounceKey)
      {
        assert AtMostOnePending(After(events[..n]), queue, debounceKey);
      }
    }
  }

  /** After a tidy run, the next event leaves at most one pending row unless it is an untidy abort. */
  lemma TidyOrTwo(init: seq<Event>, e: Event, before: World, queue: string, debounceKey: string)
    requires After(init) == Some(before) && Enabled(before, e) && debounceKey != ""
    requires TidyAborts(init, queue, debounceKey)
    ensures |Existing(Next(before, e).rows, queue, debounceKey)| <= 1 <==>
      (AbortsOn(e, queue, debounceKey) ==> Vacant(init, queue, debounceKey))
  {
    var segment := OpenSegment(init, queue, debounceKey);
    DebounceIsAFold(init, before, queue, debounceKey);
    if AbortsOn(e, queue, debounceKey) && segment.0 != [] {
      assert e.id in Running(before.rows, queue, debounceKey) && e.id != segment.1;
      AbortReopensFold(before, e, init, queue, debounceKey);
      assert Existing(Next(before, e).rows, queue, debounceKey) == {segment.1, e.id};
    } else {
      PendingStaysFold(init, e, before, queue, debounceKey);
    }
  }

  /**
   A key has at most one pending row all along a run exactly when each abort on it comes
   while it is vacant: nothing added to it, and no other claim of it aborted, since its last claim.
   */
  lemma {:induction false} OnePendingRowWhileAbortsAreTidy(
      events: seq<Event>, w: World, queue: string, debounceKey: string)
    requires After(events) == Some(w) && debounceKey != ""
    ensures NeverTwoPending(events, queue, debounceKey) <==> TidyAborts(events, queue, debounceKey)
  {
    if events != [] {
      var init, e := events[..|events| - 1], events[|events| - 1];
      var before := After(init).value;
      assert init + [e] == events;
      OnePendingRowWhileAbortsAreTidy(init, before, queue, debounceKey);
      NeverTwoUpToTheLast(init, e, queue, debounceKey);
      if TidyAborts(init, queue, debounceKey) {
        TidyOrTwo(init, e, before, queue, debounceKey);
      }
    } else {
      assert Existing(w.rows, queue, debounceKey) == {};
      assert forall n :: 0 <= n <= |events| ==> events[..n] == events;
    }
  }

  lemma {:induction false} Extend(events: seq<Event>, w: World, e: Event) returns (longer: seq<Event>, t: World)
    requires After(events) == Some(w) && Enabled(w, e)
    ensures longer == events + [e] && After(longer) == Some(t) && t == Next(w, e)
  {
    longer, t := events + [e], Next(w, e);
    assert longer[..|longer| - 1] == events;
  }

  lemma AddedAndClaimed(call: AddCall, started: Time) returns (events: seq<Event>, w: World)
    requires call.debounceKey != ""
    ensures events == [Add(call, 0, None), Event.Claim(0, call.queue, call.debounceKey, started)]
    ensures After(events) == Some(w) && w.used == {0}
    ensures w.rows == map[0 := call.NewRow().(startedAt := Some(started))]
  {
    events, w := Extend([], World(map[], {}, [], []), Add(call, 0, None));
    assert w.rows == map[0 := call.NewRow()];
    events, w := Extend(events, w, Event.Claim(0, call.queue, call.debounceKey, started));
  }

  /** Such a run: a job is added and claimed, another is added, and the claim aborts. */
  lemma AbortedClaimLeavesTwo(call: AddCall, started: Time) returns (events: seq<Event>, w: World)
    requires call.debounceKey != ""
    ensures events == [Add(call, 0, None), Event.Claim(0, call.queue, call.debounceKey, started),
                       Add(call, 1, None), Event.Abort(0, call.queue, call.debounceKey)]
    ensures After(events) == Some(w) && Existing(w.rows, call.queue, call.debounceKey) == {0, 1}
  {
    var row := call.NewRow();
    events, w := AddedAndClaimed(call, started);
    assert Existing(w.rows, call.queue, call.debounceKey) == {};
    events, w := Extend(events, w, Add(call, 1, None));
    assert w.rows == map[0 := row.(startedAt := Some(started)), 1 := row];
    events, w := Extend(events, w, Event.Abort(0, call.queue, call.debounceKey));
    assert w.rows == map[0 := row, 1 := row];
  }

  // ---------------------------------------------------------------------------------------
  // Adds without a debounce key, and finished rows

  /** The last row handed to a worker in a run carries the call. */
  ghost predicate DeliversCall(events: seq<Event>, call: AddCall) {
    After(events).Some? && After(events).value.delivered != []
    && IsJobOfCall(After(events).value.delivered[|After(events).value.delivered| - 1], call)
  }

  /** What holds of a plain add as long as its row is in the table. */
  ghost predicate HasPlainRow(w: World, id: Id, call: AddCall) {
    id in w.used && (id in w.rows ==> IsJobOfCall(w.rows[id], call))
  }

  lemma PlainRowAdded(w: World, e: Event)
    requires Enabled(w, e) && e.Add? && e.call.debounceKey == ""
    ensures HasPlainRow(Next(w, e), e.id, e.call) && e.id in Next(w, e).rows
    ensures Next(w, e).returned == w.returned + [Some(e.id)]
  {
  }

  lemma PlainRowStays(w: World, e: Event, id: Id, call: AddCall)
    requires Enabled(w, e) && HasPlainRow(w, id, call) && call.debounceKey == ""
    ensures HasPlainRow(Next(w, e), id, call)
    ensures id in w.rows && e != Clean(id) ==> id in Next(w, e).rows
    ensures e.Claim? && e.id == id ==>
      Next(w, e).delivered != [] && IsJobOfCall(Next(w, e).delivered[|Next(w, e).delivered| - 1], call)
  {
  }

  lemma {:induction false} PrefixIsARun(events: seq<Event>, n: nat)
    requires After(events).Some? && n <= |events|
    ensures After(events[..n]).Some?
  {
    if n < |events| {
      PrefixIsARun(events[..|events| - 1], n);
      assert events[..|events| - 1][..n] == events[..n];
    } else {
      assert events[..n] == events;
    }
  }

  /** What a run does last, after the rest of it. */
  lemma LastOfPrefix(events: seq<Event>, n: nat)
    requires After(events).Some? && n < |events|
    ensures After(events[..n]).Some? && Enabled(After(events[..n]).value, events[n])
    ensures After(events[..n + 1]) == Some(Next(After(events[..n]).value, events[n]))
  {
    PrefixIsARun(events, n + 1);
    assert events[..n + 1][..n] == events[..n];
  }

  /** The row of a plain add lasts until it is cleaned. */
  lemma {:induction false} PlainRowLasts(events: seq<Event>, w: World, n: nat)
    requires After(events) == Some(w)
    requires n < |events| && events[n].Add? && events[n].call.debounceKey == ""
    ensures HasPlainRow(w, events[n].id, events[n].call)
    ensures (forall m :: n < m < |events| ==> events[m] != Clean(events[n].id)) ==> events[n].id in w.rows
  {
    var init, e := events[..|events| - 1], events[|events| - 1];
    var before := After(init).value;
    if n == |init| {
      PlainRowAdded(before, e);
    } else {
      PlainRowLasts(init, before, n);
      PlainRowStays(before, e, events[n].id, events[n].call);
    }
  }

  lemma PlainRowIsDelivered(events: seq<Event>, n: nat, m: nat)
    requires After(events).Some? && n < m < |events|
    requires events[n].Add? && events[n].call.debounceKey == "" && events[m].Claim? && events[m].id == events[n].id
    ensures DeliversCall(events[..m + 1], events[n].call)
  {
    LastOfPrefix(events, m);
    PlainRowLasts(events[..m], After(events[..m]).value, n);
    PlainRowStays(After(events[..m]).value, events[m], events[n].id, events[n].call);
  }

  /**
   Each add without a debounce key returns the id of a row of its own: until it is cleaned that
   row is in the table and carries exactly this call, whatever other adds do, and whenever it is
   handed to a worker it carries the call as well.
   */
  lemma PlainAddHasItsRow(events: seq<Event>, w: World, n: nat)
    requires After(events) == Some(w)
    requires n < |events| && events[n].Add? && events[n].call.debounceKey == ""
    ensures After(events[..n + 1]).Some? && After(events[..n + 1]).value.returned != []
    ensures var returned := After(events[..n + 1]).value.returned; returned[|returned| - 1] == Some(events[n].id)
    ensures HasPlainRow(w, events[n].id, events[n].call)
    ensures (forall m :: n < m < |events| ==> events[m] != Clean(events[n].id)) ==> events[n].id in w.rows
    ensures forall m {:trigger events[..m + 1]} ::
      n < m < |events| && events[m].Claim? && events[m].id == events[n].id ==>
        DeliversCall(events[..m + 1], events[n].call)
  {
    LastOfPrefix(events, n);
    PlainRowAdded(After(events[..n]).value, events[n]);
    PlainRowLasts(events, w, n);
    forall m {:trigger events[..m + 1]} | n < m < |events| && events[m].Claim? && events[m].id == events[n].id
      ensures DeliversCall(events[..m + 1], events[n].call)
    {
      PlainRowIsDelivered(events, n, m);
    }
  }

  ghost predicate IsOver(w: World, id: Id) {
    id in w.used && (id in w.rows ==> w.rows[id].startedAt.Some? && w.rows[id].completedAt.Some?)
  }

  lemma OverStays(w: World, e: Event, id: Id)
    requires Enabled(w, e) && IsOver(w, id)
    ensures IsOver(Next(w, e), id)
    ensures e.Claim? || e.Abort? || e.Finish? ==> e.id != id
  {
  }

  lemma {:induction false} FinishedIsOver(events: seq<Event>, w: World, n: nat)
    requires After(events) == Some(w) && n < |events| && events[n].Finish?
    ensures IsOver(w, events[n].id)
    ensures forall m :: n < m < |events| && (events[m].Claim? || events[m].Abort? || events[m].Finish?) ==>
      events[m].id != events[n].id
  {
    var init, e := events[..|events| - 1], events[|events| - 1];
    var before := After(init).value;
    RowsAreUsed(init, before);
    if n < |init| {
      FinishedIsOver(init, before, n);
      OverStays(before, e, events[n].id);
    }
  }

  lemma {:induction false} CleanedIsGone(events: seq<Event>, w: World, n: nat)
    requires After(events) == Some(w) && n < |events| && events[n].Clean?
    ensures events[n].id in w.used && events[n].id !in w.rows
  {
    var init, e := events[..|events| - 1], events[|events| - 1];
    var before := After(init).value;
    RowsAreUsed(init, before);
    if n < |init| {
      CleanedIsGone(init, before, n);
    }
  }

  // ---------------------------------------------------------------------------------------
  // Closed forms, one for each mode

  function FoldLeft(f: (Bytes, Bytes) -> Bytes, acc: Bytes, args: seq<Bytes>): Bytes
    decreases args
  {
    if args == [] then acc else FoldLeft(f, f(acc, args[0]), args[1..])
  }

  function Args(calls: seq<AddCall>): seq<Bytes> {
    seq(|calls|, i requires 0 <= i < |calls| => calls[i].arg)
  }

  lemma {:induction false} FoldLeftSnoc(f: (Bytes, Bytes) -> Bytes, acc: Bytes, args: seq<Bytes>, last: Bytes)
    ensures FoldLeft(f, acc, args + [last]) == f(FoldLeft(f, acc, args), last)
    decreases args
  {
    if args != [] {
      assert (args + [last])[1..] == args[1..] + [last];
      FoldLeftSnoc(f, f(acc, args[0]), args[1..], last);
    }
  }

  /** Merge mode is a left fold of DebounceMerge; the start is the first or the last by the flag. */
  lemma {:induction false} MergeMode(calls: seq<AddCall>, f: (Bytes, Bytes) -> Bytes, keep: bool)
    requires calls != []
    requires forall c :: c in calls ==>
      c.merge.Some? && c.keepOriginalStart == keep && forall a, b :: c.merge.value(a, b) == Some(f(a, b))
    ensures Fold(calls).arg == FoldLeft(f, calls[0].arg, Args(calls)[1..])
    ensures var chosen := if keep then calls[0] else calls[|calls| - 1];
      Fold(calls).startAfter == match chosen.startAfter { case Some(start) => start case None => chosen.now }
    ensures Fold(calls).scope == calls[0].scope
  {
    if |calls| > 1 {
      var init := calls[..|calls| - 1];
      MergeMode(init, f, keep);
      FoldLeftSnoc(f, calls[0].arg, Args(init)[1..], calls[|calls| - 1].arg);
      assert Args(calls)[1..] == Args(init)[1..] + [calls[|calls| - 1].arg];
      assert calls[|calls| - 1] in calls;
    }
  }

  /** Without a merge, keep-original keeps the first argument and start, replace the last. */
  lemma {:induction false} PlainModes(calls: seq<AddCall>, keep: bool)
    requires calls != []
    requires forall c :: c in calls ==> c.merge == None && c.keepOriginalStart == keep
    ensures var chosen := if keep then calls[0] else calls[|calls| - 1];
      && Fold(calls).arg == chosen.arg && Fold(calls).scope == calls[0].scope
      && Fold(calls).startAfter == match chosen.startAfter { case Some(start) => start case None => chosen.now }
  {
    if |calls| > 1 {
      PlainModes(calls[..|calls| - 1], keep);
      assert calls[|calls| - 1] in calls;
    }
  }
}
