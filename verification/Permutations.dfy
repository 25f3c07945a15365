/**
 `Permutations`: every choice of one option for each column, by an odometer of linked
 counters. An index vector holds one index for each column, the last column moving fastest;
 an empty column has the single index -1, which stands for a default value.
 */
module Permutations {

  // ---------------------------------------------------------------------------------------
  // Index vectors and their rank in mixed radix

  function Radix(size: nat): nat {
    if size == 0 then 1 else size
  }

  /** The number of index vectors for columns of the given sizes. */
  function Size(sizes: seq<nat>): nat {
    if sizes == [] then 1 else Size(sizes[..|sizes| - 1]) * Radix(sizes[|sizes| - 1])
  }

  predicate IsIndex(index: int, size: nat) {
    if size == 0 then index == -1 else 0 <= index < size
  }

  predicate IsVector(v: seq<int>, sizes: seq<nat>) {
    |v| == |sizes| && forall i :: 0 <= i < |v| ==> IsIndex(v[i], sizes[i])
  }

  /** The mixed-radix number that a vector spells. */
  function Rank(v: seq<int>, sizes: seq<nat>): nat
    requires IsVector(v, sizes)
  {
    if v == [] then 0
    else
      var n := |v| - 1;
      Rank(v[..n], sizes[..n]) * Radix(sizes[n]) + (if sizes[n] == 0 then 0 else v[n])
  }

  /** Lexicographic order. */
  ghost predicate LexLess(a: seq<int>, b: seq<int>) {
    exists k :: 0 <= k < |a| && k < |b| && a[..k] == b[..k] && a[k] < b[k]
  }

  lemma BelowProduct(x: int, size: int, d: int, radix: int)
    requires 0 <= x < size && 0 <= d < radix
    ensures x * radix + d < size * radix
  {
    assert x * radix <= (size - 1) * radix;
  }

  lemma {:induction false} RankBelowSize(v: seq<int>, sizes: seq<nat>)
    requires IsVector(v, sizes)
    ensures Rank(v, sizes) < Size(sizes)
  {
    if v != [] {
      var n := |v| - 1;
      RankBelowSize(v[..n], sizes[..n]);
      BelowProduct(Rank(v[..n], sizes[..n]), Size(sizes[..n]), if sizes[n] == 0 then 0 else v[n], Radix(sizes[n]));
    }
  }

  lemma DigitsDecide(x: int, y: int, d: int, e: int, radix: int)
    requires 0 <= d < radix && 0 <= e < radix
    ensures x < y ==> x * radix + d < y * radix + e
    ensures x * radix + d < y * radix + e ==> x < y || (x == y && d < e)
  {
    if x < y {
      assert (x + 1) * radix <= y * radix;
    } else if y < x {
      assert (y + 1) * radix <= x * radix;
    }
  }

  lemma LexExtends(a: seq<int>, b: seq<int>, x: int, y: int)
    requires |a| == |b| && (LexLess(a, b) || (a == b && x < y))
    ensures LexLess(a + [x], b + [y])
  {
    if LexLess(a, b) {
      var k :| 0 <= k < |a| && k < |b| && a[..k] == b[..k] && a[k] < b[k];
      assert (a + [x])[..k] == a[..k] && (b + [y])[..k] == b[..k];
      assert (a + [x])[k] < (b + [y])[k];
    } else {
      assert (a + [x])[..|a|] == a && (b + [y])[..|a|] == b;
      assert (a + [x])[|a|] < (b + [y])[|a|];
    }
  }

  /** The last digit of a vector. */
  function LastDigit(v: seq<int>, sizes: seq<nat>): (d: nat)
    requires IsVector(v, sizes) && v != []
    ensures d < Radix(sizes[|v| - 1])
  {
    assert IsIndex(v[|v| - 1], sizes[|v| - 1]);
    if sizes[|v| - 1] == 0 then 0 else v[|v| - 1]
  }

  lemma RankSplits(v: seq<int>, sizes: seq<nat>)
    requires IsVector(v, sizes) && v != []
    ensures var n := |v| - 1;
      IsVector(v[..n], sizes[..n]) && v == v[..n] + [v[n]]
      && Rank(v, sizes) == Rank(v[..n], sizes[..n]) * Radix(sizes[n]) + LastDigit(v, sizes)
  {
  }

  /** Ranks order vectors when they order their prefixes. */
  lemma LastDigitDecides(v: seq<int>, w: seq<int>, sizes: seq<nat>, x: nat, y: nat)
    requires IsVector(v, sizes) && IsVector(w, sizes) && v != []
    requires v == v[..|v| - 1] + [v[|v| - 1]] && w == w[..|w| - 1] + [w[|w| - 1]]
    requires x < y ==> LexLess(v[..|v| - 1], w[..|w| - 1])
    requires x == y ==> v[..|v| - 1] == w[..|w| - 1]
    ensures var r := Radix(sizes[|v| - 1]); var a, b := x * r + LastDigit(v, sizes), y * r + LastDigit(w, sizes);
      (a < b ==> LexLess(v, w)) && (a == b ==> v == w)
  {
    var n, r, d, e := |v| - 1, Radix(sizes[|v| - 1]), LastDigit(v, sizes), LastDigit(w, sizes);
    assert IsIndex(v[n], sizes[n]) && IsIndex(w[n], sizes[n]);
    DigitsDecide(x, y, d, e, r);
    DigitsDecide(y, x, e, d, r);
    if x * r + d < y * r + e {
      LexExtends(v[..n], w[..n], v[n], w[n]);
    }
  }

  /** Ranks order vectors lexicographically. */
  lemma {:induction false} RankOrdersLexicographically(v: seq<int>, w: seq<int>, sizes: seq<nat>)
    requires IsVector(v, sizes) && IsVector(w, sizes)
    ensures Rank(v, sizes) < Rank(w, sizes) ==> LexLess(v, w)
    ensures Rank(v, sizes) == Rank(w, sizes) ==> v == w
  {
    if v != [] {
      var n := |v| - 1;
      RankSplits(v, sizes);
      RankSplits(w, sizes);
      RankOrdersLexicographically(v[..n], w[..n], sizes[..n]);
      LastDigitDecides(v, w, sizes, Rank(v[..n], sizes[..n]), Rank(w[..n], sizes[..n]));
    }
  }

  // ---------------------------------------------------------------------------------------
  // The odometer

  datatype Digit = Digit(value: int, max: int)
  {
    /** The size of the column that the digit counts over. */
    function Column(): nat {
      if max < 0 then 0 else max + 1
    }

    predicate Ok() {
      max >= -1 && 0 <= value < Radix(Column())
    }

    function Index(): int {
      if max < 0 then -1 else value
    }
  }

  /** The digits of an odometer, the one of the last column first. */
  predicate AllOk(ds: seq<Digit>) {
    forall i :: 0 <= i < |ds| ==> ds[i].Ok()
  }

  /** The vector that an odometer shows. */
  function Vector(ds: seq<Digit>): seq<int> {
    if ds == [] then [] else Vector(ds[1..]) + [ds[0].Index()]
  }

  /** The column sizes of an odometer. */
  function Sizes(ds: seq<Digit>): seq<nat> {
    if ds == [] then [] else Sizes(ds[1..]) + [ds[0].Column()]
  }

  /** The number that an odometer shows, and how many it can show. */
  function Reading(ds: seq<Digit>): int {
    if ds == [] then 0 else Reading(ds[1..]) * Radix(ds[0].Column()) + ds[0].value
  }

  function Capacity(ds: seq<Digit>): int {
    if ds == [] then 1 else Capacity(ds[1..]) * Radix(ds[0].Column())
  }

  /** They are the rank of its vector and the number of vectors. */
  lemma {:induction false} ReadingIsRank(ds: seq<Digit>)
    requires AllOk(ds)
    ensures IsVector(Vector(ds), Sizes(ds)) && |Vector(ds)| == |ds|
    ensures Reading(ds) == Rank(Vector(ds), Sizes(ds)) && Capacity(ds) == Size(Sizes(ds))
  {
    if ds != [] {
      ReadingIsRank(ds[1..]);
      assert Vector(ds)[..|ds| - 1] == Vector(ds[1..]);
      assert Sizes(ds)[..|ds| - 1] == Sizes(ds[1..]);
    }
  }

  /** What one increment does: the reading grows by one, until all digits are at their end. */
  predicate Advanced(ds: seq<Digit>, es: seq<Digit>, ok: bool) {
    && AllOk(es)
    && Sizes(es) == Sizes(ds)
    && (if ok then Reading(es) == Reading(ds) + 1 else Reading(ds) == Capacity(ds) - 1)
  }

  lemma Carry(rank: int, next: int, radix: int, value: int)
    requires next == rank + 1 && value + 1 == radix
    ensures next * radix == rank * radix + value + 1
  {
    assert next * radix == rank * radix + radix;
  }

  /** A digit at its end turns over to zero and hands on to the others. */
  lemma AdvanceWithCarry(ds: seq<Digit>, es: seq<Digit>, ok: bool)
    requires ds != [] && AllOk(ds) && ds[0].value >= ds[0].max
    requires es != [] && es[0] == Digit(0, ds[0].max) && Advanced(ds[1..], es[1..], ok)
    ensures Advanced(ds, es, ok)
  {
    assert forall i :: 1 <= i < |es| ==> es[i] == es[1..][i - 1];
    Carry(Reading(ds[1..]), if ok then Reading(es[1..]) else Capacity(ds[1..]), Radix(ds[0].Column()), ds[0].value);
  }

  lemma AdvanceFirst(ds: seq<Digit>)
    requires ds != [] && AllOk(ds) && ds[0].value < ds[0].max
    ensures Advanced(ds, [Digit(ds[0].value + 1, ds[0].max)] + ds[1..], true)
  {
    var es := [Digit(ds[0].value + 1, ds[0].max)] + ds[1..];
    assert es[1..] == ds[1..];
  }

  lemma AdvanceEnds(ds: seq<Digit>)
    requires |ds| == 1 && AllOk(ds) && ds[0].value >= ds[0].max
    ensures Advanced(ds, ds, false)
  {
    assert ds[1..] == [];
  }

  /** The counters, each linked to the next; the first belongs to the last column. */
  ghost predicate Chain(nodes: seq<PermCounter>)
    reads nodes
  {
    nodes != [] && nodes[0] !in nodes[1..] &&
    if |nodes| == 1 then nodes[0].next == null else nodes[0].next == nodes[1] && Chain(nodes[1..])
  }

  ghost function Digits(nodes: seq<PermCounter>): seq<Digit>
    reads nodes
  {
    if nodes == [] then [] else [Digit(nodes[0].value, nodes[0].max)] + Digits(nodes[1..])
  }

  class PermCounter {
    var next: PermCounter?
    var value: int
    var max: int

    constructor (max: int)
      ensures this.next == null && this.value == 0 && this.max == max
    {
      this.next, this.value, this.max := null, 0, max;
    }

    function Value(ghost nodes: seq<PermCounter>): (v: seq<int>)
      requires Chain(nodes) && nodes[0] == this
      reads nodes
      ensures v == Vector(Digits(nodes))
      decreases nodes
    {
      var val := if max < 0 then -1 else value;
      if next != null then next.Value(nodes[1..]) + [val] else [val]
    }

    /** Moves to the next vector. */
    method Incr(ghost nodes: seq<PermCounter>) returns (ok: bool)
      requires Chain(nodes) && nodes[0] == this && AllOk(Digits(nodes))
      modifies nodes
      ensures Chain(nodes) && Advanced(old(Digits(nodes)), Digits(nodes), ok)
      decreases nodes
    {
      ghost var ds, rest := Digits(nodes), nodes[1..];
      assert ds[1..] == Digits(rest);
      if value >= max {
        if next == null {
          AdvanceEnds(ds);
          return false;
        }
        value := 0;
        assert Digits(rest) == ds[1..];
        ok := next.Incr(rest);
        AdvanceWithCarry(ds, Digits(nodes), ok);
      } else {
        AdvanceFirst(ds);
        value := value + 1;
        assert Digits(rest) == ds[1..];
        ok := true;
      }
    }
  }

  // ---------------------------------------------------------------------------------------
  // Building the odometer and visiting every vector

  ghost function Follower(nodes: seq<PermCounter>, i: nat, last: PermCounter?): PermCounter? {
    if i + 1 < |nodes| then nodes[i + 1] else last
  }

  /** Counters of columns of the given sizes, all at zero, each linked to the next and the last one to `last`. */
  ghost predicate Linked(nodes: seq<PermCounter>, sizes: seq<nat>, last: PermCounter?)
    reads nodes
  {
    && |nodes| == |sizes|
    && (forall i, j :: 0 <= i < j < |nodes| ==> nodes[i] != nodes[j])
    && (forall i {:trigger Follower(nodes, i, last)} :: 0 <= i < |nodes| ==>
      nodes[i].next == Follower(nodes, i, last) && nodes[i].value == 0 && nodes[i].max + 1 == sizes[i])
  }

  /** A finished chain. */
  ghost predicate Built(nodes: seq<PermCounter>, sizes: seq<nat>)
    reads nodes
  {
    Linked(nodes, sizes, null)
  }

  function Reversed<T>(xs: seq<T>): seq<T> {
    seq(|xs|, i requires 0 <= i < |xs| => xs[|xs| - 1 - i])
  }

  lemma BuiltTail(nodes: seq<PermCounter>, sizes: seq<nat>)
    requires Built(nodes, sizes) && |nodes| > 1
    ensures Built(nodes[1..], sizes[1..]) && nodes[0] !in nodes[1..] && nodes[0].next == nodes[1]
  {
    var rest := nodes[1..];
    assert nodes[0].next == Follower(nodes, 0, null);
    forall i | 0 <= i < |rest|
      ensures rest[i].next == Follower(rest, i, null) && rest[i].value == 0 && rest[i].max + 1 == sizes[1..][i]
    {
      assert rest[i] == nodes[i + 1] && nodes[i + 1].next == Follower(nodes, i + 1, null);
    }
  }

  lemma LinkedGrows(nodes: seq<PermCounter>, sizes: seq<nat>, node: PermCounter, size: nat)
    requires Linked(nodes, sizes, node) && node !in nodes
    requires node.next == null && node.value == 0 && node.max + 1 == size
    ensures Built(nodes + [node], sizes + [size])
  {
    var longer := nodes + [node];
    forall i | 0 <= i < |longer|
      ensures longer[i].next == Follower(longer, i, null)
      ensures longer[i].value == 0 && longer[i].max + 1 == (sizes + [size])[i]
    {
      if i < |nodes| {
        assert longer[i] == nodes[i] && nodes[i].next == Follower(nodes, i, node);
      }
    }
  }

  function Zeros(sizes: seq<nat>): seq<Digit> {
    seq(|sizes|, i requires 0 <= i < |sizes| => Digit(0, sizes[i] as int - 1))
  }

  lemma {:induction false} BuiltIsAChain(nodes: seq<PermCounter>, sizes: seq<nat>)
    requires Built(nodes, sizes) && nodes != []
    ensures Chain(nodes) && Digits(nodes) == Zeros(sizes)
    decreases nodes
  {
    assert nodes[0].next == Follower(nodes, 0, null);
    if |nodes| == 1 {
      assert Digits(nodes[1..]) == [];
    } else {
      BuiltTail(nodes, sizes);
      BuiltIsAChain(nodes[1..], sizes[1..]);
    }
  }

  lemma {:induction false} ZerosReadZero(sizes: seq<nat>)
    ensures AllOk(Zeros(sizes)) && Sizes(Zeros(sizes)) == Reversed(sizes) && Reading(Zeros(sizes)) == 0
    decreases sizes
  {
    if sizes != [] {
      ZerosReadZero(sizes[1..]);
      assert Zeros(sizes)[1..] == Zeros(sizes[1..]);
      assert Reversed(sizes) == Reversed(sizes[1..]) + [sizes[0]];
      assert Reading(Zeros(sizes)) == 0 * Radix(sizes[0]) + 0;
    }
  }

  method Reverse<T>(input: seq<T>) returns (out: seq<T>)
    ensures out == Reversed(input)
  {
    out := [];
    var i := |input| - 1;
    while i >= 0
      invariant -1 <= i < |input| && |out| == |input| - 1 - i
      invariant forall j :: 0 <= j < |out| ==> out[j] == input[|input| - 1 - j]
    {
      out := out + [input[i]];
      i := i - 1;
    }
  }

  function Lengths<U>(options: seq<seq<U>>): seq<nat> {
    seq(|options|, i requires 0 <= i < |options| => |options[i]|)
  }

  /** Indexes that stay inside their columns; -1 asks for the default. */
  predicate Selects<U>(options: seq<seq<U>>, indexes: seq<int>) {
    |indexes| <= |options| && forall i :: 0 <= i < |indexes| ==> -1 <= indexes[i] < |options[i]|
  }

  lemma VectorsSelect<U>(options: seq<seq<U>>, v: seq<int>)
    requires IsVector(v, Lengths(options))
    ensures Selects(options, v)
  {
    forall i | 0 <= i < |v|
      ensures -1 <= v[i] < |options[i]|
    {
      assert IsIndex(v[i], Lengths(options)[i]);
    }
  }

  /** The row holds what the indexes choose, column by column. */
  ghost predicate IsRow<U>(row: seq<U>, options: seq<seq<U>>, indexes: seq<int>, default: U)
    requires Selects(options, indexes)
  {
    |row| == |indexes| &&
    forall i :: 0 <= i < |indexes| ==> row[i] == if indexes[i] == -1 then default else options[i][indexes[i]]
  }

  method SelectIndexes<U>(options: seq<seq<U>>, indexes: seq<int>, default: U) returns (row: seq<U>)
    requires Selects(options, indexes)
    ensures IsRow(row, options, indexes, default)
    ensures |row| == |indexes|
    ensures forall i :: 0 <= i < |indexes| ==> row[i] == if indexes[i] == -1 then default else options[i][indexes[i]]
  {
    row := [];
    for i := 0 to |indexes|
      invariant |row| == i
      invariant forall j :: 0 <= j < i ==> row[j] == if indexes[j] == -1 then default else options[j][indexes[j]]
    {
      if indexes[i] == -1 {
        row := row + [default];
      } else {
        row := row + [options[i][indexes[i]]];
      }
    }
  }

  /** Hangs one more counter on the end of a chain. */
  method Append(cursor: PermCounter, node: PermCounter, ghost nodes: seq<PermCounter>, ghost sizes: seq<nat>)
    requires Built(nodes, sizes) && nodes != [] && nodes[|nodes| - 1] == cursor && node !in nodes
    requires node.next == null && node.value == 0 && node.max >= -1
    modifies cursor
    ensures Built(nodes + [node], sizes + [node.max + 1])
  {
    ghost var n := |nodes| - 1;
    cursor.next := node;
    forall i | 0 <= i <= n
      ensures nodes[i].next == Follower(nodes, i, node) && nodes[i].value == 0 && nodes[i].max + 1 == sizes[i]
    {
      assert old(nodes[i].next) == Follower(nodes, i, null);
      assert i < n ==> nodes[i] != cursor;
      assert old(nodes[i].value) == 0 && old(nodes[i].max) + 1 == sizes[i];
    }
    LinkedGrows(nodes, sizes, node, node.max + 1);
  }

  /** Links one counter for each size, the first as the root. */
  method Build(sizes: seq<nat>) returns (root: PermCounter, ghost nodes: seq<PermCounter>)
    requires sizes != []
    ensures Built(nodes, sizes) && nodes[0] == root
    ensures forall i :: 0 <= i < |nodes| ==> fresh(nodes[i])
  {
    root := new PermCounter(sizes[0] as int - 1);
    var cursor := root;
    nodes := [root];
    for i := 1 to |sizes|
      invariant |nodes| == i && nodes[0] == root && nodes[i - 1] == cursor
      invariant Built(nodes, sizes[..i])
      invariant forall j :: 0 <= j < i ==> fresh(nodes[j])
    {
      var node := new PermCounter(sizes[i] as int - 1);
      Append(cursor, node, nodes, sizes[..i]);
      assert sizes[..i] + [sizes[i]] == sizes[..i + 1];
      cursor := node;
      nodes := nodes + [node];
    }
    assert sizes[..|sizes|] == sizes;
  }

  /** The calls for one index vector each, in the order of their ranks. */
  ghost predicate VisitsInOrder<U>(
      calls: seq<seq<U>>, visited: seq<seq<int>>, options: seq<seq<U>>, default: U)
  {
    |calls| == |visited| &&
    forall k {:trigger visited[k]} :: 0 <= k < |visited| ==>
      && IsVector(visited[k], Lengths(options))
      && Selects(options, visited[k])
      && Rank(visited[k], Lengths(options)) == k
      && IsRow(calls[k], options, visited[k], default)
  }

  /** `Permutations`; the result lists the rows that the callback receives, in order. */
  method Permutations<T, U>(input: seq<T>, extract: T -> seq<U>, default: U)
    returns (calls: seq<seq<U>>, ghost options: seq<seq<U>>, ghost visited: seq<seq<int>>)
    ensures options == seq(|input|, i requires 0 <= i < |input| => extract(input[i]))
    ensures input == [] ==> calls == []
    ensures input != [] ==> |calls| == Size(Lengths(options)) && VisitsInOrder(calls, visited, options, default)
    ensures |visited| == |calls|
    ensures forall k, c {:trigger calls[k][c]} :: 0 <= k < |calls| && 0 <= c < |options| ==>
      && |calls[k]| == |visited[k]| == |options|
      && (|options[c]| == 0 ==> calls[k][c] == default)
      && (|options[c]| > 0 ==> 0 <= visited[k][c] < |options[c]| && calls[k][c] == options[c][visited[k][c]])
  {
    calls, visited := [], [];
    options := seq(|input|, i requires 0 <= i < |input| => extract(input[i]));
    if |input| == 0 {
      return;
    }
    var columns: seq<seq<U>> := [];
    for i := 0 to |input|
      invariant columns == options[..i]
    {
      columns := columns + [extract(input[i])];
    }
    assert columns == options;
    var rows := Reverse(columns);
    assert Reversed(Lengths(rows)) == Lengths(columns);
    calls, visited := VisitColumns(Lengths(rows), columns, default);
    forall k, c | 0 <= k < |calls| && 0 <= c < |options|
      ensures |calls[k]| == |visited[k]| == |options|
      ensures |options[c]| == 0 ==> calls[k][c] == default
      ensures |options[c]| > 0 ==> 0 <= visited[k][c] < |options[c]| && calls[k][c] == options[c][visited[k][c]]
    {
      CallHoldsTheOption(calls, visited, options, default, k, c);
    }
  }

  /** The part of `Permutations` after its columns are known; `sizes` are theirs in reverse. */
  method VisitColumns<U>(sizes: seq<nat>, columns: seq<seq<U>>, default: U)
    returns (calls: seq<seq<U>>, ghost visited: seq<seq<int>>)
    requires sizes != [] && Reversed(sizes) == Lengths(columns)
    ensures |calls| == Size(Lengths(columns)) && VisitsInOrder(calls, visited, columns, default)
  {
    var root, nodes := Build(sizes);
    BuiltIsAChain(nodes, sizes);
    ZerosReadZero(sizes);
    RankBelowSizes(Zeros(sizes));
    calls, visited := VisitAll(root, nodes, columns, default);
  }

  lemma VisitOneMore<U>(
      calls: seq<seq<U>>, visited: seq<seq<int>>, options: seq<seq<U>>, default: U, v: seq<int>, row: seq<U>)
    requires VisitsInOrder(calls, visited, options, default)
    requires IsVector(v, Lengths(options)) && Selects(options, v) && Rank(v, Lengths(options)) == |calls|
    requires IsRow(row, options, v, default)
    ensures VisitsInOrder(calls + [row], visited + [v], options, default)
  {
  }

  /** A column of a call: the option with that index, or the default of an empty column. */
  lemma CallHoldsTheOption<U>(
      calls: seq<seq<U>>, visited: seq<seq<int>>, options: seq<seq<U>>, default: U, k: nat, c: nat)
    requires VisitsInOrder(calls, visited, options, default) && k < |calls| && c < |options|
    ensures |calls[k]| == |visited[k]| == |options|
    ensures |options[c]| == 0 ==> calls[k][c] == default
    ensures |options[c]| > 0 ==> 0 <= visited[k][c] < |options[c]| && calls[k][c] == options[c][visited[k][c]]
  {
    var v := visited[k];
    assert |v| == |Lengths(options)| == |options|;
    assert IsIndex(v[c], Lengths(options)[c]);
  }

  /** The digits show the k-th vector of the columns. */
  ghost predicate Shows<U>(ds: seq<Digit>, options: seq<seq<U>>, k: nat) {
    AllOk(ds) && Sizes(ds) == Lengths(options) && Reading(ds) == k < Size(Lengths(options))
  }

  lemma ShownVector<U>(ds: seq<Digit>, options: seq<seq<U>>, k: nat)
    requires Shows(ds, options, k)
    ensures IsVector(Vector(ds), Lengths(options)) && Selects(options, Vector(ds))
    ensures Rank(Vector(ds), Lengths(options)) == k
  {
    ReadingIsRank(ds);
    VectorsSelect(options, Vector(ds));
  }

  lemma ShowsNext<U>(ds: seq<Digit>, es: seq<Digit>, ok: bool, options: seq<seq<U>>, k: nat)
    requires Shows(ds, options, k) && Advanced(ds, es, ok)
    ensures if ok then Shows(es, options, k + 1) else k + 1 == Size(Lengths(options))
  {
    RankBelowSizes(ds);
    RankBelowSizes(es);
  }

  /** One round of the loop: the row that the counters show, and a turn. */
  method Round<U>(root: PermCounter, ghost nodes: seq<PermCounter>, options: seq<seq<U>>, default: U, ghost k: nat)
    returns (row: seq<U>, ghost v: seq<int>, ok: bool)
    requires Chain(nodes) && nodes[0] == root && Shows(Digits(nodes), options, k)
    modifies nodes
    ensures IsVector(v, Lengths(options)) && Selects(options, v) && Rank(v, Lengths(options)) == k
    ensures IsRow(row, options, v, default)
    ensures Chain(nodes) && if ok then Shows(Digits(nodes), options, k + 1) else k + 1 == Size(Lengths(options))
  {
    ghost var ds := Digits(nodes);
    var indexes := root.Value(nodes);
    ShownVector(ds, options, k);
    v := indexes;
    row := SelectIndexes(options, indexes, default);
    ok := root.Incr(nodes);
    ShowsNext(ds, Digits(nodes), ok, options, k);
  }

  /** The loop of `Permutations`: show, call, turn. */
  method VisitAll<U>(root: PermCounter, ghost nodes: seq<PermCounter>, options: seq<seq<U>>, default: U)
    returns (calls: seq<seq<U>>, ghost visited: seq<seq<int>>)
    requires Chain(nodes) && nodes[0] == root && Shows(Digits(nodes), options, 0)
    modifies nodes
    ensures |calls| == Size(Lengths(options)) && VisitsInOrder(calls, visited, options, default)
  {
    calls, visited := [], [];
    while true
      invariant Chain(nodes) && nodes[0] == root && Shows(Digits(nodes), options, |calls|)
      invariant VisitsInOrder(calls, visited, options, default)
      decreases Size(Lengths(options)) - |calls|
    {
      var row, v, ok := Round(root, nodes, options, default, |calls|);
      VisitOneMore(calls, visited, options, default, v, row);
      calls, visited := calls + [row], visited + [v];
      if !ok {
        break;
      }
    }
  }

  lemma RankBelowSizes(ds: seq<Digit>)
    requires AllOk(ds)
    ensures 0 <= Reading(ds) < Size(Sizes(ds)) == Capacity(ds)
  {
    ReadingIsRank(ds);
    RankBelowSize(Vector(ds), Sizes(ds));
  }

  /**
   Visiting the ranks in order visits every index vector of the product exactly once, in
   strictly increasing lexicographic order.
   */
  lemma EveryVectorOnce<U>(calls: seq<seq<U>>, visited: seq<seq<int>>, options: seq<seq<U>>, default: U, v: seq<int>)
    requires VisitsInOrder(calls, visited, options, default) && |calls| == Size(Lengths(options))
    requires IsVector(v, Lengths(options))
    ensures forall i, j :: 0 <= i < j < |visited| ==> LexLess(visited[i], visited[j])
    ensures exists k :: 0 <= k < |visited| && visited[k] == v
    ensures forall i, j :: 0 <= i < |visited| && 0 <= j < |visited| && visited[i] == visited[j] ==> i == j
  {
    var sizes := Lengths(options);
    forall i, j | 0 <= i < j < |visited|
      ensures LexLess(visited[i], visited[j])
    {
      RankOrdersLexicographically(visited[i], visited[j], sizes);
    }
    var k := Rank(v, sizes);
    RankBelowSize(v, sizes);
    RankOrdersLexicographically(visited[k], v, sizes);
  }

  /** A choice of one index for each column that has options. */
  predicate IsChoice<U>(choice: seq<int>, options: seq<seq<U>>) {
    |choice| == |options| &&
    forall c :: 0 <= c < |options| ==> if |options[c]| == 0 then choice[c] == -1 else 0 <= choice[c] < |options[c]|
  }

  /** Every choice is passed to the callback by exactly one call, with its option from each column. */
  lemma EveryChoiceIsCalledOnce<U>(
      calls: seq<seq<U>>, visited: seq<seq<int>>, options: seq<seq<U>>, default: U, choice: seq<int>) returns (k: nat)
    requires VisitsInOrder(calls, visited, options, default) && |calls| == Size(Lengths(options))
    requires IsChoice(choice, options)
    ensures k < |calls| && visited[k] == choice && |calls[k]| == |options|
    ensures forall c :: 0 <= c < |options| ==>
      calls[k][c] == if |options[c]| == 0 then default else options[c][choice[c]]
    ensures forall other :: 0 <= other < |calls| && visited[other] == choice ==> other == k
  {
    assert IsVector(choice, Lengths(options));
    EveryVectorOnce(calls, visited, options, default, choice);
    k :| 0 <= k < |visited| && visited[k] == choice;
    forall c | 0 <= c < |options|
      ensures |calls[k]| == |options|
      ensures calls[k][c] == if |options[c]| == 0 then default else options[c][choice[c]]
    {
      CallHoldsTheOption(calls, visited, options, default, k, c);
    }
  }
}
