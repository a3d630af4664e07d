/**
 What a node does once its loop has stopped: it sorts its queue by clock
 and folds over it with a per-command occurrence counter, applying a
 command's effect to the state only when that command is seen for exactly
 the second time.
 */
module Finalizer {
  import opened Messages

  // ---------------------------------------------------------------------
  // Sorting by clock

  /** Whether p is one of the orders the sort may produce for q: the same
      entries, ascending by clock. The library sort is not stable, so on
      equal clocks any of these orders is possible. */
  predicate IsSortedPermutation(q: seq<ClockCommand>, p: seq<ClockCommand>) {
    multiset(p) == multiset(q) && SortedByClock(p)
  }

  /** Inserts e into an ascending sequence, ahead of the first entry whose
      clock is not smaller. */
  function Insert(e: ClockCommand, s: seq<ClockCommand>): (r: seq<ClockCommand>)
    requires SortedByClock(s)
    ensures IsSortedPermutation(s + [e], r)
    ensures |r| > 0 && (r[0] == e || (|s| > 0 && r[0] == s[0]))
    ensures |s| > 0 && e.clock < s[0].clock ==> r == [e] + s
  {
    if |s| == 0 || e.clock <= s[0].clock then
      assert multiset([e] + s) == multiset(s + [e]);
      SortedCons(e, s);
      [e] + s
    else
      SortedTail(s);
      var t := Insert(e, s[1..]);
      assert s + [e] == [s[0]] + (s[1..] + [e]);
      SortedCons(s[0], t);
      [s[0]] + t
  }

  /** Dropping the first entry keeps a sequence sorted. */
  lemma SortedTail(s: seq<ClockCommand>)
    requires SortedByClock(s) && |s| > 0
    ensures SortedByClock(s[1..])
  {
  }

  /** Putting an entry no later than the head in front keeps a sequence sorted. */
  lemma SortedCons(x: ClockCommand, t: seq<ClockCommand>)
    requires SortedByClock(t)
    requires |t| > 0 ==> x.clock <= t[0].clock
    ensures SortedByClock([x] + t)
  {
  }

  /** One concrete sorted order of the queue, the one this model fixes for
      the library sort. */
  function SortByClock(q: seq<ClockCommand>): (r: seq<ClockCommand>)
    ensures IsSortedPermutation(q, r)
  {
    if |q| == 0 then []
    else
      assert q == [q[0]] + q[1..];
      Insert(q[0], SortByClock(q[1..]))
  }

  /** On a queue whose clocks strictly increase there is one sorted order
      only: the queue itself. So however the unstable sort breaks ties, it
      leaves such a queue as it is. */
  lemma {:induction false} SortedPermutationOfIncreasingIsIdentity(q: seq<ClockCommand>, p: seq<ClockCommand>)
    requires StrictlyIncreasing(q)
    requires IsSortedPermutation(q, p)
    ensures p == q
    decreases |q|
  {
    assert |p| == |multiset(p)| == |multiset(q)| == |q|;
    if |q| > 0 {
      SortedPermutationHead(q, p);
      assert p == [p[0]] + p[1..];
      assert q == [q[0]] + q[1..];
      assert multiset(p[1..]) == multiset(p) - multiset{p[0]};
      assert multiset(q[1..]) == multiset(q) - multiset{q[0]};
      SortedPermutationOfIncreasingIsIdentity(q[1..], p[1..]);
    }
  }

  /** The first entry of any sorted order of a strictly increasing queue is
      the queue's own first entry. */
  lemma SortedPermutationHead(q: seq<ClockCommand>, p: seq<ClockCommand>)
    requires StrictlyIncreasing(q)
    requires IsSortedPermutation(q, p)
    requires |q| > 0 && |p| > 0
    ensures p[0] == q[0]
  {
    assert p[0] in multiset(q);
    var j :| 0 <= j < |q| && q[j] == p[0];
    assert q[0] in multiset(p);
    var i :| 0 <= i < |p| && p[i] == q[0];
    assert p[0].clock <= p[i].clock;
    assert q[0].clock <= q[j].clock;
  }

  // ---------------------------------------------------------------------
  // Counting fold

  /** Whether a command's kind has an effect on the state at all. */
  predicate IsArithmetic(c: Command) {
    c.kind == Multiply || c.kind == Add
  }

  /** The effect of applying one command to the state. */
  function Effect(c: Command, state: int): (r: int)
    ensures !IsArithmetic(c) ==> r == state
  {
    if c.kind == Multiply then state * c.value
    else if c.kind == Add then state + c.value
    else state
  }

  /** How many entries of s carry the command c. */
  function Count(s: seq<ClockCommand>, c: Command): nat {
    if |s| == 0 then 0
    else Count(s[..|s| - 1], c) + (if s[|s| - 1].command == c then 1 else 0)
  }

  /** Reference definition of the fold: the state after s is the state
      after all but its last entry, with the last entry's effect applied
      exactly when its command occurs exactly twice in s. */
  function SecondSight(s: seq<ClockCommand>, state: int): int {
    if |s| == 0 then state
    else
      var e := s[|s| - 1];
      var before := SecondSight(s[..|s| - 1], state);
      if Count(s, e.command) == 2 then Effect(e.command, before) else before
  }

  /** A counter looked up with a default of zero, as a missing key reads. */
  function CountOf(counts: map<Command, nat>, c: Command): nat {
    if c in counts then counts[c] else 0
  }

  /** The fold as the node runs it: front to back, bumping the command's
      counter and applying its effect when the counter has just become 2. */
  function ApplyFrom(s: seq<ClockCommand>, counts: map<Command, nat>, state: int): int
    decreases |s|
  {
    if |s| == 0 then state
    else
      var c := s[0].command;
      var seen := CountOf(counts, c) + 1;
      var next := if seen == 2 then Effect(c, state) else state;
      ApplyFrom(s[1..], counts[c := seen], next)
  }

  /** The fold started with an empty counter map. It computes the reference
      definition: each entry's effect is applied exactly when its command
      occurs for the second time in the prefix ending at that entry. */
  function Apply(s: seq<ClockCommand>, state: int): (r: int)
    ensures r == SecondSight(s, state)
  {
    ApplyFromMatchesReference([], s, map[], state);
    assert [] + s == s;
    ApplyFrom(s, map[], state)
  }

  /** The fold resumed after a prefix, with counters matching that prefix,
      agrees with the reference definition of the whole. */
  lemma {:induction false} ApplyFromMatchesReference(done: seq<ClockCommand>, rest: seq<ClockCommand>,
                                                     counts: map<Command, nat>, state: int)
    requires forall c :: CountOf(counts, c) == Count(done, c)
    ensures ApplyFrom(rest, counts, SecondSight(done, state)) == SecondSight(done + rest, state)
    decreases |rest|
  {
    if |rest| == 0 {
      assert done + rest == done;
    } else {
      var e := rest[0];
      var done' := done + [e];
      assert done'[..|done'| - 1] == done;
      var seen := CountOf(counts, e.command) + 1;
      var counts' := counts[e.command := seen];
      assert forall c :: CountOf(counts', c) == Count(done', c);
      assert Count(done', e.command) == seen;
      ApplyFromMatchesReference(done', rest[1..], counts', state);
      assert done' + rest[1..] == done + rest;
    }
  }

  /** Apply on second sight: appending an entry changes the folded state
      only when that entry is the second occurrence of its command; a first,
      third or later occurrence leaves it as it was. */
  lemma ApplyAppend(s: seq<ClockCommand>, e: ClockCommand, state: int)
    ensures Count(s + [e], e.command) == Count(s, e.command) + 1
    ensures Apply(s + [e], state) ==
      if Count(s, e.command) == 1 then Effect(e.command, Apply(s, state)) else Apply(s, state)
  {
    assert (s + [e])[..|s + [e]| - 1] == s;
  }

  /** A queue in which no command occurs twice leaves the state unchanged. */
  lemma {:induction false} NoRepeatLeavesStateUnchanged(s: seq<ClockCommand>, state: int)
    requires forall c :: Count(s, c) <= 1
    ensures Apply(s, state) == state
  {
    ReferenceNoRepeat(s, state);
  }

  /** The reference fold over a queue without repeated commands is the identity. */
  lemma {:induction false} ReferenceNoRepeat(s: seq<ClockCommand>, state: int)
    requires forall c :: Count(s, c) <= 1
    ensures SecondSight(s, state) == state
    decreases |s|
  {
    if |s| > 0 {
      var p := s[..|s| - 1];
      assert forall c :: Count(p, c) <= Count(s, c);
      ReferenceNoRepeat(p, state);
    }
  }

  /** The entries whose kind has an effect, in their original order. */
  function ArithmeticOnly(s: seq<ClockCommand>): (r: seq<ClockCommand>)
    ensures forall i :: 0 <= i < |r| ==> IsArithmetic(r[i].command)
  {
    if |s| == 0 then []
    else
      var e := s[|s| - 1];
      ArithmeticOnly(s[..|s| - 1]) + (if IsArithmetic(e.command) then [e] else [])
  }

  /** Entries of any kind other than "add" and "multiply" never influence the
      result: dropping them all gives the same final state. */
  lemma ArithmeticOnlyAgrees(s: seq<ClockCommand>, state: int)
    ensures Apply(ArithmeticOnly(s), state) == Apply(s, state)
  {
    ReferenceArithmeticOnly(s, state);
  }

  /** Dropping the entries without effect does not change how often an
      "add" or "multiply" command occurs. */
  lemma {:induction false} CountArithmeticOnly(s: seq<ClockCommand>, c: Command)
    requires IsArithmetic(c)
    ensures Count(ArithmeticOnly(s), c) == Count(s, c)
    decreases |s|
  {
    if |s| > 0 {
      var p := s[..|s| - 1];
      var e := s[|s| - 1];
      CountArithmeticOnly(p, c);
      if IsArithmetic(e.command) {
        var f := ArithmeticOnly(p) + [e];
        assert f[..|f| - 1] == ArithmeticOnly(p);
        assert Count(f, c) == Count(ArithmeticOnly(p), c) + (if e.command == c then 1 else 0);
      } else {
        assert ArithmeticOnly(s) == ArithmeticOnly(p) + [] == ArithmeticOnly(p);
      }
    }
  }

  /** The reference fold ignores entries without effect. */
  lemma {:induction false} ReferenceArithmeticOnly(s: seq<ClockCommand>, state: int)
    ensures SecondSight(ArithmeticOnly(s), state) == SecondSight(s, state)
    decreases |s|
  {
    if |s| > 0 {
      var p := s[..|s| - 1];
      var e := s[|s| - 1];
      ReferenceArithmeticOnly(p, state);
      if IsArithmetic(e.command) {
        var f := ArithmeticOnly(p) + [e];
        assert f[..|f| - 1] == ArithmeticOnly(p);
        assert ArithmeticOnly(s) == f;
        CountArithmeticOnly(s, e.command);
      } else {
        assert ArithmeticOnly(s) == ArithmeticOnly(p) + [] == ArithmeticOnly(p);
      }
    }
  }

  // ---------------------------------------------------------------------
  // The finalizer

  /** The sorted queue and the final state. The queue comes back as a sorted
      permutation of itself; a queue already strictly increasing in clock
      comes back unchanged, and the state is then the fold over it. */
  function Finalize(queue: seq<ClockCommand>, state: int): (r: (seq<ClockCommand>, int))
    ensures IsSortedPermutation(queue, r.0)
    ensures r.1 == Apply(r.0, state)
    ensures StrictlyIncreasing(queue) ==> r.0 == queue && r.1 == Apply(queue, state)
  {
    var sorted := SortByClock(queue);
    assert StrictlyIncreasing(queue) ==> sorted == queue by {
      if StrictlyIncreasing(queue) {
        SortedPermutationOfIncreasingIsIdentity(queue, sorted);
      }
    }
    (sorted, Apply(sorted, state))
  }

  /** The worked example: add 5 and multiply 3, each seen twice, from 10.
      The third entry is the second "multiply 3" (10 * 3 = 30) and the fourth
      the second "add 5" (30 + 5 = 35); with increasing clocks the queue is
      already in order and comes back unchanged. */
  lemma WorkedExample(q: seq<ClockCommand>, t0: int, t1: int, t2: int, t3: int)
    requires t0 < t1 < t2 < t3
    requires q == [ClockCommand(Command(Add, 5), t0), ClockCommand(Command(Multiply, 3), t1),
                   ClockCommand(Command(Multiply, 3), t2), ClockCommand(Command(Add, 5), t3)]
    ensures Finalize(q, 10) == (q, 35)
  {
    assert StrictlyIncreasing(q);
    WorkedExampleFold(q, t0, t1, t2, t3);
  }

  /** The fold part of the worked example. */
  lemma WorkedExampleFold(q: seq<ClockCommand>, t0: int, t1: int, t2: int, t3: int)
    requires q == [ClockCommand(Command(Add, 5), t0), ClockCommand(Command(Multiply, 3), t1),
                   ClockCommand(Command(Multiply, 3), t2), ClockCommand(Command(Add, 5), t3)]
    ensures Apply(q, 10) == 35
  {
    KindsDistinct();
    ApplyAppend(q[..3], q[3], 10);
    ApplyAppend(q[..2], q[2], 10);
    ApplyAppend(q[..1], q[1], 10);
    ApplyAppend([], q[0], 10);
    assert [] + [q[0]] == q[..1] && q[..1] + [q[1]] == q[..2] && q[..2] + [q[2]] == q[..3] && q[..3] + [q[3]] == q;
  }
}
