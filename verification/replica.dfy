/**
 One replica node's event loop, as pure functions over an explicit state
 (clock, queue, outbox). The node starts at clock 0 with an empty queue;
 each local command is logged and replicated to the peer, each message
 from the peer is logged under the Lamport receive rule, and a
 "terminate" command ends the loop.
 */
module Replica {
  import opened Messages

  /** The node's state: its logical clock, the queue of logged commands in
      insertion order, every message it has sent to its peer so far, and
      whether its loop is still accepting events. */
  datatype Node = Node(clock: int, queue: seq<ClockCommand>, outbox: seq<Message>, running: bool)

  /** A freshly started node. */
  const Init: Node := Node(0, [], [], true)

  function Max(a: int, b: int): int {
    if a < b then b else a
  }

  /** The ordering invariant the loop keeps: every logged and every sent
      timestamp lies below the current clock, and both the queue and the
      outbox are stamped in strictly increasing order. */
  predicate Valid(n: Node) {
    && (forall i :: 0 <= i < |n.queue| ==> n.queue[i].clock < n.clock)
    && StrictlyIncreasing(n.queue)
    && (forall i :: 0 <= i < |n.outbox| ==> n.outbox[i].clock < n.clock)
    && (forall i, j :: 0 <= i < j < |n.outbox| ==> n.outbox[i].clock < n.outbox[j].clock)
  }

  /** A command submitted to this node. A "terminate" command only stops the
      loop. Any other command is logged at the clock as it stands, then a
      message stamped one tick later is sent to the peer, and the clock ends
      two ticks ahead. */
  function HandleCommand(n: Node, cmd: Command): (r: Node)
    ensures cmd.kind == Terminate ==>
      r.clock == n.clock && r.queue == n.queue && r.outbox == n.outbox && !r.running
    ensures cmd.kind != Terminate ==>
      && r.running == n.running
      && r.queue == n.queue + [ClockCommand(cmd, n.clock)]
      && r.outbox == n.outbox + [Message(n.clock + 1, cmd)]
      && r.clock == n.clock + 2
  {
    if cmd.kind == Terminate then
      n.(running := false)
    else
      var logged := n.clock;
      var sent := logged + 1;
      Node(sent + 1, n.queue + [ClockCommand(cmd, logged)], n.outbox + [Message(sent, cmd)], n.running)
  }

  /** A message replicated from the peer: the clock jumps past the message's
      timestamp when that is ahead, and otherwise ticks once; the command is
      logged at the new clock, the clock ticks again, and nothing is sent. */
  function HandleMessage(n: Node, msg: Message): (r: Node)
    ensures |r.queue| == |n.queue| + 1 && r.queue[..|n.queue|] == n.queue
    ensures r.queue[|n.queue|] == ClockCommand(msg.command, Max(n.clock, msg.clock) + 1)
    ensures r.queue[|n.queue|].clock > n.clock && r.queue[|n.queue|].clock > msg.clock
    ensures r.clock == r.queue[|n.queue|].clock + 1
    ensures r.outbox == n.outbox && r.running == n.running
  {
    var logged := if msg.clock > n.clock then msg.clock + 1 else n.clock + 1;
    Node(logged + 1, n.queue + [ClockCommand(msg.command, logged)], n.outbox, n.running)
  }

  /** One turn of the loop. Once the loop has stopped no event is consumed
      any more, so the state stays as it is. */
  function Step(n: Node, e: Event): (r: Node)
    ensures !n.running ==> r == n
    ensures r.clock >= n.clock
    ensures n.running && !IsTerminate(e) ==> r.clock >= n.clock + 2 && r.running
    ensures n.running && IsTerminate(e) ==> !r.running && r.queue == n.queue && r.outbox == n.outbox
  {
    if !n.running then n
    else
      match e
      case Local(cmd) => HandleCommand(n, cmd)
      case Remote(msg) => HandleMessage(n, msg)
  }

  /** The loop run over a sequence of events, in order. */
  function Run(n: Node, es: seq<Event>): (r: Node)
    ensures r.clock >= n.clock
    ensures n.queue <= r.queue && n.outbox <= r.outbox
    decreases |es|
  {
    if |es| == 0 then n else Run(Step(n, es[0]), es[1..])
  }

  /** The events the loop handles before it stops: everything up to, and
      not including, the first "terminate" command. */
  function Active(es: seq<Event>): seq<Event> {
    if |es| == 0 || IsTerminate(es[0]) then [] else [es[0]] + Active(es[1..])
  }

  /** Whether some event in the sequence stops the loop. */
  predicate Terminates(es: seq<Event>) {
    exists i :: 0 <= i < |es| && IsTerminate(es[i])
  }

  /** The commands submitted locally among the given events. */
  function LocalCommands(es: seq<Event>): seq<Command> {
    if |es| == 0 then []
    else (if es[0].Local? then [es[0].cmd] else []) + LocalCommands(es[1..])
  }

  /** Handling a local command keeps the ordering invariant. */
  lemma HandleCommandKeepsValid(n: Node, cmd: Command)
    requires Valid(n)
    ensures Valid(HandleCommand(n, cmd))
  {
  }

  /** Handling a message from the peer keeps the ordering invariant. */
  lemma HandleMessageKeepsValid(n: Node, msg: Message)
    requires Valid(n)
    ensures Valid(HandleMessage(n, msg))
  {
  }

  /** One turn of the loop keeps the ordering invariant. */
  lemma StepKeepsValid(n: Node, e: Event)
    requires Valid(n)
    ensures Valid(Step(n, e))
  {
    if n.running {
      match e
      case Local(cmd) => HandleCommandKeepsValid(n, cmd);
      case Remote(msg) => HandleMessageKeepsValid(n, msg);
    }
  }

  /** The ordering invariant holds of a fresh node and after every sequence
      of events. */
  lemma {:induction false} RunKeepsValid(n: Node, es: seq<Event>)
    requires Valid(n)
    ensures Valid(Run(n, es))
    decreases |es|
  {
    if |es| > 0 {
      StepKeepsValid(n, es[0]);
      RunKeepsValid(Step(n, es[0]), es[1..]);
    }
  }

  /** The clock advances by at least two ticks on every handled event, so
      after a run it has advanced by at least twice the number of events
      handled. */
  lemma {:induction false} RunAdvancesClock(n: Node, es: seq<Event>)
    requires n.running
    ensures Run(n, es).clock >= n.clock + 2 * |Active(es)|
    decreases |es|
  {
    if |es| > 0 && !IsTerminate(es[0]) {
      RunAdvancesClock(Step(n, es[0]), es[1..]);
    } else if |es| > 0 {
      RunStopped(Step(n, es[0]), es[1..]);
    }
  }

  /** A stopped loop consumes nothing more. */
  lemma {:induction false} RunStopped(n: Node, es: seq<Event>)
    requires !n.running
    ensures Run(n, es) == n
    decreases |es|
  {
    if |es| > 0 {
      RunStopped(Step(n, es[0]), es[1..]);
    }
  }

  /** The loop stops exactly when some event is a "terminate" command. */
  lemma {:induction false} RunStopsIffTerminate(n: Node, es: seq<Event>)
    requires n.running
    ensures !Run(n, es).running <==> Terminates(es)
    decreases |es|
  {
    if |es| > 0 {
      if IsTerminate(es[0]) {
        RunStopped(Step(n, es[0]), es[1..]);
      } else {
        RunStopsIffTerminate(Step(n, es[0]), es[1..]);
        assert Terminates(es) <==> Terminates(es[1..]) by {
          if Terminates(es) {
            var i :| 0 <= i < |es| && IsTerminate(es[i]);
            assert i > 0 && IsTerminate(es[1..][i - 1]);
          }
          if Terminates(es[1..]) {
            var i :| 0 <= i < |es[1..]| && IsTerminate(es[1..][i]);
            assert IsTerminate(es[i + 1]);
          }
        }
      }
    }
  }

  /** The queue grows by one entry per handled event and by nothing else,
      and the new entries carry the handled events' commands in order. */
  lemma {:induction false} RunLogsActiveEvents(n: Node, es: seq<Event>)
    requires n.running
    ensures |Run(n, es).queue| == |n.queue| + |Active(es)|
    ensures forall i :: 0 <= i < |Active(es)| ==>
      Run(n, es).queue[|n.queue| + i].command == Payload(Active(es)[i])
    decreases |es|
  {
    if |es| > 0 {
      var m := Step(n, es[0]);
      if IsTerminate(es[0]) {
        RunStopped(m, es[1..]);
      } else {
        RunLogsActiveEvents(m, es[1..]);
        var r := Run(n, es);
        assert r == Run(m, es[1..]);
        assert Active(es) == [es[0]] + Active(es[1..]);
        assert r.queue[|n.queue|] == m.queue[|n.queue|];
        forall i | 0 < i < |Active(es)|
          ensures r.queue[|n.queue| + i].command == Payload(Active(es)[i])
        {
          assert Active(es)[i] == Active(es[1..])[i - 1];
          assert |n.queue| + i == |m.queue| + (i - 1);
        }
      }
    }
  }

  /** Exactly one message is sent per handled local command, carrying that
      command, and none for a message from the peer. */
  lemma {:induction false} RunSendsActiveCommands(n: Node, es: seq<Event>)
    requires n.running
    ensures |Run(n, es).outbox| == |n.outbox| + |LocalCommands(Active(es))|
    ensures forall i :: 0 <= i < |LocalCommands(Active(es))| ==>
      Run(n, es).outbox[|n.outbox| + i].command == LocalCommands(Active(es))[i]
    decreases |es|
  {
    if |es| > 0 {
      var m := Step(n, es[0]);
      if IsTerminate(es[0]) {
        RunStopped(m, es[1..]);
      } else {
        RunSendsActiveCommands(m, es[1..]);
        LocalCommandsOfActive(es);
        if es[0].Local? {
          var r := Run(n, es);
          assert r == Run(m, es[1..]);
          assert m.outbox == n.outbox + [Message(n.clock + 1, es[0].cmd)];
          assert r.outbox[|n.outbox|] == m.outbox[|n.outbox|];
        }
      }
    }
  }

  /** Unfolds the handled local commands by one event. */
  lemma LocalCommandsOfActive(es: seq<Event>)
    requires |es| > 0 && !IsTerminate(es[0])
    ensures LocalCommands(Active(es)) ==
      (if es[0].Local? then [es[0].cmd] else []) + LocalCommands(Active(es[1..]))
  {
  }
}
