/**
 A whole node from start to output, and the two-node run that the program's
 driver performs.
 */
module Server {
  import opened Messages
  import opened Replica
  import opened Finalizer

  /** What a node delivers on its output channel: nothing while its loop has
      not been told to stop, otherwise its sorted queue and final state. */
  datatype Output = Pending | Done(log: seq<ClockCommand>, state: int)

  /** A node started with the given state and fed the given events in order.
      It produces output exactly when some event is a "terminate" command;
      the log it outputs is its queue unchanged (the queue is already in clock
      order, so sorting moves nothing), holding one entry per event handled
      before the stop, and the state is the counting fold over that log. */
  function Serve(es: seq<Event>, state: int): (r: Output)
    ensures r.Done? <==> Terminates(es)
    ensures r.Done? ==>
      && r.log == Run(Init, es).queue
      && StrictlyIncreasing(r.log)
      && |r.log| == |Active(es)|
      && (forall i :: 0 <= i < |r.log| ==> r.log[i].command == Payload(Active(es)[i]))
      && r.state == Apply(r.log, state)
  {
    var n := Run(Init, es);
    RunStopsIffTerminate(Init, es);
    RunKeepsValid(Init, es);
    RunLogsActiveEvents(Init, es);
    if n.running then Pending
    else
      var (log, final) := Finalize(n.queue, state);
      Done(log, final)
  }

  // ---------------------------------------------------------------------
  // The driver's fixed run over two nodes

  datatype NodeId = A | B

  /** Two nodes wired to each other. A node's outbox is everything it has
      put on its outbound channel; the counters say how many of those the
      peer has taken off so far, so the channels deliver in order. */
  datatype Cluster = Cluster(a: Node, b: Node, takenByA: nat, takenByB: nat)

  datatype Action = Submit(to: NodeId, cmd: Command) | Deliver(to: NodeId)

  const Start: Cluster := Cluster(Init, Init, 0, 0)

  /** The channels are in order and deliver nothing that was not sent: each
      node has taken at most as many messages as its peer has sent. */
  predicate Wired(c: Cluster) {
    c.takenByA <= |c.b.outbox| && c.takenByB <= |c.a.outbox|
  }

  /** One action: submit a command to a node, or let a node take the next
      message its peer sent. With nothing in flight, or a stopped receiver,
      a delivery does not happen. The channels only ever grow at the end, at
      most one message is taken per action, always the oldest one not yet
      taken, and taking a message sends nothing. */
  function Act(c: Cluster, x: Action): (r: Cluster)
    ensures Wired(c) ==> Wired(r)
    ensures c.a.outbox <= r.a.outbox && c.b.outbox <= r.b.outbox
    ensures c.takenByA <= r.takenByA <= c.takenByA + 1 && c.takenByB <= r.takenByB <= c.takenByB + 1
    ensures x.Deliver? ==> r.a.outbox == c.a.outbox && r.b.outbox == c.b.outbox
  {
    match x
    case Submit(A, cmd) => c.(a := Step(c.a, Local(cmd)))
    case Submit(B, cmd) => c.(b := Step(c.b, Local(cmd)))
    case Deliver(A) =>
      if c.a.running && c.takenByA < |c.b.outbox| then
        c.(a := Step(c.a, Remote(c.b.outbox[c.takenByA])), takenByA := c.takenByA + 1)
      else c
    case Deliver(B) =>
      if c.b.running && c.takenByB < |c.a.outbox| then
        c.(b := Step(c.b, Remote(c.a.outbox[c.takenByB])), takenByB := c.takenByB + 1)
      else c
  }

  /** A delivery takes the oldest message its peer sent that the receiver
      has not taken yet, and the receiver handles it with the receive rule. */
  lemma ActTakesOldest(c: Cluster, x: Action)
    ensures Act(c, x).takenByA == c.takenByA + 1 ==>
      c.takenByA < |c.b.outbox| && Act(c, x).a == HandleMessage(c.a, c.b.outbox[c.takenByA])
    ensures Act(c, x).takenByB == c.takenByB + 1 ==>
      c.takenByB < |c.a.outbox| && Act(c, x).b == HandleMessage(c.b, c.a.outbox[c.takenByB])
  {
  }

  /** A schedule of actions run in order. The channels stay in order and
      never deliver an unsent message, what has been sent is never withdrawn,
      and no more messages are taken than there are actions. */
  function Exec(c: Cluster, xs: seq<Action>): (r: Cluster)
    ensures Wired(c) ==> Wired(r)
    ensures c.a.outbox <= r.a.outbox && c.b.outbox <= r.b.outbox
    ensures c.takenByA <= r.takenByA && c.takenByB <= r.takenByB
    ensures (r.takenByA - c.takenByA) + (r.takenByB - c.takenByB) <= |xs|
    decreases |xs|
  {
    if |xs| == 0 then c else Exec(Act(c, xs[0]), xs[1..])
  }

  /** Running two schedules one after the other is running their concatenation. */
  lemma {:induction false} ExecAppend(c: Cluster, xs: seq<Action>, ys: seq<Action>)
    ensures Exec(c, xs + ys) == Exec(Exec(c, xs), ys)
    decreases |xs|
  {
    if |xs| == 0 {
      assert xs + ys == ys;
    } else {
      assert (xs + ys)[1..] == xs[1..] + ys;
      ExecAppend(Act(c, xs[0]), xs[1..], ys);
    }
  }

  /** Submitting a command to node A and letting node B take the next message
      from A, when B has taken everything A sent before: A handles the
      command, and B handles it stamped with A's clock plus one. */
  lemma ReplicateToB(c: Cluster, cmd: Command)
    requires c.a.running && c.b.running && cmd.kind != Terminate
    requires c.takenByB == |c.a.outbox|
    ensures Exec(c, [Submit(A, cmd), Deliver(B)]) ==
      c.(a := HandleCommand(c.a, cmd), b := HandleMessage(c.b, Message(c.a.clock + 1, cmd)),
         takenByB := c.takenByB + 1)
  {
    var xs := [Submit(A, cmd), Deliver(B)];
    var c1 := Act(c, Submit(A, cmd));
    assert c1 == c.(a := HandleCommand(c.a, cmd));
    assert c1.a.outbox[c.takenByB] == Message(c.a.clock + 1, cmd);
    assert Exec(c, xs) == Exec(c1, xs[1..]);
    assert Exec(c1, xs[1..]) == Act(c1, Deliver(B));
  }

  /** The same with the roles of the two nodes exchanged. */
  lemma ReplicateToA(c: Cluster, cmd: Command)
    requires c.a.running && c.b.running && cmd.kind != Terminate
    requires c.takenByA == |c.b.outbox|
    ensures Exec(c, [Submit(B, cmd), Deliver(A)]) ==
      c.(b := HandleCommand(c.b, cmd), a := HandleMessage(c.a, Message(c.b.clock + 1, cmd)),
         takenByA := c.takenByA + 1)
  {
    var xs := [Submit(B, cmd), Deliver(A)];
    var c1 := Act(c, Submit(B, cmd));
    assert c1 == c.(b := HandleCommand(c.b, cmd));
    assert c1.b.outbox[c.takenByA] == Message(c.b.clock + 1, cmd);
    assert Exec(c, xs) == Exec(c1, xs[1..]);
    assert Exec(c1, xs[1..]) == Act(c1, Deliver(A));
  }

  const Add5: Command := Command(Add, 5)
  const Mul3: Command := Command(Multiply, 3)
  const Stop: Command := Command(Terminate, 0)

  /** The driver's schedule: "add 5" then "multiply 3" to node A, then
      "multiply 3" then "add 5" to node B, each replica message taken by the
      peer before the next command, then "terminate" to both. */
  const ToA: seq<Action> := [Submit(A, Add5), Deliver(B), Submit(A, Mul3), Deliver(B)]
  const ToB: seq<Action> := [Submit(B, Mul3), Deliver(A), Submit(B, Add5), Deliver(A)]
  const StopBoth: seq<Action> := [Submit(A, Stop), Submit(B, Stop)]
  const MainSchedule: seq<Action> := ToA + ToB + StopBoth

  /** The cluster once node A's two commands have reached node B. */
  const AfterToA: Cluster :=
    Cluster(Node(4, [ClockCommand(Add5, 0), ClockCommand(Mul3, 2)], [Message(1, Add5), Message(3, Mul3)], true),
            Node(5, [ClockCommand(Add5, 2), ClockCommand(Mul3, 4)], [], true),
            0, 2)

  /** The cluster once node B's two commands have reached node A. */
  const AfterToB: Cluster :=
    Cluster(Node(10, [ClockCommand(Add5, 0), ClockCommand(Mul3, 2), ClockCommand(Mul3, 7), ClockCommand(Add5, 9)],
                 [Message(1, Add5), Message(3, Mul3)], true),
            Node(9, [ClockCommand(Add5, 2), ClockCommand(Mul3, 4), ClockCommand(Mul3, 5), ClockCommand(Add5, 7)],
                 [Message(6, Mul3), Message(8, Add5)], true),
            2, 2)

  /** The cluster once node A's first command has reached node B. */
  const AfterAdd5: Cluster :=
    Cluster(Node(2, [ClockCommand(Add5, 0)], [Message(1, Add5)], true),
            Node(3, [ClockCommand(Add5, 2)], [], true),
            0, 1)

  /** The first phase: node A runs "add 5" and node B takes the replica. */
  lemma Add5ReachesB()
    ensures Exec(Start, [Submit(A, Add5), Deliver(B)]) == AfterAdd5
  {
    KindsDistinct();
    ReplicateToB(Start, Add5);
  }

  /** Node A runs its two commands, node B taking each replica in turn. */
  lemma ToAReachesB()
    ensures Exec(Start, ToA) == AfterToA
  {
    KindsDistinct();
    var p1, p2 := [Submit(A, Add5), Deliver(B)], [Submit(A, Mul3), Deliver(B)];
    assert ToA == p1 + p2;
    ExecAppend(Start, p1, p2);
    Add5ReachesB();
    ReplicateToB(AfterAdd5, Mul3);
    assert AfterAdd5.a.queue + [ClockCommand(Mul3, 2)] == AfterToA.a.queue;
    assert AfterAdd5.a.outbox + [Message(3, Mul3)] == AfterToA.a.outbox;
    assert AfterAdd5.b.queue + [ClockCommand(Mul3, 4)] == AfterToA.b.queue;
  }

  /** The cluster once node B's first command has reached node A. */
  const AfterMul3: Cluster :=
    Cluster(Node(8, [ClockCommand(Add5, 0), ClockCommand(Mul3, 2), ClockCommand(Mul3, 7)],
                 [Message(1, Add5), Message(3, Mul3)], true),
            Node(7, [ClockCommand(Add5, 2), ClockCommand(Mul3, 4), ClockCommand(Mul3, 5)],
                 [Message(6, Mul3)], true),
            1, 2)

  /** Node B runs "multiply 3" and node A takes the replica. */
  lemma Mul3ReachesA()
    ensures Exec(AfterToA, [Submit(B, Mul3), Deliver(A)]) == AfterMul3
  {
    KindsDistinct();
    ReplicateToA(AfterToA, Mul3);
    assert AfterToA.b.queue + [ClockCommand(Mul3, 5)] == AfterMul3.b.queue;
    assert AfterToA.a.queue + [ClockCommand(Mul3, 7)] == AfterMul3.a.queue;
  }

  /** Node B runs its two commands, node A taking each replica in turn. */
  lemma ToBReachesA()
    ensures Exec(AfterToA, ToB) == AfterToB
  {
    KindsDistinct();
    var p3, p4 := [Submit(B, Mul3), Deliver(A)], [Submit(B, Add5), Deliver(A)];
    assert ToB == p3 + p4;
    ExecAppend(AfterToA, p3, p4);
    Mul3ReachesA();
    ReplicateToA(AfterMul3, Add5);
    assert AfterMul3.b.queue + [ClockCommand(Add5, 7)] == AfterToB.b.queue;
    assert AfterMul3.b.outbox + [Message(8, Add5)] == AfterToB.b.outbox;
    assert AfterMul3.a.queue + [ClockCommand(Add5, 9)] == AfterToB.a.queue;
  }

  /** The queues the driver's schedule leaves behind: node A logs add 5,
      multiply 3, multiply 3, add 5 at clocks 0, 2, 7, 9 and node B at
      clocks 2, 4, 5, 7, and both nodes have stopped. */
  lemma MainScheduleQueues()
    ensures
      var end := Exec(Start, MainSchedule);
      && !end.a.running && !end.b.running
      && end.a.queue == [ClockCommand(Add5, 0), ClockCommand(Mul3, 2), ClockCommand(Mul3, 7), ClockCommand(Add5, 9)]
      && end.b.queue == [ClockCommand(Add5, 2), ClockCommand(Mul3, 4), ClockCommand(Mul3, 5), ClockCommand(Add5, 7)]
  {
    ExecAppend(Start, ToA + ToB, StopBoth);
    ExecAppend(Start, ToA, ToB);
    ToAReachesB();
    ToBReachesA();
    KindsDistinct();
    var s1 := Act(AfterToB, StopBoth[0]);
    var s2 := Act(s1, StopBoth[1]);
    assert Exec(AfterToB, StopBoth) == Exec(s1, StopBoth[1..]) == Exec(s2, []);
  }

  /** Under the driver's schedule both nodes stop, both queues come out of
      the finalizer unchanged, and both finalize from 10 to 35. This is one
      checked run, not a general convergence claim. */
  lemma MainTrace()
    ensures
      var end := Exec(Start, MainSchedule);
      && Finalize(end.a.queue, 10) == (end.a.queue, 35)
      && Finalize(end.b.queue, 10) == (end.b.queue, 35)
  {
    MainScheduleQueues();
    var end := Exec(Start, MainSchedule);
    WorkedExample(end.a.queue, 0, 2, 7, 9);
    WorkedExample(end.b.queue, 2, 4, 5, 7);
  }
}
