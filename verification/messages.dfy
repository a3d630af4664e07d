/**
 The values exchanged by a replica node: the commands it is asked to run,
 the timestamped entries of its queue, the messages it sends to its peer,
 and the two kinds of event its loop reacts to.
 */
module Messages {

  /** A command: its kind is a free-form string ("add", "multiply",
      "terminate" or anything else) and its value an unbounded integer. */
  datatype Command = Command(kind: string, value: int)

  /** A queue entry: a command together with the logical clock it was logged at. */
  datatype ClockCommand = ClockCommand(command: Command, clock: int)

  /** The wire form sent from one node to its peer: the sender's clock and the command. */
  datatype Message = Message(clock: int, command: Command)

  /** One event handled by the loop: a command submitted to this node, or a
      message replicated from the peer. */
  datatype Event = Local(cmd: Command) | Remote(msg: Message)

  const Terminate: string := "terminate"
  const Add: string := "add"
  const Multiply: string := "multiply"

  /** The three kinds the program tests for are different strings. */
  lemma KindsDistinct()
    ensures Add != Multiply && Add != Terminate && Multiply != Terminate
  {
  }

  /** The only command that stops the loop is one whose kind is "terminate";
      its value plays no part. */
  predicate IsTerminate(e: Event) {
    e.Local? && e.cmd.kind == Terminate
  }

  /** The command an event carries, whichever way it arrived. */
  function Payload(e: Event): Command {
    match e
    case Local(c) => c
    case Remote(m) => m.command
  }

  /** Queue entries ordered by clock, ties allowed: the order the finalizer sorts into. */
  predicate SortedByClock(q: seq<ClockCommand>) {
    forall i, j :: 0 <= i < j < |q| ==> q[i].clock <= q[j].clock
  }

  /** Queue entries whose clocks strictly increase with their position. */
  predicate StrictlyIncreasing(q: seq<ClockCommand>) {
    forall i, j :: 0 <= i < j < |q| ==> q[i].clock < q[j].clock
  }
}
