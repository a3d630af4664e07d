# Lamport-clock replica node, modelled in Dafny

This project models the per-node event-ordering engine of a two-replica
demonstration of Lamport logical clocks (`server` in
`normal_system/main.go`). Each node holds an integer state, a logical
clock, and a queue of `(command, clock)` entries. Commands are `add`,
`multiply` or `terminate`.

- A command submitted to a node is logged at the node's current clock. A
  message stamped one tick later is sent to the peer, and the clock ends two
  ticks ahead. A `terminate` command only stops the loop.
- A message from the peer moves the clock past the message's stamp (the
  Lamport receive rule). The command is logged at the new clock, the clock
  ticks once more, and nothing is forwarded.
- When the loop stops, the node sorts its queue by clock. It then folds over
  the queue with a per-command occurrence counter. A command's effect is
  applied to the state only when that command is seen for exactly the second
  time.

The model is functional. The node state `(clock, queue, outbox, running)` is
an immutable datatype. Each event is handled by a pure step function, and a
run is a fold of those steps over a sequence of events.

Files and modules:

- `messages.dfy` (`Messages`): `Command`, `ClockCommand`, `Message`, `Event`
  and the ordering predicates.
- `replica.dfy` (`Replica`): node state, the two event handlers, `Step`,
  `Run`, and the invariants of a run.
- `finalizer.dfy` (`Finalizer`): the sort by clock, the counting fold with an
  independent reference definition, and `Finalize`.
- `server.dfy` (`Server`): a whole node from start to output (`Serve`), plus
  the driver's fixed two-node schedule as a small cluster model and a checked
  trace.

The model follows the code on these points, where an idealised Lamport
replica would differ:

- The local log entry gets the clock as it was *before* the tick. It does not
  get the ticked value.
- After logging a remote message, the node ticks a second time.
- The sort is the library's unstable `sort.Slice`, not a stable sort. The
  model uses one concrete sorted order (an insertion sort). It proves that
  every sorted permutation of a queue with strictly increasing clocks is that
  queue itself. Every queue a node builds has strictly increasing clocks, so
  the tie-break never matters.
- Commands of an unknown kind are logged and replicated like any other
  command. They are not dropped. Only the fold ignores them.
- The source prints the final state and sends only the sorted queue on its
  output channel. `Serve` returns both.

## Model

| member | source | states |
|---|---|---|
| Replica.HandleCommand | normal_system/main.go:38-57 | `terminate` leaves clock, queue and outbox as they were and stops the loop. Any other command appends exactly `{cmd, c}` with the old clock `c`, sends exactly `{c+1, cmd}`, and leaves the clock at `c+2`. |
| Replica.HandleMessage | normal_system/main.go:58-71 | Appends exactly one entry, stamped `max(clock, msg.Clock) + 1`. That stamp exceeds both the old clock and the message's clock. The new clock is one past the stamp, nothing is sent, and the loop keeps running. |
| Replica.Step | normal_system/main.go:36-73 | A stopped loop consumes nothing. The clock never decreases and advances by at least two on every handled non-terminate event. `terminate` stops the loop without logging or sending. |
| Replica.Run | normal_system/main.go:36-73 | Over any event sequence, the clock never decreases, and the queue and the outbox only grow at the end (the old ones are prefixes). |
| Replica.HandleCommandKeepsValid | normal_system/main.go:47-55 | The local step keeps the ordering invariant: logged and sent stamps are below the clock and strictly increasing. |
| Replica.HandleMessageKeepsValid | normal_system/main.go:61-70 | The remote step keeps the same ordering invariant. |
| Replica.StepKeepsValid | normal_system/main.go:36-73 | Any single step keeps the ordering invariant. |
| Replica.RunKeepsValid | normal_system/main.go:47-70 | After any event sequence, every queue stamp is below the current clock, and queue stamps strictly increase in insertion order. The same holds for sent messages. |
| Replica.RunAdvancesClock | normal_system/main.go:50-70 | The clock advances by at least two per event handled before the stop: exactly two for a local command (lines 50 and 55), and at least two for a message (lines 61-65 and 70). |
| Replica.RunStopped | normal_system/main.go:36-44 | Once `terminate` has been handled, no further event changes the node. |
| Replica.RunStopsIffTerminate | normal_system/main.go:34-44 | The loop stops if and only if some event is a `terminate` command. |
| Replica.RunLogsActiveEvents | normal_system/main.go:47-48 | The queue grows by exactly the number of local and remote events handled before `terminate`. Entry `i` carries the command of the `i`-th handled event (also lines 66-67). |
| Replica.RunSendsActiveCommands | normal_system/main.go:53 | Exactly one message is sent per handled local command, carrying that command in order. Remote messages send nothing. |
| Finalizer.SortByClock | normal_system/main.go:76-78 | The result is a permutation of the queue (same multiset), ascending by clock. |
| Finalizer.SortedPermutationOfIncreasingIsIdentity | normal_system/main.go:76-78 | On a queue whose clocks strictly increase, every sorted permutation equals the queue. So the unstable sort is a no-op on every queue a node builds. |
| Finalizer.Effect | normal_system/main.go:89-93 | A command whose type is neither `multiply` nor `add` leaves the state unchanged. |
| Finalizer.Apply | normal_system/main.go:81-95 | The front-to-back fold with a counter map, started empty, equals an independent reference definition. In the reference, an entry's effect applies exactly when its command occurs exactly twice in the prefix ending at that entry. |
| Finalizer.ApplyAppend | normal_system/main.go:85-94 | Appending an entry changes the folded state only at its command's exactly-second occurrence. First, third and later occurrences leave the state unchanged. |
| Finalizer.NoRepeatLeavesStateUnchanged | normal_system/main.go:83-95 | A queue in which no command occurs twice leaves the state unchanged. |
| Finalizer.ArithmeticOnlyAgrees | normal_system/main.go:87-93 | Removing every entry whose type is not `add` or `multiply` does not change the final state. |
| Finalizer.Finalize | normal_system/main.go:75-95 | Returns a sorted permutation of the queue and the fold over it. A queue with strictly increasing clocks comes back unchanged and is folded as is. |
| Finalizer.WorkedExample | normal_system/main.go:75-95 | `[add5, mul3, mul3, add5]` at increasing clocks, starting from 10, finalizes to itself and 35. |
| Server.Serve | normal_system/main.go:28-99 | A node produces output if and only if its events contain `terminate`. Its log is its queue, unchanged by the sort. The log has one entry per handled event, carrying that event's command in order, and the state is the counting fold over the log. |
| Server.Act | normal_system/main.go:53-58 | One submission or one delivery over the in-order channels (also lines 102-111). Each node has taken at most as many messages as its peer sent, and this is kept. Sent messages are never withdrawn. At most one message is taken per action, and taking a message sends nothing. |
| Server.ActTakesOldest | normal_system/main.go:58-70 | A delivery takes the oldest message the peer sent that has not been taken yet, and handles it with the receive rule. |
| Server.Exec | normal_system/main.go:102-125 | Over any schedule, the channels never deliver an unsent message and never lose a sent one. No more messages are taken than there are actions. |
| Server.ReplicateToB | normal_system/main.go:53-67 | A command handled by node A reaches node B stamped with A's clock plus one. B then logs it under the receive rule. |
| Server.MainScheduleQueues | normal_system/main.go:113-125 | Under the driver's interleaving, A logs add5, mul3, mul3, add5 at clocks 0, 2, 7, 9. B logs them at 2, 4, 5, 7. Both nodes stop. |
| Server.MainTrace | normal_system/main.go:113-125 | Under the same interleaving, both nodes' queues come out of the finalizer unchanged and both final states are 35. |

## Left out

- Goroutines, channels, `select` and blocking: a node's handling of one event is a step, and an execution is a given event sequence. Channel capacity and back-pressure are not modelled. A node whose events never include `terminate` yields `Pending`, where the source blocks forever.
- The mutex around the node state: the state belongs to one actor, and the lock has no effect on the values computed.
- `fmt.Printf` tracing, and the `time.Sleep` orchestration in `main`, except that the interleaving `main` produces is checked as one concrete schedule.
- Go `int` overflow: integers are unbounded, both in the fold's `+=` and `*=` (main.go:90-92) and in the clock arithmetic (`clock++` at main.go:50, 55, 64 and 70, and `msg.Clock + 1` at main.go:62). In Go, a message stamped `math.MaxInt` would wrap the clock to `math.MinInt`. The entry would then be logged below the message's stamp, breaking the receive rule's "stamp > msg.Clock" (`Replica.HandleMessage`) and the strict increase of queue stamps (`Replica.RunKeepsValid`). No run of the two-node driver gets anywhere near 2^63.
- Finalizer.Finalize: on a queue with equal clocks the library sort may pick any tie order, and the fold result can depend on that order. The model fixes one order. Only queues with strictly increasing clocks are covered exactly. With unbounded clocks these are the only queues a node can build (`Replica.RunKeepsValid`). Under Go's wrap-around they would not be, as the overflow line above explains.
- General convergence of two nodes under every interleaving: the code neither enforces nor checks it. Only the driver's one schedule is proved.
- `anomaly_system/main.go`: the baseline without clocks. Its only logic is a per-command add/multiply fold, which adds nothing beyond `Finalizer.Effect`.
- Purity of the finalizer (same input gives the same output) is not stated as a lemma. It holds because `Finalize` is a Dafny function.
