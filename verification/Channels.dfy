/** Bounded multi-producer channels as the program uses them: `try_send` only, and first in, first out. */
module Channels {
  datatype SendOutcome = Sent | Full | Closed

  /** `open` says that the receiving end still exists. */
  datatype Channel<T> = Channel(queue: seq<T>, open: bool, capacity: nat)

  function TrySendOutcome<T>(ch: Channel<T>): (outcome: SendOutcome)
    ensures outcome.Sent? <==> ch.open && |ch.queue| < ch.capacity
    ensures outcome.Closed? <==> !ch.open
  {
    if !ch.open then Closed else if |ch.queue| >= ch.capacity then Full else Sent
  }

  /** A full or closed channel turns the newest item away and keeps what it has. */
  function TrySend<T>(ch: Channel<T>, x: T): (after: Channel<T>)
    ensures after.open == ch.open && after.capacity == ch.capacity
    ensures ch.open && |ch.queue| < ch.capacity ==> after.queue == ch.queue + [x]
    ensures !ch.open || |ch.queue| >= ch.capacity ==> after.queue == ch.queue
  {
    if TrySendOutcome(ch).Sent? then ch.(queue := ch.queue + [x]) else ch
  }
}
