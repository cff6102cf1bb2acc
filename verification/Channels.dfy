/**
  Buffered Go channels as the hubs use them: non-blocking sends, receives, and a close.
*/
module Channels {

  /** A non-blocking send: an event that does not fit is not queued. */
  function Offer<E>(queue: seq<E>, event: E, capacity: nat): seq<E>
  {
    if |queue| < capacity then queue + [event] else queue
  }

  /** Sending to a closed channel and closing one twice are run-time panics in the program, so both
      are preconditions here. */
  class Channel<!E> {
    const capacity: nat
    var queue: seq<E>
    var closed: bool

    constructor (capacity: nat)
      ensures this.capacity == capacity && queue == [] && !closed
    {
      this.capacity := capacity;
      queue, closed := [], false;
    }

    /** `select { case channel <- event: ... default: ... }` */
    method TrySend(event: E) returns (sent: bool)
      requires !closed
      modifies this
      ensures queue == Offer(old(queue), event, capacity) && !closed
      ensures sent == (|old(queue)| < capacity)
    {
      sent := |queue| < capacity;
      if sent {
        queue := queue + [event];
      }
    }

    method Close()
      requires !closed
      modifies this
      ensures closed && queue == old(queue)
    {
      closed := true;
    }

    /** `event, ok := <-channel` on a channel with something queued; without, a closed channel yields
        no event (`ok` is false in the program). */
    method Receive() returns (event: E)
      requires queue != []
      modifies this
      ensures closed == old(closed) && old(queue) == [event] + queue
    {
      event := queue[0];
      queue := queue[1..];
    }
  }
}
