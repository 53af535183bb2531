/** One queue with its consumer: the loop that both the task worker and the session dispatcher run. */
module Lanes {

  /** How the handling of one item ends: normally, with an exception the loop logs and
      survives, or with a cancellation that ends the loop. */
  datatype Ending = Finished | Raised | Cancelled

  datatype Consumer<T> = Absent | Idle | Busy(item: T) | Ended

  datatype Lane<T> = Lane(queue: seq<T>, consumer: Consumer<T>)

  /** The consumer takes the oldest item; it waits when there is none. */
  function Take<T>(lane: Lane<T>): Lane<T> {
    if lane.consumer.Idle? && lane.queue != [] then Lane(lane.queue[1..], Busy(lane.queue[0])) else lane
  }

  function Finish<T>(lane: Lane<T>, ending: Ending): Lane<T> {
    if lane.consumer.Busy? then Lane(lane.queue, if ending.Cancelled? then Ended else Idle) else lane
  }

  function InFlight<T>(lane: Lane<T>): seq<T> {
    if lane.consumer.Busy? then [lane.consumer.item] else []
  }

  function Pending<T>(lane: Lane<T>): seq<T> { InFlight(lane) + lane.queue }

  function Push<T>(lane: Lane<T>, item: T): Lane<T> { Lane(lane.queue + [item], lane.consumer) }

  lemma TakeKeepsPending<T>(lane: Lane<T>)
    ensures Pending(Take(lane)) == Pending(lane)
  {}

  lemma FinishDropsInFlight<T>(lane: Lane<T>, ending: Ending)
    ensures Pending(lane) == InFlight(lane) + Pending(Finish(lane, ending))
  {}

  lemma PushAddsLast<T>(lane: Lane<T>, item: T)
    ensures Pending(Push(lane, item)) == Pending(lane) + [item]
  {}
}
