// One select of the replace-the-oldest enqueue that enqueuePeer and
// enqueueClipboard perform on a channel of capacity 1.
module Channel {

  datatype Stage = Offer | Evict | Deliver

  datatype Progress = Done | Reached(stage: Stage)

  /** One select of a producer holding `x`. */
  function PutSelect<T>(stage: Stage, x: T, slot: seq<T>): (Progress, seq<T>)
    requires stage == Deliver ==> slot == []
  {
    match stage
    case Offer => if slot == [] then (Done, [x]) else (Reached(Evict), slot)
    case Evict => (Reached(Deliver), [])
    case Deliver => (Done, [x])
  }

  /** A producer alone with the consumer is done at once when the queue is empty, and
      otherwise with its third select; either way the queue then holds its value only,
      whether or not the consumer took the old one in between. */
  lemma PutTakesThreeSelects<T>(x: T, queued: T, taken: bool)
    ensures PutSelect(Offer, x, []) == (Done, [x])
    ensures var a := PutSelect(Offer, x, [queued]);
      && a.0.Reached? && a.0.stage != Deliver && a.1 == [queued]
      && var b := PutSelect(a.0.stage, x, if taken then [] else [queued]);
      && b.0 == Reached(Deliver) && b.1 == []
      && PutSelect(Deliver, x, b.1) == (Done, [x])
  {
  }
}
