/**
 A connection's outbound side (internal/server/client.go): a bounded queue that
 never blocks a sender, emptied by the write loop.
 */
module Outbound {
  import opened Options

  /**
   dropped: bytes turned away and not reported yet; failed: a write has failed,
   and the rest of the queue is only drained. lost and warned, the bytes turned
   away and reported so far, are kept for the specification.
   */
  datatype Losses = Losses(dropped: nat, failed: bool, lost: nat, warned: nat)

  class Client<M> {
    const id: nat
    const cap: nat
    const sizeOf: M -> nat
    var queue: seq<M>
    var losses: Losses
    var behind: bool
    var behindSince: bool
    var closed: bool

    // What the write loop has taken, the accepted frames of the region being followed, and how many were turned away.
    ghost var wire: seq<M>
    ghost var followed: seq<M>
    ghost var refused: nat

    /** The queue is bounded, and every byte turned away has been reported or still will be. */
    ghost predicate Valid()
      reads this
    {
      |queue| <= cap && losses.warned + losses.dropped == losses.lost
    }

    /** Everything the queue ever took, in order. */
    ghost function Accepted(): seq<M>
      reads this
    {
      wire + queue
    }

    constructor (id: nat, cap: nat, sizeOf: M -> nat)
      ensures Valid() && this.id == id && this.cap == cap && this.sizeOf == sizeOf
      ensures Accepted() == followed == [] && !behind && !closed && refused == 0
    {
      this.id, this.cap, this.sizeOf := id, cap, sizeOf;
      queue, wire, followed := [], [], [];
      losses, refused := Losses(0, false, 0, 0), 0;
      behind, behindSince, closed := false, false, false;
    }

    /** Never blocks: a full queue drops the frame and counts its bytes. */
    method SendFrame(m: M) returns (sent: bool)
      requires Valid()
      modifies this`queue, this`losses
      ensures Valid() && sent == (|old(queue)| < cap)
      ensures Accepted() == if sent then old(Accepted()) + [m] else old(Accepted())
      ensures losses.failed == old(losses.failed) && losses.warned == old(losses.warned)
      ensures losses.lost == old(losses.lost) + if sent then 0 else sizeOf(m)
    {
      if |queue| < cap {
        queue := queue + [m];
        assert wire + queue == (wire + old(queue)) + [m];
        return true;
      } else {
        var size := sizeOf(m);
        losses := losses.(dropped := losses.dropped + size, lost := losses.lost + size);
        return false;
      }
    }

    method WriteChHasRoom() returns (room: bool)
      ensures room == (|queue| < cap)
    {
      room := |queue| < cap;
    }

    /**
     One turn of the write loop: the oldest queued frame goes out, after one
     warning for all the bytes dropped since the last; nothing is reordered or
     invented. Once a write has failed the queue is only drained.
     */
    method WriteOne(fails: bool) returns (warning: Option<nat>)
      requires Valid()
      modifies this`queue, this`wire, this`losses
      ensures Valid() && Accepted() == old(Accepted()) && losses.lost == old(losses.lost)
      ensures old(queue) != [] ==> queue == old(queue)[1..]
      ensures losses.failed == (old(losses.failed) || (old(queue) != [] && fails))
      ensures losses.warned == old(losses.warned) + if warning.Some? then warning.value else 0
      ensures old(queue) == [] || old(losses.failed) ==> warning == None
      ensures old(queue) != [] && !old(losses.failed) ==> losses.dropped == 0
    {
      warning := None;
      if |queue| > 0 {
        if !losses.failed {
          if losses.dropped > 0 {
            warning := Some(losses.dropped);
            losses := losses.(dropped := 0, warned := losses.warned + losses.dropped);
          }
          losses := losses.(failed := fails);
        }
        wire := wire + [queue[0]];
        queue := queue[1..];
        assert wire + queue == old(wire) + ([old(queue)[0]] + old(queue)[1..]);
      }
    }

    method Close()
      modifies this`closed
      ensures closed
    {
      closed := true;
    }
  }
}
