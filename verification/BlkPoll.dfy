/**
 * Polling for block responses, where completion callbacks may poll again.
 *
 * Responses have increasing indices.  The backend pushes responses and then looks
 * whether the frontend asked for an event; both may happen between any two accesses
 * of the frontend to the ring.  A callback is a list of things that happen while it
 * runs: the backend moves on, or the poll is entered again, from where further
 * callbacks may run, to any depth.
 */
module BlkPoll {
  /** The backend pushes responses, or looks whether to send the event for the last push. */
  datatype Move = Push(count: nat) | Look

  datatype Act = Backend(move: Move) | Poll

  class Ring {
    /** Responses that will ever arrive. */
    const total: nat
    /** What the callback of each response does. */
    const callback: nat -> seq<Act>

    var rspProd: nat
    var rspCons: nat
    /** The index whose response is to be announced by an event. */
    var rspEvent: nat
    /** The backend has pushed, from `pushedFrom` on, and not looked at rsp_event yet. */
    var pushed: bool
    var pushedFrom: nat
    /** An event was sent since rsp_event was last set. */
    var alerted: bool
    /** What the backend does at each of the next moments. */
    var script: seq<seq<Move>>
    /** Indices whose responses were processed, in the order in which that happened. */
    ghost var processed: seq<nat>

    ghost predicate Valid()
      reads this
    {
      rspCons <= rspProd <= total && processed == Upto(rspCons)
    }

    /** An event was sent, or the backend is about to send it. */
    ghost predicate Alert()
      reads this
    {
      alerted || (pushed && pushedFrom < rspEvent <= rspProd)
    }

    /** Responses that are not announced yet will be. */
    ghost predicate Armed()
      reads this
    {
      rspProd < rspEvent || Alert()
    }

    method Step(move: Move)
      requires Valid()
      modifies this`rspProd, this`pushed, this`pushedFrom, this`alerted
      ensures Valid() && old(rspProd) <= rspProd && (old(Armed()) ==> Armed())
    {
      match move {
        case Push(count) =>
          if !pushed {
            pushed, pushedFrom := true, rspProd;
            rspProd := if rspProd + count <= total then rspProd + count else total;
          }
        case Look =>
          if pushed && pushedFrom < rspEvent <= rspProd {
            alerted := true;
          }
          pushed := false;
      }
    }

    /** What the backend does at this moment. */
    method Meanwhile()
      requires Valid()
      modifies this`rspProd, this`pushed, this`pushedFrom, this`alerted, this`script
      ensures Valid() && old(rspProd) <= rspProd && (old(Armed()) ==> Armed())
    {
      if script == [] {
        return;
      }
      var moves, k := script[0], 0;
      script := script[1..];
      while k < |moves|
        invariant k <= |moves| && Valid() && old(rspProd) <= rspProd && (old(Armed()) ==> Armed())
        invariant rspCons == old(rspCons)
      {
        Step(moves[k]);
        k := k + 1;
      }
    }

    /** Run the callback of response `i`. */
    method RunCallback(i: nat)
      requires Valid()
      modifies this
      ensures Valid() && old(rspCons) <= rspCons && old(rspProd) <= rspProd
      decreases total - rspCons, 2
    {
      var acts, k := callback(i), 0;
      while k < |acts|
        invariant k <= |acts| && Valid() && old(rspCons) <= rspCons && old(rspProd) <= rspProd
      {
        match acts[k] {
          case Backend(move) => Step(move);
          case Poll => var n := AioPoll();
        }
        k := k + 1;
      }
    }

    /** One pass: process responses up to what was there at the start, stop when a callback went further. */
    method Pass() returns (consumed: nat)
      requires Valid()
      modifies this
      ensures Valid() && old(rspCons) <= rspCons && old(rspProd) <= rspProd
      ensures old(rspCons) + consumed <= rspCons
      ensures old(rspCons) < old(rspProd) ==> old(rspCons) < rspCons
      decreases total - rspCons, 0
    {
      Meanwhile();
      var rp := rspProd;
      Meanwhile();
      var cons := rspCons;
      consumed := 0;
      while cons != rp
        invariant Valid() && old(rspCons) <= cons <= rp && rspCons == cons
        invariant old(rspProd) <= rp <= rspProd && cons == old(rspCons) + consumed
        decreases rp - cons
      {
        Meanwhile();
        consumed := consumed + 1;
        processed := processed + [cons];
        cons := cons + 1;
        rspCons := cons;
        RunCallback(cons - 1);
        if rspCons != cons {
          break;
        }
      }
    }

    /** The final check: ask for an event and look once more, unless there are responses anyway. */
    method FinalCheck() returns (more: bool)
      requires Valid()
      modifies this`rspProd, this`rspEvent, this`pushed, this`pushedFrom, this`alerted, this`script
      ensures Valid() && old(rspProd) <= rspProd
      ensures if more then rspCons < rspProd else old(rspProd) <= rspCons && rspEvent == rspCons + 1 && Armed()
    {
      more := rspCons != rspProd;
      Meanwhile();
      if more {
        return;
      }
      rspEvent, alerted := rspCons + 1, false;
      Meanwhile();
      more := rspCons != rspProd;
      Meanwhile();
    }

    /**
     * The poll: each response is processed once and in order, and rsp_cons does not
     * move backwards, however callbacks have re-entered the poll.  Afterwards no
     * response is unread, unless it came after the last look at the ring, and then
     * an event announces it.  The result counts what this activation's last pass took.
     */
    method AioPoll() returns (consumed: nat)
      requires Valid()
      modifies this
      ensures Valid() && old(rspCons) <= old(rspProd) <= rspCons <= rspProd
      ensures processed == Upto(rspCons) && (rspCons == rspProd || Alert())
      decreases total - rspCons, 1
    {
      consumed := 0;
      var more := true;
      ghost var begun := false;
      while more
        invariant Valid() && old(rspCons) <= rspCons && old(rspProd) <= rspProd
        invariant begun && more ==> rspCons < rspProd
        invariant !more ==> old(rspProd) <= rspCons && rspEvent == rspCons + 1 && Armed()
        decreases total - rspCons, !begun
      {
        consumed := Pass();
        more := FinalCheck();
        begun := true;
      }
    }
  }

  /** 0, 1, 2 and so on below `n`. */
  function Upto(n: nat): (s: seq<nat>)
    ensures |s| == n && forall i: nat | i < n :: s[i] == i
  {
    seq(n, i requires 0 <= i < n => i)
  }
}
