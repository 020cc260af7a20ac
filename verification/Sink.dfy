/** The recorder's queue between its producers and its writer thread, each step atomic under the lock:
    `src/tape/recorder/writer.py`. */
module Sink {
  import opened Prelude

  const CONTROL_SLOTS: nat := 4

  /** A record put, a notice of refusals, or a marker. */
  datatype Item = Record(id: Key) | Notice(dropped: nat) | Rotate | Wake

  /** The records that entered, in order. */
  function Records(s: seq<Item>): seq<Key> {
    if s == [] then [] else Records(s[..|s| - 1]) + (if s[|s| - 1].Record? then [s[|s| - 1].id] else [])
  }

  function Reported(s: seq<Item>): nat {
    if s == [] then 0 else Reported(s[..|s| - 1]) + (if s[|s| - 1].Notice? then s[|s| - 1].dropped else 0)
  }

  /** A rotation stands after the first `n` records and before any other. */
  ghost predicate RotatesAfter(s: seq<Item>, n: nat) {
    exists i :: 0 <= i < |s| && s[i].Rotate? && |Records(s[..i])| == n
  }

  ghost predicate AskedAfter(asked: seq<nat>, n: nat) {
    exists i :: 0 <= i < |asked| && asked[i] == n
  }

  lemma Snoc(s: seq<Item>, x: Item)
    ensures Records(s + [x]) == Records(s) + (if x.Record? then [x.id] else [])
    ensures Reported(s + [x]) == Reported(s) + (if x.Notice? then x.dropped else 0)
  {
    assert (s + [x])[..|s|] == s;
  }

  lemma RotatesSnoc(s: seq<Item>, x: Item, n: nat)
    ensures RotatesAfter(s + [x], n) <==> RotatesAfter(s, n) || (x.Rotate? && n == |Records(s)|)
  {
    var t := s + [x];
    assert t[..|s|] == s;
    if RotatesAfter(s, n) {
      var i :| 0 <= i < |s| && s[i].Rotate? && |Records(s[..i])| == n;
      assert t[i] == s[i] && t[..i] == s[..i];
    }
    if i :| 0 <= i < |t| && t[i].Rotate? && |Records(t[..i])| == n {
      assert i < |s| ==> t[i] == s[i] && t[..i] == s[..i];
    }
    if x.Rotate? && n == |Records(s)| { assert t[|s|] == x; }
  }

  lemma AskedSnoc(asked: seq<nat>, m: nat, n: nat)
    ensures AskedAfter(asked + [m], n) <==> AskedAfter(asked, n) || m == n
  {
    var t := asked + [m];
    if i :| 0 <= i < |asked| && asked[i] == n { assert t[i] == n; }
    if m == n { assert t[|asked|] == n; }
  }

  class SegmentSink {
    const maxRecords: nat
    var queue: seq<Item>
    var closed: bool
    var refused: nat
    var unreported: nat
    var rotatePending: bool
    var lastQueuedRotate: bool

    /** Everything ever queued; what has left is the part before `queue`. */
    ghost var stream: seq<Item>
    ghost var taken: nat
    /** What was asked: the records accepted, after how many of them each rotation, and the queue-full refusals. */
    ghost var accepted: seq<Key>
    ghost var asked: seq<nat>
    ghost var full: nat

    /** Accepted records stay in order; a rotation stands between records, or waits for the next one, exactly
        where one was asked for; and refusals are reported or still to be reported. */
    ghost predicate Holds()
      reads this
    {
      && taken <= |stream| && queue == stream[taken..] && Records(stream) == accepted
      && Reported(stream) + unreported == full && full <= refused
      && (forall n: nat :: AskedAfter(asked, n) <==> RotatesAfter(stream, n) || (rotatePending && n == |accepted|))
      && (lastQueuedRotate ==> RotatesAfter(stream, |accepted|))
    }

    /** And the queue never outgrows its bound; once closed, nothing is left unreported. */
    ghost predicate Valid()
      reads this
    {
      && maxRecords > 0 && Holds()
      && |queue| <= maxRecords + (if closed then 4 else 2) && (closed ==> unreported == 0)
    }

    constructor (maxRecords: nat)
      requires maxRecords > 0
      ensures Valid() && !closed && accepted == [] && asked == [] && full == 0
    {
      this.maxRecords, queue, closed, refused, unreported, rotatePending, lastQueuedRotate := maxRecords, [], false, 0,
          0, false, false;
      stream, taken, accepted, asked, full := [], 0, [], [], 0;
    }

    /** `put_nowait`, where it cannot fail. */
    method Enqueue(x: Item)
      requires taken <= |stream| && queue == stream[taken..] && |queue| < maxRecords + CONTROL_SLOTS
      modifies this`queue, this`stream
      ensures stream == old(stream) + [x] && queue == old(queue) + [x] && queue == stream[taken..]
    {
      queue, stream := queue + [x], stream + [x];
    }

    method Put(id: Key) returns (ok: bool)
      requires Valid()
      modifies this
      ensures Valid() && closed == old(closed)
      ensures ok == (!old(closed) && |old(queue)| < maxRecords)
      ensures accepted == if ok then old(accepted) + [id] else old(accepted)
      ensures asked == old(asked) && taken == old(taken) && old(stream) <= stream
      ensures full == old(full) + (if !ok && !closed then 1 else 0)
      ensures refused == old(refused) + (if ok then 0 else 1)
    {
      if closed {
        refused := refused + 1;
        return false;
      }
      if |queue| >= maxRecords {
        refused, unreported, full := refused + 1, unreported + 1, full + 1;
        return false;
      }
      QueueNotice();
      if rotatePending { QueuePendingRotation(); }
      QueueRecord(id);
      return true;
    }

    method QueueRecord(id: Key)
      requires Holds() && |queue| < maxRecords + CONTROL_SLOTS && !rotatePending
      modifies this`queue, this`stream, this`accepted, this`lastQueuedRotate
      ensures Holds() && accepted == old(accepted) + [id] && old(stream) <= stream && |queue| == |old(queue)| + 1
    {
      Snoc(stream, Record(id));
      forall n: nat
        ensures RotatesAfter(stream + [Record(id)], n) <==> RotatesAfter(stream, n)
      {
        RotatesSnoc(stream, Record(id), n);
      }
      Enqueue(Record(id));
      accepted := accepted + [id];
      lastQueuedRotate := false;
    }

    /** The report of refused records, if any. */
    method QueueNotice()
      requires Holds() && |queue| < maxRecords + CONTROL_SLOTS
      modifies this`queue, this`stream, this`unreported, this`lastQueuedRotate
      ensures Holds() && unreported == 0 && old(stream) <= stream && |queue| <= |old(queue)| + 1
    {
      if unreported == 0 { return; }
      var notice := Notice(unreported);
      Snoc(stream, notice);
      forall n: nat
        ensures RotatesAfter(stream + [notice], n) <==> RotatesAfter(stream, n)
      {
        RotatesSnoc(stream, notice, n);
      }
      unreported := 0;
      Enqueue(notice);
      lastQueuedRotate := false;
    }

    method QueuePendingRotation()
      requires Holds() && rotatePending && |queue| < maxRecords + CONTROL_SLOTS
      modifies this`queue, this`stream, this`rotatePending
      ensures Holds() && !rotatePending && old(stream) <= stream && |queue| == |old(queue)| + 1
    {
      Snoc(stream, Rotate);
      forall n: nat
        ensures RotatesAfter(stream + [Rotate], n) <==> RotatesAfter(stream, n) || n == |accepted|
      {
        RotatesSnoc(stream, Rotate, n);
      }
      rotatePending := false;
      Enqueue(Rotate);
    }

    method RequestRotation()
      requires Valid()
      modifies this
      ensures Valid() && closed == old(closed) && accepted == old(accepted) && full == old(full) && taken == old(taken)
              && old(stream) <= stream
      ensures asked == if closed then old(asked) else old(asked) + [|accepted|]
    {
      if closed { return; }
      forall n: nat
        ensures AskedAfter(asked + [|accepted|], n) <==> AskedAfter(asked, n) || n == |accepted|
      {
        AskedSnoc(asked, |accepted|, n);
      }
      if |queue| >= maxRecords {
        asked := asked + [|accepted|];
        rotatePending := true;
        return;
      }
      QueueNotice();
      if lastQueuedRotate {
        asked := asked + [|accepted|];
      } else {
        Snoc(stream, Rotate);
        forall n: nat
          ensures RotatesAfter(stream + [Rotate], n) <==> RotatesAfter(stream, n) || n == |accepted|
        {
          RotatesSnoc(stream, Rotate, n);
        }
        asked := asked + [|accepted|];
        Enqueue(Rotate);
        lastQueuedRotate := true;
      }
    }

    /** After closing nothing is left unreported: the queue is never too full for the notice. The wake-up
        alone may find it full, and is then not needed. */
    method Close()
      requires Valid()
      modifies this
      ensures Valid() && closed && Reported(stream) == full && queue != []
      ensures accepted == old(accepted) && asked == old(asked) && full == old(full) && taken == old(taken)
              && old(stream) <= stream
    {
      if !closed {
        closed := true;
        if unreported != 0 && |queue| < maxRecords + CONTROL_SLOTS { QueueNotice(); }
      }
      if |queue| < maxRecords + CONTROL_SLOTS { QueueWake(); }
    }

    method QueueWake()
      requires Holds() && |queue| < maxRecords + CONTROL_SLOTS
      modifies this`queue, this`stream
      ensures Holds() && old(stream) <= stream && |queue| == |old(queue)| + 1
    {
      Snoc(stream, Wake);
      forall n: nat
        ensures RotatesAfter(stream + [Wake], n) <==> RotatesAfter(stream, n)
      {
        RotatesSnoc(stream, Wake, n);
      }
      Enqueue(Wake);
    }

    /** The writer thread takes the oldest item. */
    method Get() returns (item: Option<Item>)
      requires Valid()
      modifies this`queue, this`taken
      ensures Valid() && stream == old(stream)
      ensures item == if old(queue) == [] then None else Some(old(queue)[0])
      ensures taken == old(taken) + (if item.Some? then 1 else 0)
      ensures item.Some? ==> item.value == stream[old(taken)]
    {
      if queue == [] { return None; }
      item := Some(queue[0]);
      assert stream[taken..][1..] == stream[taken + 1..];
      queue, taken := queue[1..], taken + 1;
    }
  }
}
