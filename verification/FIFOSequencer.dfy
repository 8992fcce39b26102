/** `FIFOSequencer`: a fixed buffer sorted in place and published as far as the queue takes it. */
module FIFOSequencers {
  import opened Types
  import opened SequencerSpec
  import opened LFQueues
  import opened Cursors

  function Requests(s: seq<Timed>): seq<Request> {
    if s == [] then [] else Requests(s[..|s| - 1]) + [s[|s| - 1].request]
  }

  class FIFOSequencer {
    const incoming: LFQueue<Request>
    const buffer: array<Timed>
    var size: nat

    ghost predicate Valid()
      reads this, buffer, incoming, incoming.store
    {
      && size <= buffer.Length == ME_MAX_PENDING_REQUESTS
      && incoming.Valid()
    }

    ghost function Pending(): seq<Timed>
      reads this, buffer
      requires size <= buffer.Length
    {
      buffer[..size]
    }

    constructor (queue: LFQueue<Request>)
      requires queue.Valid()
      ensures Valid() && incoming == queue && Pending() == [] && fresh(buffer)
    {
      incoming := queue;
      var none := Timed(0, Request(NoRequest, 0, 0, 0, Invalid, 0, 0));
      buffer := new Timed[ME_MAX_PENDING_REQUESTS](i => none);
      size := 0;
    }

    method AddClientRequest(time: int, q: Request) returns (ok: bool)
      requires Valid()
      modifies this, buffer
      ensures Valid() && ok == (|old(Pending())| < ME_MAX_PENDING_REQUESTS)
      ensures Pending() == if ok then old(Pending()) + [Timed(time, q)] else old(Pending())
    {
      if size >= buffer.Length {
        return false;
      }
      buffer[size] := Timed(time, q);
      size := size + 1;
      ok := true;
    }

    /** The library's stable sort of the live part of the buffer. */
    method SortLive()
      requires Valid()
      modifies buffer
      ensures Valid() && Pending() == SortStable(old(Pending()))
    {
      if size <= 1 {
        return;
      }
      var sorted := SortStable(buffer[..size]);
      forall i | 0 <= i < size { buffer[i] := sorted[i]; }
    }

    /** Moves what was not published to the front of the buffer. */
    method Shift(i: nat)
      requires Valid() && i <= size
      modifies `size, buffer
      ensures Valid() && Pending() == old(Pending())[i..]
    {
      hide LFQueue.Valid;
      var kept := buffer[i..size];
      forall j | 0 <= j < |kept| { buffer[j] := kept[j]; }
      size := size - i;
    }

    /** Pushes what waits, from the front, until the queue is full. */
    method Publish() returns (i: nat)
      requires Valid()
      modifies incoming, incoming.store
      ensures Valid() && i == Min(incoming.store.Length - |old(incoming.Contents())|, |Pending()|)
      ensures incoming.Contents() == old(incoming.Contents()) + Requests(Pending()[..i])
    {
      hide Requests, LFQueue.SlotHolds, Cursor;
      ghost var all, start := Pending(), incoming.Contents();
      i := 0;
      NoRequests(all);
      assert start + [] == start;
      while i < size
        invariant i <= size == |all| && Valid() && buffer[..size] == all
        invariant incoming.Contents() == start + Requests(all[..i]) && |incoming.Contents()| == |start| + i <= incoming.store.Length
      {
        var pushed := incoming.TryPush(buffer[i].request);
        if !pushed {
          return;
        }
        OneMoreRequest(start, all, i);
        i := i + 1;
      }
    }

    /** Publishes in time order until the queue is full; exactly the unpublished rest keeps waiting. */
    method SequenceAndPublish()
      requires Valid()
      modifies this, buffer, incoming, incoming.store
      ensures Valid()
      ensures var sorted := SortStable(old(Pending()));
              var k := Min(incoming.store.Length - |old(incoming.Contents())|, |sorted|);
              && incoming.Contents() == old(incoming.Contents()) + Requests(sorted[..k])
              && Pending() == sorted[k..]
    {
      hide SortStable, Requests, LFQueue.SlotHolds, Cursor;
      ghost var start := incoming.Contents();
      SortLive();
      ghost var sorted := Pending();
      assert incoming.Contents() == start;
      var published := Publish();
      ghost var now := incoming.Contents();
      assert now == start + Requests(sorted[..published]) && Pending() == sorted;
      Shift(published);
      assert incoming.Contents() == now;
    }
  }

  lemma NoRequests(s: seq<Timed>)
    ensures Requests(s[..0]) == []
  {
  }

  lemma OneMoreRequest(start: seq<Request>, s: seq<Timed>, i: nat)
    requires i < |s|
    ensures start + Requests(s[..i + 1]) == start + Requests(s[..i]) + [s[i].request]
  {
    assert s[..i + 1][..i] == s[..i];
  }
}
