/** `MarketDataPublisher`: numbers the events of the matching engine, multicasts them and forwards them. */
module MarketDataPublishers {
  import opened Types
  import opened RecoverySpec
  import opened RecoveryProps
  import opened Protocol
  import opened SynthesizerSpec
  import opened LFQueues
  import opened Cursors

  /** The publisher's part in a state of the protocol: the next number, the stream's next events waiting, and
      what it has forwarded on its way to the synthesizer. */
  ghost predicate Mirrored(stream: seq<Event>, s: Sys, next: nat, waiting: seq<Event>, forwarded: seq<Update>) {
    && s.snapshotted <= s.numbered <= |stream| && next == s.numbered + 1
    && waiting <= stream[s.numbered..]
    && forwarded == Numbered(s.snapshotted + 1, stream[s.snapshotted..s.numbered], 0, 0, 0)
  }

  /** Sending the first event waiting is the protocol's step, and what is sent is the stream's own event. */
  lemma SendIsStep(stream: seq<Event>, s: Sys, next: nat, waiting: seq<Event>, forwarded: seq<Update>)
    requires Mirrored(stream, s, next, waiting, forwarded) && waiting != []
    ensures Enabled(stream, s, NumberEvent)
    ensures var u := Update(next, waiting[0], 0, 0, 0);
            && Mirrored(stream, Sent(s), next + 1, waiting[1..], forwarded + [u])
            && GenuineIncrement(World(stream, s.cycles), u)
  {
    assert waiting[0] == stream[s.numbered..][0];
    assert stream[s.snapshotted..s.numbered + 1] == stream[s.snapshotted..s.numbered] + [waiting[0]];
  }

  class MarketDataPublisher {
    const outgoing: LFQueue<Event>
    const snapshotUpdates: LFQueue<Update>
    var nextIncSeqNum: nat

    /** The frames sent on the incremental channel. */
    var multicast: seq<Update>

    ghost predicate Valid()
      reads this, outgoing, outgoing.store, snapshotUpdates, snapshotUpdates.store
    {
      && outgoing.Valid() && snapshotUpdates.Valid()
      && outgoing as object != snapshotUpdates as object
      && outgoing.store as object != snapshotUpdates.store as object
    }

    ghost predicate Mirrors(stream: seq<Event>, s: Sys)
      requires Valid()
      reads this, outgoing, outgoing.store, snapshotUpdates, snapshotUpdates.store
    {
      Mirrored(stream, s, nextIncSeqNum, outgoing.Contents(), snapshotUpdates.Contents())
    }

    constructor (outgoing: LFQueue<Event>, snapshotUpdates: LFQueue<Update>)
      requires outgoing.Valid() && snapshotUpdates.Valid()
      requires outgoing as object != snapshotUpdates as object
      requires outgoing.store as object != snapshotUpdates.store as object
      ensures Valid() && nextIncSeqNum == 1 && multicast == []
      ensures this.outgoing == outgoing && this.snapshotUpdates == snapshotUpdates
    {
      this.outgoing, this.snapshotUpdates := outgoing, snapshotUpdates;
      nextIncSeqNum, multicast := 1, [];
    }

    /** One event: sent, copied, popped, and handed to the synthesizer under the same number. The source stops
        when the synthesizer's queue is full. */
    method ForwardOne(ghost stream: seq<Event>, ghost s: Sys) returns (running: bool)
      requires Valid() && outgoing.Contents() != []
      modifies this, outgoing, snapshotUpdates, snapshotUpdates.store
      ensures running == (|old(snapshotUpdates.Contents())| < snapshotUpdates.store.Length)
      ensures var u := Update(old(nextIncSeqNum), old(outgoing.Contents())[0], 0, 0, 0);
              && multicast == old(multicast) + [u]
              && (running ==>
                    && Valid() && nextIncSeqNum == old(nextIncSeqNum) + 1
                    && outgoing.Contents() == old(outgoing.Contents())[1..]
                    && snapshotUpdates.Contents() == old(snapshotUpdates.Contents()) + [u])
      ensures running && old(Mirrors(stream, s)) ==> Enabled(stream, s, NumberEvent) && Mirrors(stream, Sent(s))
    {
      hide LFQueue.SlotHolds, Cursor, Mirrored, Enabled;
      if Mirrors(stream, s) {
        SendIsStep(stream, s, nextIncSeqNum, outgoing.Contents(), snapshotUpdates.Contents());
      }
      var event := outgoing.Peek();
      multicast := multicast + [Update(nextIncSeqNum, event.value, 0, 0, 0)];
      var copy := event.value;
      outgoing.Pop();
      running := snapshotUpdates.TryPush(Update(nextIncSeqNum, copy, 0, 0, 0));
      if running { nextIncSeqNum := nextIncSeqNum + 1; }
    }

    /** Drains the queue until it is empty or the multicast socket takes no more. */
    method Drain(sends: nat, ghost stream: seq<Event>, ghost s: Sys) returns (running: bool)
      requires Valid()
      modifies this, outgoing, snapshotUpdates, snapshotUpdates.store
      ensures var k := Min(sends, |old(outgoing.Contents())|);
              var frames := Numbered(old(nextIncSeqNum), old(outgoing.Contents())[..k], 0, 0, 0);
              && running == (|old(snapshotUpdates.Contents())| + k <= snapshotUpdates.store.Length)
              && (running ==>
                    && Valid() && nextIncSeqNum == old(nextIncSeqNum) + k
                    && outgoing.Contents() == old(outgoing.Contents())[k..]
                    && multicast == old(multicast) + frames
                    && snapshotUpdates.Contents() == old(snapshotUpdates.Contents()) + frames
                    && (old(Mirrors(stream, s)) ==> Mirrors(stream, s.(numbered := s.numbered + k))))
    {
      hide LFQueue.SlotHolds, Cursor, Numbered, Mirrored, Enabled;
      ghost var all, first := outgoing.Contents(), nextIncSeqNum;
      ghost var was := |snapshotUpdates.Contents()|;
      ghost var mirrors := Mirrors(stream, s);
      var sent := 0;
      var event := outgoing.Peek();
      NumberedNone(first, 0, 0, 0);
      while event.Some? && sent < sends
        invariant Valid() && sent <= Min(sends, |all|) && nextIncSeqNum == first + sent
        invariant outgoing.Contents() == all[sent..] && event.Some? == (sent < |all|)
        invariant multicast == old(multicast) + Numbered(first, all[..sent], 0, 0, 0)
        invariant snapshotUpdates.Contents() == old(snapshotUpdates.Contents()) + Numbered(first, all[..sent], 0, 0, 0)
        invariant |Numbered(first, all[..sent], 0, 0, 0)| == sent && was + sent <= snapshotUpdates.store.Length
        invariant mirrors ==> Mirrors(stream, s.(numbered := s.numbered + sent))
      {
        NumberedMore(first, all, sent);
        var forwarded := ForwardOne(stream, s.(numbered := s.numbered + sent));
        if !forwarded { return false; }
        sent := sent + 1;
        event := outgoing.Peek();
      }
      running := true;
    }
  }

  lemma NumberedMore(first: nat, all: seq<Event>, k: nat)
    requires k < |all|
    ensures Numbered(first, all[..k + 1], 0, 0, 0) == Numbered(first, all[..k], 0, 0, 0) + [Update(first + k, all[k], 0, 0, 0)]
    ensures |Numbered(first, all[..k + 1], 0, 0, 0)| == k + 1
  {
  }
}
