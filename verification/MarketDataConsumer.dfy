/** `MarketDataConsumer`: the receiving thread's code, against the consumer steps of the protocol. */
module MarketDataConsumers {
  import opened Types
  import opened RecoverySpec
  import opened Protocol
  import opened MarketRecoveries
  import opened LFQueues
  import opened Cursors
  import opened MarketWire
  import Wire

  /** The generation counter that both threads of the client share. */
  class Generation {
    var value: nat

    constructor (value: nat)
      ensures this.value == value
    {
      this.value := value;
    }

    method FetchAdd() returns (before: nat)
      modifies this
      ensures before == old(value) && value == old(value) + 1
    {
      before := value;
      value := value + 1;
    }
  }

  class MarketDataConsumer {
    const recovery: MarketRecovery
    const output: LFQueue<Event>
    const generation: Generation
    var observedGeneration: nat
    var candidate: Option<seq<Event>>

    ghost predicate Valid()
      reads this, recovery, output, output.store
    {
      recovery.Valid() && output.Valid()
      && recovery as object != output as object && this as object != recovery && this as object != output
      && this as object != generation && recovery as object != generation && output as object != generation
      && (candidate.Some? ==> candidate.value != [])
    }

    /** A state of the whole system with this thread's part in it. */
    ghost function View(s: Sys): Sys
      reads this, recovery, output, output.store, generation
      requires output.Valid()
    {
      s.(consumer := Consumer(recovery.Contents(), observedGeneration, candidate),
         queue := output.Contents(), generation := generation.value)
    }

    /** Starts by opening a new generation. */
    constructor (recovery: MarketRecovery, output: LFQueue<Event>, generation: Generation)
      requires recovery.Valid() && output.Valid() && recovery as object != output as object
      requires recovery as object != generation && output as object != generation
      modifies generation
      ensures Valid() && this.recovery == recovery && this.output == output && this.generation == generation
      ensures observedGeneration == generation.value == old(generation.value) + 1 && candidate == None
    {
      this.recovery, this.output, this.generation := recovery, output, generation;
      candidate := None;
      new;
      var g := generation.FetchAdd();
      observedGeneration := g + 1;
    }

    method DoStale(ghost s: Sys)
      requires Valid() && View(s) == s
      modifies this, recovery, generation
      ensures Valid() && View(s) == Stale(s)
    {
      var g := generation.FetchAdd();
      observedGeneration := g + 1;
      recovery.DoRestart();
      candidate := None;
    }

    /** The top of the polling loop: the engine may have opened a new generation. */
    method Poll(ghost s: Sys)
      requires Valid() && View(s) == s
      modifies this, recovery
      ensures Valid()
      ensures View(s) == if s.generation != s.consumer.observed
                         then s.(consumer := Consumer(Restart(s.consumer.rec), s.generation, None)) else s
    {
      if generation.value != observedGeneration {
        observedGeneration := generation.value;
        recovery.DoRestart();
        candidate := None;
      }
    }

    /** Caches the frame and looks for a complete batch. */
    method DoIngestAndBuild(snapshot: bool, u: Update, ghost s: Sys)
      requires Valid() && View(s) == s && KeysOk(s.consumer.rec)
      modifies this, recovery
      ensures Valid() && View(s) == IngestAndBuild(s, snapshot, u, recovery.limit)
    {
      var stored := recovery.DoIngest(snapshot, u);
      var batch := recovery.DoBuild();
      candidate := match batch case None => None
                   case Some(b) => Some(b.events + [CommitMarker(b.watermark, observedGeneration)]);
    }

    /** `process` up to the point where a batch may be published. */
    method DoProcess(snapshot: bool, u: Update, ghost s: Sys)
      requires Valid() && View(s) == s && KeysOk(s.consumer.rec)
      modifies this, recovery, generation, output, output.store
      ensures Valid()
      ensures View(s) == Process(s, snapshot, u, |s.queue| >= output.store.Length, recovery.limit)
    {
      hide Ingest, Build, LFQueue.SlotHolds, Cursor;
      if recovery.recovering {
        DoIngestAndBuild(snapshot, u, s);
        return;
      }
      if snapshot {
        return;
      }
      var next := recovery.DoLiveCandidate(u);
      if next {
        var pushed := output.TryPush(u.event);
        if pushed {
          recovery.DoCommitLive();
          return;
        }
      } else if !recovery.recovering {
        return;
      }
      ghost var t := View(s);
      DoStale(t);
      DoIngestAndBuild(snapshot, u, Stale(t));
    }

    /** Tries to put the whole batch into the queue. */
    method DoPublishRecovery(ghost s: Sys)
      requires Valid() && View(s) == s
      modifies this, recovery, output, output.store
      ensures Valid()
      ensures View(s) == if s.consumer.candidate.Some? && |s.queue| + |s.consumer.candidate.value| <= output.store.Length
                         then PublishRecovery(s) else s
    {
      hide LFQueue.SlotHolds, Cursor;
      if candidate.None? {
        return;
      }
      var events := candidate.value;
      var pushed := output.TryPushBatch(events);
      if pushed {
        recovery.DoCommit(Batch([], events[|events| - 1].orderId));
        candidate := None;
      }
    }

    /** `process`: a batch that has just been completed is offered to the queue at once. */
    method DoProcessWhole(snapshot: bool, u: Update, ghost s: Sys)
      requires Valid() && View(s) == s && KeysOk(s.consumer.rec)
      modifies this, recovery, generation, output, output.store
      ensures Valid() && View(s) == ProcessWhole(s, snapshot, u, output.store.Length, recovery.limit)
    {
      hide Process, LFQueue.SlotHolds, Cursor;
      DoProcess(snapshot, u, s);
      ghost var t := View(s);
      if recovery.recovering {
        DoPublishRecovery(t);
      }
    }

    /** `receive`: the bytes of one datagram; `fault` says that the socket cut it short. */
    method DoReceive(snapshot: bool, fault: bool, data: array<Wire.byte>, length: nat, ghost s: Sys)
      requires Valid() && View(s) == s && KeysOk(s.consumer.rec) && length <= data.Length
      requires data as object != output.store && MARKET_SIZE == Wire.SizeOf(Wire.MARKET)
      modifies this, recovery, generation, output, output.store
      ensures Valid() && View(s) == Datagram(s, snapshot, fault, data[..length], output.store.Length, recovery.limit)
    {
      hide Process, ProcessWhole, ToUpdate, PassesChannel, LFQueue.SlotHolds, Cursor, Wire.SizeOf, KeysOk;
      if snapshot && !recovery.recovering {
        return;
      }
      if fault || length % MARKET_SIZE != 0 {
        DoStale(s);
        return;
      }
      ghost var b := data[..length];
      var offset := 0;
      while offset < length
        invariant Valid() && offset <= length && (length - offset) % MARKET_SIZE == 0
        invariant b == data[..length] && KeysOk(View(s).consumer.rec)
        invariant Frames(View(s), snapshot, b[offset..], output.store.Length, recovery.limit)
               == Frames(s, snapshot, b, output.store.Length, recovery.limit)
      {
        ghost var t := View(s);
        WholeFrame(length - offset);
        assert b[offset..][..MARKET_SIZE] == data[offset..offset + MARKET_SIZE];
        assert b[offset..][MARKET_SIZE..] == b[offset + MARKET_SIZE..];
        var update := ToUpdate(data[offset..offset + MARKET_SIZE]);
        if update.None? || !PassesChannel(snapshot, update.value) {
          DoStale(t);
          return;
        }
        ProcessKeysOk(t, snapshot, update.value, output.store.Length, recovery.limit);
        DoProcessWhole(snapshot, update.value, t);
        offset := offset + MARKET_SIZE;
      }
    }
  }

  lemma WholeFrame(n: int)
    requires n > 0 && n % MARKET_SIZE == 0
    ensures n >= MARKET_SIZE && (n - MARKET_SIZE) % MARKET_SIZE == 0
  {
  }
}
