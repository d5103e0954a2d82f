/** The event indexer as a whole: what the polls of all listeners, interleaved in any order, leave in the stores. */
module IndexerRuns {
  import opened Basics
  import opened EventStore
  import opened BlockRanges

  /** One listener: its chain's blocks, where it starts, its polls and its batch size. */
  datatype Listener = Listener(blocks: nat -> seq<EventStore.Log>, start: nat, polls: seq<Poll>, size: nat)

  function Final(l: Listener): State
    requires l.size > 0
  {
    AfterPolls(State(l.start, []), l.polls, l.size)
  }

  /** The logs a listener hands to the handler. */
  function HandledBy(l: Listener): seq<EventStore.Log>
    requires l.size > 0
  {
    Handled(Final(l).asked)
  }

  /** All logs of the blocks it has covered. */
  function CoveredBy(l: Listener): seq<EventStore.Log>
    requires l.size > 0
  {
    LogsBetween(l.blocks, l.start + 1, Final(l).lastBlock)
  }

  /** The node answers truthfully, and no query fails on a range that holds logs. */
  ghost predicate Lossless(l: Listener)
    requires l.size > 0
  {
    Truthful(l.blocks, Final(l).asked) && FailedRangesAreEmpty(l.blocks, Final(l).asked)
  }

  lemma LosslessHandlesAll(l: Listener)
    requires l.size > 0 && Lossless(l)
    ensures HandledBy(l) == CoveredBy(l)
  {
    NothingLostIffFailuresEmpty(l.blocks, l.start, l.polls, l.size);
  }

  /** Whatever heights the nodes report at whatever polls, and however the listeners take turns at the handler, the
      stores end as if the logs of all covered blocks had been handled once each, chain after chain and in block
      order, unless a handler panics, which one then does in either order. */
  lemma IndexerIsSequential(cfg: Config, s: Store, chains: seq<string>, listener: string -> Listener,
                            covered: string -> seq<EventStore.Log>, ds: seq<Delivery>)
    requires Distinct(chains) && !s.down && IsPaging(cfg.page)
    requires forall chain | chain in chains ::
               listener(chain).size > 0 && Lossless(listener(chain)) && covered(chain) == CoveredBy(listener(chain))
    requires forall chain :: Of(chain, ds) == if chain in chains then Deliver(chain, HandledBy(listener(chain))) else []
    ensures var concurrent := ProcessAll(cfg, s, ds);
            var sequential := ProcessAll(cfg, s, OneAfterAnother(chains, covered));
            && (concurrent.down <==> !NonePanics(cfg, ds)) && concurrent.down == sequential.down
            && (NonePanics(cfg, ds) ==> concurrent == sequential)
  {
    forall chain ensures Of(chain, ds) == if chain in chains then Deliver(chain, covered(chain)) else [] {
      if chain in chains {
        LosslessHandlesAll(listener(chain));
      }
    }
    ConcurrentIsSequential(cfg, s, chains, covered, ds);
  }
}
