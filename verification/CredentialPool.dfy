/** The adapter's credential pool: a queue, a single-flight refill, and requests suspended at their await. */
module CredentialPool {
  import opened PoolProtocol

  /**
   * Each method is the code between two awaits. What an await suspends is kept in `refill` and
   * `requests`; the next method of that chain takes it up again.
   */
  class Pool {
    const config: Config
    var pool: seq<Entry>
    var refill: Refill
    var requests: seq<Request>
    var now: int
    var nextUrl: nat
    ghost var dropped: seq<Url>

    ghost function Current(): State
      reads this
    {
      State(pool, refill, requests, now, nextUrl, dropped)
    }

    /** What every reachable state of the protocol satisfies: size, order, round budget, and each signed URL in one place. */
    ghost predicate Valid()
      reads this
    {
      Shape(config, Current()) && Conserved(Current())
    }

    constructor (config: Config, now: int)
      ensures this.config == config && Current() == Initial(config, now) && Valid()
    {
      this.config := config;
      pool, refill, requests, this.now, nextUrl, dropped := [], Idle, [], now, 0, [];
      new;
      ScheduleRefill();
      EveryRunIsSafe(config, now, []);
    }

    method PruneExpired()
      modifies this`pool, this`dropped
      ensures Current() == Pruned(config, old(Current()))
    {
      var cutoff := now - config.Lifetime();
      ghost var n := 0;
      ghost var start := pool;
      while |pool| > 0 && pool[0].mintedAt <= cutoff
        invariant n <= |start| && pool == start[n..]
        invariant dropped == old(dropped) + Urls(start[..n])
        invariant forall i :: 0 <= i < n ==> start[i].mintedAt <= cutoff
        decreases |pool|
      {
        UrlsExtend(start, n);
        dropped := dropped + [pool[0].url];
        pool := pool[1..];
        n := n + 1;
      }
    }

    lemma UrlsExtend(entries: seq<Entry>, n: nat)
      requires n < |entries|
      ensures Urls(entries[..n + 1]) == Urls(entries[..n]) + [entries[n].url]
      ensures entries[n..][1..] == entries[n + 1..]
    {
    }

    /** The head of the refill loop: prune, measure the shortfall, and go off to mint it. */
    method RefillFrom(round: nat)
      modifies this`pool, this`dropped, this`refill
      ensures Current() == RefillRound(config, old(Current()), round)
    {
      PruneExpired();
      if round >= MAX_REFILL_ROUNDS || config.poolSize <= |pool| {
        refill := Closing;
      } else {
        refill := Minting(round, config.poolSize - |pool|);
      }
    }

    method ScheduleRefill()
      modifies this`pool, this`dropped, this`refill
      ensures Current() == Scheduled(config, old(Current()))
      // Single flight: with a chain in flight nothing happens.
      ensures old(refill) != Idle ==> Current() == old(Current())
      // Otherwise a chain starts exactly when the pool is short.
      ensures old(refill) == Idle ==> (refill != Idle <==> |pool| < config.poolSize)
    {
      if refill != Idle {
        return;
      }
      PruneExpired();
      if config.poolSize <= |pool| {
        return;
      }
      RefillFrom(0);
    }

    /** A request for `count` credentials, up to its await or its answer. */
    method MintUploadCredentials(count: nat)
      requires Valid()
      modifies this
      ensures Current() == Step(config, old(Current()), Begin(count)) && Valid()
      ensures |requests| == |old(requests)| + 1 && RequestFits(requests[|old(requests)|])
    {
      StepKeepsShape(config, Current(), Begin(count));
      StepConserves(config, Current(), Begin(count));
      PruneExpired();
      var n := if count < |pool| then count else |pool|;
      var fromPool := pool[..n];
      pool := pool[n..];
      if n < count {
        requests := requests + [Waiting(count, fromPool)];
      } else {
        ScheduleRefill();
        requests := requests + [Answered(count, Urls(fromPool))];
      }
    }

    /** The provider has signed the URLs a suspended request was waiting for. */
    method RequestMintResolved(id: nat, times: seq<int>)
      requires Valid() && id < |requests| && requests[id].Waiting?
      requires |times| == requests[id].count - |requests[id].held| && Stamps(times, now)
      modifies this
      ensures Current() == Step(config, old(Current()), RequestMinted(id, times)) && Valid()
      ensures requests[id].Minted? && requests[id].held == old(requests[id].held) && |requests[id].extra| == |times|
      ensures pool == old(pool) && refill == old(refill) && dropped == old(dropped)
    {
      StepKeepsShape(config, Current(), RequestMinted(id, times));
      StepConserves(config, Current(), RequestMinted(id, times));
      requests := requests[id := Minted(requests[id].count, requests[id].held, Fresh(nextUrl, times))];
      now, nextUrl := Clock(now, times), nextUrl + |times|;
    }

    /** The tail of a request: trigger a top-up and answer with exactly `count` URLs. */
    method RequestResume(id: nat) returns (urls: seq<Url>)
      requires Valid() && id < |requests| && requests[id].Minted?
      modifies this
      ensures Current() == Step(config, old(Current()), RequestResumed(id)) && Valid()
      ensures |urls| == old(requests[id].count)
      ensures urls == Urls(old(requests[id].held) + old(requests[id].extra))
    {
      StepKeepsShape(config, Current(), RequestResumed(id));
      StepConserves(config, Current(), RequestResumed(id));
      var r := requests[id];
      assert RequestFits(r);
      ScheduleRefill();
      urls := Urls(r.held + r.extra);
      requests := requests[id := Answered(r.count, urls)];
    }

    /** The request's own mint failed: it throws, and what it held is lost. */
    method RequestMintRejected(id: nat)
      requires Valid() && id < |requests| && requests[id].Waiting?
      modifies this
      ensures Current() == Step(config, old(Current()), RequestMintFailed(id)) && Valid()
      // No top-up is triggered, and nothing goes back to the pool.
      ensures requests == old(requests)[id := Rejected] && pool == old(pool) && refill == old(refill)
    {
      StepKeepsShape(config, Current(), RequestMintFailed(id));
      StepConserves(config, Current(), RequestMintFailed(id));
      dropped := dropped + Urls(requests[id].held);
      requests := requests[id := Rejected];
    }

    /** The provider has signed a refill round's URLs; they are stamped but not yet in the pool. */
    method RefillMintResolved(times: seq<int>)
      requires Valid() && refill.Minting? && |times| == refill.want && Stamps(times, now)
      modifies this
      ensures Current() == Step(config, old(Current()), RefillMinted(times)) && Valid()
      // Still the same round, with as many entries as it asked for; the pool waits for the push.
      ensures refill.Stamped? && refill.round == old(refill.round) && |refill.entries| == old(refill.want)
      ensures pool == old(pool) && requests == old(requests) && nextUrl == old(nextUrl) + |times|
    {
      StepKeepsShape(config, Current(), RefillMinted(times));
      StepConserves(config, Current(), RefillMinted(times));
      refill := Stamped(refill.round, Fresh(nextUrl, times));
      now, nextUrl := Clock(now, times), nextUrl + |times|;
    }

    /** A failed refill round ends the loop. */
    method RefillMintRejected()
      requires Valid() && refill.Minting?
      modifies this
      ensures Current() == Step(config, old(Current()), RefillMintFailed) && Valid()
      ensures Current() == old(Current()).(refill := Closing)
    {
      StepKeepsShape(config, Current(), RefillMintFailed);
      StepConserves(config, Current(), RefillMintFailed);
      refill := Closing;
    }

    /** The rest of a refill round: push, then go round again. */
    method RefillPush()
      requires Valid() && refill.Stamped?
      modifies this
      ensures Current() == Step(config, old(Current()), RefillPushed) && Valid()
    {
      StepKeepsShape(config, Current(), RefillPushed);
      StepConserves(config, Current(), RefillPushed);
      var round := refill.round;
      pool, refill := pool + refill.entries, Idle;
      RefillFrom(round + 1);
    }

    /** The `finally` that clears the refill promise. */
    method RefillClose()
      requires Valid() && refill.Closing?
      modifies this
      ensures Current() == Step(config, old(Current()), RefillClosed) && Valid()
      ensures Current() == old(Current()).(refill := Idle)
    {
      StepKeepsShape(config, Current(), RefillClosed);
      StepConserves(config, Current(), RefillClosed);
      refill := Idle;
    }
  }
}
