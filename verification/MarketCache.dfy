/** The market snapshot of `chain_reader.rs`: a TTL cache that an empty fetch must not wipe. */
module MarketCache {
  import opened Prelude

  /** Milliseconds. */
  const MARKET_CACHE_TTL: nat := 30_000

  /** The fields of a market account that the other modules read. */
  datatype MarketView = MarketView(
    address: Pubkey, debtMint: Pubkey, debtBank: Pubkey, collateralMint: Pubkey, collateralBank: Pubkey)

  datatype Snapshot = Snapshot(fetchedAt: nat, markets: seq<MarketView>)

  /** What the mutex guards; `healthy` until a holder of the lock panics. */
  datatype Cache = Cache(healthy: bool, snapshot: Option<Snapshot>)

  function Stale(c: Cache): Option<seq<MarketView>> {
    if c.healthy && c.snapshot.Some? then Some(c.snapshot.value.markets) else None
  }

  function Get(c: Cache, now: nat): Option<seq<MarketView>> {
    if Stale(c).Some? && now - c.snapshot.value.fetchedAt < MARKET_CACHE_TTL then Stale(c) else None
  }

  function Put(c: Cache, markets: seq<MarketView>, now: nat): Cache {
    if c.healthy then c.(snapshot := Some(Snapshot(now, markets))) else c
  }

  // ---- Interleaved calls ----

  /** Where a call stands; `Returned(None)` is a failed fetch. */
  datatype Stage =
    | Begun
    | Missed
    | FetchedNone
    | Fetched(found: seq<MarketView>)
    | Returned(markets: Option<seq<MarketView>>)

  /** A `list_markets` (or else `refresh_markets`) call; `seen` is the number of stores before it began. */
  datatype Call = Call(list: bool, stage: Stage, seen: nat)

  /** `fetches` and `stores` are history: what the node ever returned, and what was stored when. */
  datatype System = System(
    cache: Cache, now: nat, calls: seq<Call>, fetches: set<seq<MarketView>>, stores: seq<Snapshot>)

  datatype Move =
    | Begins(list: bool)
    | Looks(call: nat)
    | Fetches(call: nat, reply: Option<seq<MarketView>>)
    | FallsBack(call: nat)
    | Stores(call: nat)
    | Waits(milliseconds: nat)
    | Poisons

  function Boot(): System {
    System(Cache(true, None), 0, [], {}, [])
  }

  function AfterFetch(list: bool, reply: Option<seq<MarketView>>): Stage {
    match reply
    case None => Returned(None)
    case Some(found) => if found != [] then Fetched(found) else if list then FetchedNone else Returned(Some([]))
  }

  function At(s: System, i: nat, stage: Stage): System
    requires i < |s.calls|
  {
    s.(calls := s.calls[i := s.calls[i].(stage := stage)])
  }

  /** One move; each is one critical section, one fetch, or a move of the world. */
  function Step(s: System, move: Move): Option<System> {
    match move
    case Begins(list) => Some(s.(calls := s.calls + [Call(list, Begun, |s.stores|)]))
    case Waits(ms) => Some(s.(now := s.now + ms))
    case Poisons => Some(s.(cache := s.cache.(healthy := false)))
    case Looks(i) =>
      if i < |s.calls| && s.calls[i].list && s.calls[i].stage == Begun then
        var hit := Get(s.cache, s.now);
        Some(At(s, i, if hit.Some? then Returned(hit) else Missed))
      else None
    case Fetches(i, reply) =>
      if i < |s.calls| && s.calls[i].stage == (if s.calls[i].list then Missed else Begun) then
        Some(At(s, i, AfterFetch(s.calls[i].list, reply)).(
             fetches := s.fetches + if reply.Some? then {reply.value} else {}))
      else None
    case FallsBack(i) =>
      if i < |s.calls| && s.calls[i].stage == FetchedNone then
        Some(At(s, i, Returned(Some(if Stale(s.cache).Some? then Stale(s.cache).value else []))))
      else None
    case Stores(i) =>
      if i < |s.calls| && s.calls[i].stage.Fetched? then
        var found := s.calls[i].stage.found;
        Some(At(s, i, Returned(Some(found))).(
             cache := Put(s.cache, found, s.now),
             stores := s.stores + if s.cache.healthy then [Snapshot(s.now, found)] else []))
      else None
  }

  function Run(s: System, moves: seq<Move>): Option<System> {
    if moves == [] then Some(s)
    else
      var before := Run(s, moves[..|moves| - 1]);
      if before.None? then None else Step(before.value, moves[|moves| - 1])
  }

  // ---- What every interleaving keeps ----

  ghost predicate StoredAt(s: System, markets: seq<MarketView>, k: nat) {
    k < |s.stores| && s.stores[k].markets == markets
  }

  ghost predicate CallInv(s: System, call: Call) {
    && call.seen <= |s.stores|
    && match call.stage
       case Fetched(found) => found != [] && found in s.fetches
       case FetchedNone => [] in s.fetches
       case Returned(Some(markets)) =>
         && markets in s.fetches
         && (call.list && call.seen > 0 && s.cache.healthy ==> markets != [])
         && (markets != [] && s.cache.healthy ==> exists k: nat :: StoredAt(s, markets, k))
       case _ => true
  }

  ghost predicate CacheInv(s: System) {
    && (s.cache.snapshot.Some? <==> s.stores != [])
    && (s.stores != [] ==> s.cache.snapshot == Some(s.stores[|s.stores| - 1]))
    && forall k | 0 <= k < |s.stores| ::
         s.stores[k].markets != [] && s.stores[k].markets in s.fetches && s.stores[k].fetchedAt <= s.now
  }

  ghost predicate Inv(s: System) {
    CacheInv(s) && forall k | 0 <= k < |s.calls| :: CallInv(s, s.calls[k])
  }

  lemma StepKeepsCache(s: System, move: Move)
    requires Inv(s) && Step(s, move).Some?
    ensures CacheInv(Step(s, move).value)
  {
    if move.Stores? {
      assert CallInv(s, s.calls[move.call]);
    }
  }

  lemma StepKeepsCalls(s: System, move: Move, k: nat)
    requires Inv(s) && Step(s, move).Some? && k < |Step(s, move).value.calls|
    ensures CallInv(Step(s, move).value, Step(s, move).value.calls[k])
  {
    var after := Step(s, move).value;
    assert forall markets, j: nat :: StoredAt(s, markets, j) ==> StoredAt(after, markets, j);
    if k < |s.calls| {
      assert CallInv(s, s.calls[k]);
    }
    if move.Stores? && move.call == k && s.cache.healthy {
      assert StoredAt(after, s.calls[k].stage.found, |s.stores|);
    } else if (move.Looks? || move.FallsBack?) && move.call == k && s.stores != [] {
      assert StoredAt(after, s.stores[|s.stores| - 1].markets, |s.stores| - 1);
    }
  }

  lemma {:induction false} RunKeepsInv(s: System, moves: seq<Move>)
    requires Inv(s) && Run(s, moves).Some?
    ensures Inv(Run(s, moves).value)
  {
    if moves != [] {
      var n := |moves| - 1;
      RunKeepsInv(s, moves[..n]);
      var before, after := Run(s, moves[..n]).value, Run(s, moves).value;
      StepKeepsCache(before, moves[n]);
      forall k | 0 <= k < |after.calls|
        ensures CallInv(after, after.calls[k])
      {
        StepKeepsCalls(before, moves[n], k);
      }
    }
  }

  /** Once a snapshot is stored, the cache never becomes empty again, whatever the fetches return. */
  lemma {:induction false} NeverWiped(before: seq<Move>, after: seq<Move>)
    requires Run(Boot(), before).Some? && Run(Boot(), before).value.cache.snapshot.Some?
    requires Run(Run(Boot(), before).value, after).Some?
    ensures var cache := Run(Run(Boot(), before).value, after).value.cache;
            cache.snapshot.Some? && cache.snapshot.value.markets != []
  {
    RunKeepsInv(Boot(), before);
    RunKeepsInv(Run(Boot(), before).value, after);
    if after != [] {
      NeverWiped(before, after[..|after| - 1]);
    }
  }

  /**
  A list that a `list_markets` call returns was produced by some fetch; and if the call began after
  a store and the lock is healthy as it returns, the list is not empty.
  */
  lemma ListedMarkets(moves: seq<Move>, i: nat, markets: seq<MarketView>)
    requires Run(Boot(), moves).Some?
    requires var s := Run(Boot(), moves).value;
             i < |s.calls| && s.calls[i].list && s.calls[i].stage == Returned(Some(markets))
    ensures var s := Run(Boot(), moves).value;
            && markets in s.fetches
            && (s.calls[i].seen > 0 && s.cache.healthy ==> markets != [])
  {
    RunKeepsInv(Boot(), moves);
    var s := Run(Boot(), moves).value;
    assert CallInv(s, s.calls[i]);
  }

  /** Whatever non-empty list a call returns was stored, as long as the lock is healthy. */
  lemma ReturnedIsStored(moves: seq<Move>, i: nat, markets: seq<MarketView>) returns (k: nat)
    requires Run(Boot(), moves).Some?
    requires var s := Run(Boot(), moves).value;
             i < |s.calls| && s.calls[i].stage == Returned(Some(markets)) && markets != [] && s.cache.healthy
    ensures k < |Run(Boot(), moves).value.stores| && Run(Boot(), moves).value.stores[k].markets == markets
  {
    RunKeepsInv(Boot(), moves);
    var s := Run(Boot(), moves).value;
    assert CallInv(s, s.calls[i]);
    k :| StoredAt(s, markets, k);
  }

  /**
  A look hits exactly if the lock is healthy and the latest store is under 30 s old, and then gives
  that store; else the call goes on to fetch.
  */
  lemma HitIsFresh(moves: seq<Move>, i: nat)
    requires Run(Boot(), moves).Some? && Run(Boot(), moves + [Looks(i)]).Some?
    ensures var s := Run(Boot(), moves).value;
            var stage := Run(Boot(), moves + [Looks(i)]).value.calls[i].stage;
            if s.cache.healthy && s.stores != [] && s.now - s.stores[|s.stores| - 1].fetchedAt < 30_000 then
              stage == Returned(Some(s.stores[|s.stores| - 1].markets))
            else stage == Missed
    ensures var s := Run(Boot(), moves).value; s.stores != [] ==> s.stores[|s.stores| - 1].fetchedAt <= s.now
  {
    assert (moves + [Looks(i)])[..|moves|] == moves;
    RunKeepsInv(Boot(), moves);
  }

  /** A call whose fetch gave nothing falls back on the latest store, if there is one and the lock is healthy. */
  lemma FallsBackOnLatest(moves: seq<Move>, i: nat)
    requires Run(Boot(), moves).Some? && Run(Boot(), moves + [FallsBack(i)]).Some?
    ensures var s := Run(Boot(), moves).value;
            Run(Boot(), moves + [FallsBack(i)]).value.calls[i].stage
            == Returned(Some(if s.cache.healthy && s.stores != [] then s.stores[|s.stores| - 1].markets else []))
  {
    assert (moves + [FallsBack(i)])[..|moves|] == moves;
    RunKeepsInv(Boot(), moves);
  }

  // ---- The methods ----

  /** What other tasks may do to the cache between two critical sections of a call. */
  predicate Evolves(before: Cache, after: Cache) {
    && (after.healthy ==> before.healthy)
    && (before.snapshot.Some? ==> after.snapshot.Some?)
    && (after.snapshot.Some? ==> after.snapshot == before.snapshot || after.snapshot.value.markets != [])
  }

  /** The rest of the system is what the interleaved machine allows. */
  lemma {:induction false} MachineEvolves(s: System, moves: seq<Move>)
    requires Inv(s) && Run(s, moves).Some?
    ensures Evolves(s.cache, Run(s, moves).value.cache)
  {
    RunKeepsInv(s, moves);
    if moves != [] {
      MachineEvolves(s, moves[..|moves| - 1]);
      RunKeepsInv(s, moves[..|moves| - 1]);
    }
  }

  class ChainReader {
    var cache: Cache

    constructor ()
      ensures cache == Cache(true, None)
    {
      cache := Cache(true, None);
    }

    ghost predicate Valid()
      reads this
    {
      cache.snapshot.Some? ==> cache.snapshot.value.markets != []
    }

    method MarketsCacheGet(now: nat) returns (markets: Option<seq<MarketView>>)
      ensures markets == Get(cache, now)
    {
      if !cache.healthy || cache.snapshot.None? {
        return None;
      }
      var snapshot := cache.snapshot.value;
      return if now - snapshot.fetchedAt < MARKET_CACHE_TTL then Some(snapshot.markets) else None;
    }

    method MarketsCacheStale() returns (markets: Option<seq<MarketView>>)
      ensures markets == Stale(cache)
    {
      if !cache.healthy || cache.snapshot.None? {
        return None;
      }
      return Some(cache.snapshot.value.markets);
    }

    method MarketsCachePut(markets: seq<MarketView>, now: nat)
      modifies this`cache
      ensures cache == Put(old(cache), markets, now)
    {
      if cache.healthy {
        cache := cache.(snapshot := Some(Snapshot(now, markets)));
      }
    }

    /** The fetch, during which other calls run. */
    method FetchMarkets() returns (reply: Option<seq<MarketView>>)
      requires Valid()
      modifies this`cache
      ensures Valid() && Evolves(old(cache), cache)
    {
      var later: Cache := *;
      if Evolves(cache, later) {
        cache := later;
      }
      reply := *;
    }

    /** `list_markets`; `begun` and `ended` are the clock before and after the fetch, `fetched` what the fetch returned. */
    method ListMarkets(begun: nat, ended: nat)
      returns (markets: Option<seq<MarketView>>, ghost fetched: Option<seq<MarketView>>, ghost between: Cache)
      requires Valid()
      modifies this`cache
      ensures Valid() && Evolves(old(cache), between) && Evolves(between, cache)
      ensures Get(old(cache), begun).Some? ==> markets == Get(old(cache), begun) && cache == old(cache)
      ensures Get(old(cache), begun).None? && fetched.None? ==> markets == None && cache == between
      ensures Get(old(cache), begun).None? && fetched.Some? && fetched.value != [] ==>
                markets == fetched && cache == Put(between, fetched.value, ended)
      ensures Get(old(cache), begun).None? && fetched == Some([]) ==>
                markets == (if Stale(between).Some? then Stale(between) else Some([])) && cache == between
      ensures old(cache).snapshot.Some? && cache.healthy && markets.Some? ==> markets.value != []
    {
      fetched, between := None, cache;
      var hit := MarketsCacheGet(begun);
      if hit.Some? {
        return hit, fetched, between;
      }
      markets := FetchMarkets();
      fetched, between := markets, cache;
      if markets.None? {
        return;
      }
      if markets.value == [] {
        var stale := MarketsCacheStale();
        if stale.Some? {
          markets := stale;
        }
        return;
      }
      MarketsCachePut(markets.value, ended);
    }

    /** `refresh_markets` */
    method RefreshMarkets(ended: nat)
      returns (markets: Option<seq<MarketView>>, ghost fetched: Option<seq<MarketView>>, ghost between: Cache)
      requires Valid()
      modifies this`cache
      ensures Valid() && Evolves(old(cache), between)
      ensures markets == fetched
      ensures cache == if fetched.Some? && fetched.value != [] then Put(between, fetched.value, ended) else between
    {
      markets := FetchMarkets();
      fetched, between := markets, cache;
      if markets.Some? && markets.value != [] {
        MarketsCachePut(markets.value, ended);
      }
    }
  }
}
