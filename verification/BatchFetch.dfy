/** The chunked account fetch of `rpc.rs`, and the token-balance loop of `metrics.rs` that reads its result. */
module BatchFetch {
  import opened Prelude
  import KeyOrder
  import opened LittleEndian
  import RepayPlan

  const CHUNK_SIZE := 100
  const MAX_CONCURRENCY := 16

  datatype Fetched = Failed | Fetched(accounts: seq<Option<seq<byte>>>)

  function ChunkCount(n: nat): nat {
    (n + CHUNK_SIZE - 1) / CHUNK_SIZE
  }

  function ChunkOf(i: nat): nat {
    i / CHUNK_SIZE
  }

  function ChunkEnd(n: nat, c: nat): nat {
    Min((c + 1) * CHUNK_SIZE, n)
  }

  /**
  The node's side of one call: which chunk requests fail, and what the ledger holds as each of
  the others is answered. It may change from one chunk to the next.
  */
  datatype Node = Node(fails: set<nat>, ledger: (nat, Pubkey) -> Option<seq<byte>>)

  /** `getMultipleAccounts`: one entry for each key asked for, in order. */
  function Answer(node: Node, c: nat, chunk: seq<Pubkey>): (r: Fetched)
    ensures r.Fetched? ==> |r.accounts| == |chunk|
  {
    if c in node.fails then Failed
    else Fetched(seq(|chunk|, j requires 0 <= j < |chunk| => node.ledger(c, chunk[j])))
  }

  /** What the caller is promised: every slot holds what the ledger held for its own key. */
  ghost predicate Pointwise(node: Node, addresses: seq<Pubkey>, accounts: seq<Option<seq<byte>>>) {
    && |accounts| == |addresses|
    && forall i: nat | i < |addresses| :: accounts[i] == node.ledger(i / 100, addresses[i])
  }

  function Indices(lo: nat, hi: nat): (s: set<nat>)
    requires lo <= hi
    ensures forall i: nat :: i in s <==> lo <= i < hi
    decreases hi - lo
  {
    if lo == hi then {} else {lo} + Indices(lo + 1, hi)
  }

  lemma SlotsOfChunk(n: nat, c: nat)
    requires c < ChunkCount(n)
    ensures 0 < ChunkEnd(n, c) - c * CHUNK_SIZE <= 100
    ensures forall i: nat | i < n :: ChunkOf(i) == c <==> c * CHUNK_SIZE <= i < ChunkEnd(n, c)
  {
  }

  lemma ChunkExists(n: nat, i: nat)
    requires i < n
    ensures ChunkOf(i) < ChunkCount(n)
  {
  }

  /** `output[base + j] = acct` for one joined chunk. */
  method WriteChunk(output: array<Option<seq<byte>>>, base: nat, accounts: seq<Option<seq<byte>>>)
    requires base + |accounts| <= output.Length
    modifies output
    ensures output[..] == old(output[..base]) + accounts + old(output[base + |accounts|..])
  {
    for j := 0 to |accounts|
      invariant forall i | 0 <= i < output.Length ::
        output[i] == if base <= i < base + j then accounts[i - base] else old(output[i])
    {
      output[base + j] := accounts[j];
    }
  }

  /** The slots of the joined chunks, and only they, have been written, once, with what the ledger held. */
  ghost predicate Filled(
    node: Node, addresses: seq<Pubkey>, pending: set<nat>, output: seq<Option<seq<byte>>>, writes: multiset<nat>)
  {
    var n := |addresses|;
    && |output| == n
    && (forall c | 0 <= c < ChunkCount(n) && c !in pending :: c !in node.fails)
    && (forall i: nat | i < n && ChunkOf(i) !in pending :: output[i] == node.ledger(ChunkOf(i), addresses[i]))
    && WrittenOnce(n, pending, writes)
  }

  lemma Joined(
    node: Node, addresses: seq<Pubkey>, pending: set<nat>, output: seq<Option<seq<byte>>>, writes: multiset<nat>,
    c: nat, base: nat, end: nat, accounts: seq<Option<seq<byte>>>)
    requires Filled(node, addresses, pending, output, writes)
    requires base <= end <= |addresses| && c in pending
    requires forall i: nat | i < |addresses| :: ChunkOf(i) == c <==> base <= i < end
    requires Answer(node, c, addresses[base..end]) == Fetched(accounts)
    ensures Filled(
              node, addresses, pending - {c}, output[..base] + accounts + output[end..],
              writes + multiset(Indices(base, end)))
  {
    var after := output[..base] + accounts + output[end..];
    forall i: nat | i < |addresses| && ChunkOf(i) !in pending - {c}
      ensures after[i] == node.ledger(ChunkOf(i), addresses[i])
    {
      if base <= i < end {
        assert after[i] == accounts[i - base] && addresses[base..end][i - base] == addresses[i];
      } else {
        assert after[i] == output[i];
      }
    }
    JoinedWrites(|addresses|, pending, writes, c, base, end);
  }

  ghost predicate WrittenOnce(n: nat, pending: set<nat>, writes: multiset<nat>) {
    forall i: nat :: writes[i] == if i < n && ChunkOf(i) !in pending then 1 else 0
  }

  lemma JoinedWrites(n: nat, pending: set<nat>, writes: multiset<nat>, c: nat, base: nat, end: nat)
    requires WrittenOnce(n, pending, writes)
    requires base <= end <= n && c in pending
    requires forall i: nat | i < n :: ChunkOf(i) == c <==> base <= i < end
    ensures WrittenOnce(n, pending - {c}, writes + multiset(Indices(base, end)))
  {
  }

  lemma NothingFilled(node: Node, addresses: seq<Pubkey>, pending: set<nat>, output: seq<Option<seq<byte>>>)
    requires |output| == |addresses| && pending == Indices(0, ChunkCount(|addresses|))
    ensures Filled(node, addresses, pending, output, multiset{})
  {
    forall i: nat | i < |addresses|
      ensures ChunkOf(i) in pending
    {
      ChunkExists(|addresses|, i);
    }
  }

  /** One joined task: its failure fails the call, its accounts go to their slots. */
  method Join(
    node: Node, addresses: seq<Pubkey>, c: nat, output: array<Option<seq<byte>>>, ghost pending: set<nat>,
    ghost writes: multiset<nat>)
    returns (ok: bool, ghost after: multiset<nat>)
    requires c in pending && c < ChunkCount(|addresses|)
    requires Filled(node, addresses, pending, output[..], writes)
    modifies output
    ensures ok <==> c !in node.fails
    ensures if ok then Filled(node, addresses, pending - {c}, output[..], after)
            else output[..] == old(output[..]) && after == writes
  {
    SlotsOfChunk(|addresses|, c);
    var base := c * CHUNK_SIZE;
    var reply := Answer(node, c, addresses[base..ChunkEnd(|addresses|, c)]);
    if reply.Failed? {
      return false, writes;
    }
    Joined(node, addresses, pending, output[..], writes, c, base, ChunkEnd(|addresses|, c), reply.accounts);
    WriteChunk(output, base, reply.accounts);
    return true, writes + multiset(Indices(base, ChunkEnd(|addresses|, c)));
  }

  /**
  `batch_get_multiple_accounts`. Every round of the loop is one step of any of the tasks: a waiting
  one takes a permit, a running one ends and gives it back, or one that ended is joined. `peak` is the most
  that were past the semaphore at once, `writes` the slots written. An error names its chunk.
  */
  method BatchGetMultipleAccounts(addresses: seq<Pubkey>, node: Node)
    returns (result: Result<seq<Option<seq<byte>>>, nat>, ghost peak: nat, ghost writes: multiset<nat>)
    ensures result.Ok? <==> forall c | 0 <= c < (|addresses| + 99) / 100 :: c !in node.fails
    ensures result.Ok? ==> Pointwise(node, addresses, result.value)
    ensures result.Err? ==> result.error < (|addresses| + 99) / 100 && result.error in node.fails
    ensures peak <= 16
    ensures forall i :: writes[i] <= 1
    ensures result.Ok? ==> forall i: nat :: writes[i] == 1 <==> i < |addresses|
  {
    peak, writes := 0, multiset{};
    if addresses == [] {
      return Ok([]), peak, writes;
    }
    var n := |addresses|;
    var output := new Option<seq<byte>>[n](_ => None);
    var all := Indices(0, ChunkCount(n));
    var permits := MAX_CONCURRENCY;
    var pending, waiting, running := all, all, {};
    NothingFilled(node, addresses, pending, output[..]);
    while pending != {}
      invariant waiting <= pending <= all && running <= pending && waiting !! running
      invariant 0 <= permits && permits + |running| == MAX_CONCURRENCY && peak <= MAX_CONCURRENCY
      invariant Filled(node, addresses, pending, output[..], writes)
      decreases pending, waiting, running
    {
      if
      case waiting != {} && permits > 0 =>
        var c :| c in waiting;
        permits, waiting, running := permits - 1, waiting - {c}, running + {c};
        peak := Max(peak, |running|);
      case running != {} =>
        var c :| c in running;
        permits, running := permits + 1, running - {c};
      case pending - waiting - running != {} =>
        var c :| c in pending - waiting - running;
        var ok;
        ok, writes := Join(node, addresses, c, output, pending, writes);
        if !ok {
          return Err(c), peak, writes;
        }
        pending := pending - {c};
    }
    result := Ok(output[..]);
  }

  // ---- The consumer: balances of the fee payer's token accounts ----

  /** Balance of a token account as the loop records it: zero when missing or malformed. */
  function BalanceIn(account: Option<seq<byte>>): u64 {
    if account.Some? && RepayPlan.SplTokenAmount(account.value).Some? then RepayPlan.SplTokenAmount(account.value).value else 0
  }

  /** The balance stands in the account's bytes 64..72, least significant first; a missing or shorter account has none. */
  predicate Stands(account: Option<seq<byte>>, balance: u64) {
    if account.Some? && |account.value| >= 72 then account.value[64..72] == ToLE(balance, 8) else balance == 0
  }

  lemma BalanceStands(account: Option<seq<byte>>)
    ensures Stands(account, BalanceIn(account))
  {
    if account.Some? && |account.value| >= 72 {
      RepayPlan.BalanceIsRead(account.value, BalanceIn(account));
    }
  }

  /** The balance of the mint's own token account, as the ledger was for one of the chunks. */
  ghost predicate OwnBalance(node: Node, account: Pubkey, chunks: nat, balance: u64) {
    exists c | 0 <= c < chunks :: Stands(node.ledger(c, account), balance)
  }

  /** One round of the balance loop; `ata` derives a mint's token account, `previous` is the shared map. */
  method RefreshAtaBalances(mints: set<Pubkey>, ata: Pubkey -> Pubkey, node: Node, previous: map<Pubkey, u64>)
    returns (balances: map<Pubkey, u64>, ghost chunks: nat)
    ensures chunks == (|mints| + 99) / 100
    ensures mints == {} ==> balances == previous
    ensures (exists c | 0 <= c < chunks :: c in node.fails) ==> balances == previous
    ensures mints != {} && (forall c | 0 <= c < chunks :: c !in node.fails) ==>
              && balances.Keys == mints
              && forall mint <- mints :: OwnBalance(node, ata(mint), chunks, balances[mint])
  {
    var order := KeyOrder.Enumerate(mints);
    chunks := ChunkCount(|order|);
    if order == [] {
      return previous, chunks;
    }
    assert order[0] in order;
    var keys := seq(|order|, i requires 0 <= i < |order| => ata(order[i]));
    var fetched;
    ghost var peak, writes;
    fetched, peak, writes := BatchGetMultipleAccounts(keys, node);
    if fetched.Err? {
      return previous, chunks;
    }
    balances := map[];
    for i := 0 to |order|
      invariant forall mint :: mint in balances.Keys <==> mint in order[..i]
      invariant forall mint <- balances :: OwnBalance(node, ata(mint), chunks, balances[mint])
    {
      ChunkExists(|order|, i);
      assert fetched.value[i] == node.ledger(ChunkOf(i), ata(order[i]));
      BalanceStands(fetched.value[i]);
      balances := balances[order[i] := BalanceIn(fetched.value[i])];
      assert order[..i + 1] == order[..i] + [order[i]];
    }
    assert order[..|order|] == order;
  }
}
