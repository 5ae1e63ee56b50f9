/** One tick of the claimer: the seats it lists, the two gates it joins, and the sweeps. */
module Claimer {
  import opened Prelude
  import opened Network
  import opened RpcClient
  import opened SimGate
  import Cranks

  datatype SubVault = SubVault(vault: Pubkey, id: u16, pendingClaimAtoms: u64)
  datatype Seat = Seat(owner: Pubkey, subVaultOwned: bool, subVault: u16, withdrawableShares: nat)
  datatype Market = Market(address: Pubkey, debtMint: Pubkey, paused: bool)

  /** A market account read: nothing there, or its bytes. `Seats` walks the seat tree, and gives nothing for a malformed account. */
  type Seats = seq<byte> -> seq<Seat>

  /** A row to sweep, and the mint whose bank that takes. */
  datatype Claim = Claim(market: Pubkey, debtMint: Pubkey, vault: Pubkey, subVault: u16)

  type Key = (Pubkey, Pubkey, u16)

  function KeyOf(row: Claim): Key {
    (row.market, row.vault, row.subVault)
  }

  /** The mints of the registry snapshot that the sweep of a row takes for itself. */
  type Banks = Key -> set<Pubkey>

  predicate SeatCounts(seat: Seat) {
    seat.subVaultOwned && seat.withdrawableShares != 0
  }

  function ClaimOf(market: Market, seat: Seat): Claim {
    Claim(market.address, market.debtMint, seat.owner, seat.subVault)
  }

  function ClaimsOfSeats(market: Market, seats: seq<Seat>): seq<Claim> {
    if seats == [] then []
    else
      var n := |seats| - 1;
      ClaimsOfSeats(market, seats[..n]) + if SeatCounts(seats[n]) then [ClaimOf(market, seats[n])] else []
  }

  function ClaimsOfMarket(market: Market, data: Option<seq<byte>>, seats: Seats): seq<Claim> {
    if market.paused || data.None? then [] else ClaimsOfSeats(market, seats(data.value))
  }

  /** The rows of all markets, in market order; `found[k]` is what reading market `k` gave. */
  function ClaimsOfMarkets(markets: seq<Market>, found: seq<Option<seq<byte>>>, seats: Seats): seq<Claim>
    requires |found| == |markets|
  {
    if markets == [] then []
    else
      var n := |markets| - 1;
      ClaimsOfMarkets(markets[..n], found[..n], seats) + ClaimsOfMarket(markets[n], found[n], seats)
  }

  lemma {:induction false} SeatRows(market: Market, seats: seq<Seat>, row: Claim)
    ensures row in ClaimsOfSeats(market, seats) <==> exists seat <- seats :: SeatCounts(seat) && row == ClaimOf(market, seat)
  {
    if seats != [] {
      var n := |seats| - 1;
      SeatRows(market, seats[..n], row);
      assert seats == seats[..n] + [seats[n]];
    }
  }

  /** A row is listed for an unpaused market that was read, and a seat of it that a sub-vault owns and shares remain on. */
  ghost predicate Listed(market: Market, data: Option<seq<byte>>, seats: Seats, row: Claim) {
    !market.paused && data.Some? && exists seat <- seats(data.value) :: SeatCounts(seat) && row == ClaimOf(market, seat)
  }

  lemma RowsOfMarket(market: Market, data: Option<seq<byte>>, seats: Seats, row: Claim)
    ensures row in ClaimsOfMarket(market, data, seats) <==> Listed(market, data, seats, row)
  {
    if !market.paused && data.Some? {
      SeatRows(market, seats(data.value), row);
    }
  }

  ghost predicate ListedAt(markets: seq<Market>, found: seq<Option<seq<byte>>>, seats: Seats, row: Claim, k: nat) {
    k < |markets| && k < |found| && Listed(markets[k], found[k], seats, row)
  }

  lemma {:induction false} MarketRows(markets: seq<Market>, found: seq<Option<seq<byte>>>, seats: Seats, row: Claim)
    requires |found| == |markets|
    ensures row in ClaimsOfMarkets(markets, found, seats) <==> exists k :: ListedAt(markets, found, seats, row, k)
  {
    if markets != [] {
      var n := |markets| - 1;
      MarketRows(markets[..n], found[..n], seats, row);
      RowsOfMarket(markets[n], found[n], seats, row);
      if k: nat :| ListedAt(markets[..n], found[..n], seats, row, k) {
        assert ListedAt(markets, found, seats, row, k);
      }
      if k: nat :| ListedAt(markets, found, seats, row, k) {
        assert k < n ==> ListedAt(markets[..n], found[..n], seats, row, k);
      }
      assert Listed(markets[n], found[n], seats, row) ==> ListedAt(markets, found, seats, row, n);
    }
  }

  /** Some sub-vault with this key has realised atoms waiting. */
  ghost predicate AtomsWait(subVaults: seq<SubVault>, row: Claim) {
    exists p <- subVaults :: p.pendingClaimAtoms > 0 && p.vault == row.vault && p.id == row.subVault
  }

  function Kept(claimable: set<(Pubkey, u16)>, rows: seq<Claim>): seq<Claim> {
    if rows == [] then []
    else
      var n := |rows| - 1;
      Kept(claimable, rows[..n]) + if (rows[n].vault, rows[n].subVault) in claimable then [rows[n]] else []
  }

  lemma {:induction false} KeptRows(claimable: set<(Pubkey, u16)>, rows: seq<Claim>, row: Claim)
    ensures row in Kept(claimable, rows) <==> row in rows && (row.vault, row.subVault) in claimable
  {
    if rows != [] {
      var n := |rows| - 1;
      KeptRows(claimable, rows[..n], row);
      assert rows == rows[..n] + [rows[n]];
    }
  }

  predicate AnyAtoms(subVaults: seq<SubVault>) {
    exists p <- subVaults :: p.pendingClaimAtoms > 0
  }

  /** Keeping rows keeps how often each occurs. */
  lemma {:induction false} KeptCounts(claimable: set<(Pubkey, u16)>, rows: seq<Claim>, row: Claim)
    ensures multiset(Kept(claimable, rows))[row]
            == if (row.vault, row.subVault) in claimable then multiset(rows)[row] else 0
  {
    if rows != [] {
      var n := |rows| - 1;
      KeptCounts(claimable, rows[..n], row);
      assert rows == rows[..n] + [rows[n]];
    }
  }

  /** Seats of one market that a sweep is for, with the same owner and sub-vault. */
  function SeatsFor(seats: seq<Seat>, vault: Pubkey, subVault: u16): nat {
    if seats == [] then 0
    else
      var seat := seats[|seats| - 1];
      SeatsFor(seats[..|seats| - 1], vault, subVault)
      + if seat.subVaultOwned && seat.withdrawableShares > 0 && seat.owner == vault && seat.subVault == subVault then 1 else 0
  }

  /** Seats for the row over all unpaused markets of its address and mint that were read. */
  function AllSeatsFor(markets: seq<Market>, found: seq<Option<seq<byte>>>, seats: Seats, row: Claim): nat
    requires |found| == |markets|
  {
    if markets == [] then 0
    else
      var n := |markets| - 1;
      AllSeatsFor(markets[..n], found[..n], seats, row)
      + if markets[n].address == row.market && markets[n].debtMint == row.debtMint && !markets[n].paused && found[n].Some?
        then SeatsFor(seats(found[n].value), row.vault, row.subVault) else 0
  }

  lemma {:induction false} SeatCountOfRow(market: Market, seats: seq<Seat>, row: Claim)
    ensures multiset(ClaimsOfSeats(market, seats))[row]
            == if market.address == row.market && market.debtMint == row.debtMint
               then SeatsFor(seats, row.vault, row.subVault) else 0
  {
    if seats != [] {
      SeatCountOfRow(market, seats[..|seats| - 1], row);
    }
  }

  lemma {:induction false} RowCount(markets: seq<Market>, found: seq<Option<seq<byte>>>, seats: Seats, row: Claim)
    requires |found| == |markets|
    ensures multiset(ClaimsOfMarkets(markets, found, seats))[row] == AllSeatsFor(markets, found, seats, row)
  {
    if markets != [] {
      var n := |markets| - 1;
      RowCount(markets[..n], found[..n], seats, row);
      if !markets[n].paused && found[n].Some? {
        SeatCountOfRow(markets[n], seats(found[n].value), row);
      }
    }
  }

  /** The sub-vault keys of the first gate. */
  method Claimable(subVaults: seq<SubVault>) returns (claimable: set<(Pubkey, u16)>)
    ensures forall row: Claim :: (row.vault, row.subVault) in claimable <==> AtomsWait(subVaults, row)
    ensures claimable != {} <==> AnyAtoms(subVaults)
    ensures forall p <- subVaults :: p.pendingClaimAtoms > 0 ==> (p.vault, p.id) in claimable
    ensures forall key <- claimable :: exists p <- subVaults :: (p.vault, p.id) == key && p.pendingClaimAtoms > 0
  {
    claimable := {};
    for i := 0 to |subVaults|
      invariant forall row: Claim :: (row.vault, row.subVault) in claimable <==> AtomsWait(subVaults[..i], row)
      invariant claimable != {} <==> AnyAtoms(subVaults[..i])
      invariant forall p <- subVaults[..i] :: p.pendingClaimAtoms > 0 ==> (p.vault, p.id) in claimable
      invariant forall key <- claimable :: exists p <- subVaults[..i] :: (p.vault, p.id) == key && p.pendingClaimAtoms > 0
    {
      assert subVaults[..i + 1] == subVaults[..i] + [subVaults[i]];
      if subVaults[i].pendingClaimAtoms > 0 {
        claimable := claimable + {(subVaults[i].vault, subVaults[i].id)};
      }
    }
    assert subVaults[..|subVaults|] == subVaults;
  }

  /** One market's part of the listing; `data` is `None` for a paused market too. */
  method ListMarket(rpc: Rpc, market: Market, seats: Seats)
    returns (rows: Result<seq<Claim>, Fault>, ghost data: Option<seq<byte>>, ghost tr: seq<Event>)
    modifies rpc`stop
    ensures Quiet(tr) && forall e <- tr :: !e.Simulated?
    ensures rows.Ok? ==> rows.value == ClaimsOfMarket(market, data, seats)
    ensures rows.Ok? && !market.paused ==> AccountRead(market.address, data) in tr
    ensures rows.Err? <==> Unanswered in tr
  {
    if market.paused {
      return Ok([]), None, [];
    }
    var answer;
    answer, tr := rpc.GetAccountData(market.address);
    assert tr == tr[..|tr| - 1] + [tr[|tr| - 1]];
    if answer.Err? {
      return Err(answer.error), None, tr;
    }
    if answer.value.None? {
      return Ok([]), None, tr;
    }
    var claims := PushSeats(market, seats(answer.value.value));
    return Ok(claims), answer.value, tr;
  }

  /** `list_pending_vault_claims`: one read per unpaused market; a read that goes unanswered fails the listing. */
  method ListPendingVaultClaims(rpc: Rpc, markets: seq<Market>, seats: Seats)
    returns (result: Result<seq<Claim>, Fault>, ghost found: seq<Option<seq<byte>>>, ghost tr: seq<Event>)
    modifies rpc`stop
    ensures Quiet(tr) && forall e <- tr :: !e.Simulated?
    ensures result.Ok? ==> |found| == |markets| && result.value == ClaimsOfMarkets(markets, found, seats)
    ensures result.Ok? ==> ReadAll(markets, found, tr)
    ensures result.Err? <==> Unanswered in tr
  {
    var out: seq<Claim> := [];
    found, tr := [], [];
    for k := 0 to |markets|
      invariant Quiet(tr) && (forall e <- tr :: !e.Simulated?) && Unanswered !in tr
      invariant ReadAll(markets[..k], found, tr) && out == ClaimsOfMarkets(markets[..k], found, seats)
    {
      ghost var data, t;
      var rows;
      rows, data, t := ListMarket(rpc, markets[k], seats);
      tr := tr + t;
      if rows.Err? {
        return Err(rows.error), found, tr;
      }
      out := out + rows.value;
      assert markets[..k + 1][..k] == markets[..k] && (found + [data])[..k] == found;
      found := found + [data];
    }
    assert markets[..|markets|] == markets;
    return Ok(out), found, tr;
  }

  /** Every unpaused market was read, with the outcome recorded. */
  ghost predicate ReadAll(markets: seq<Market>, found: seq<Option<seq<byte>>>, tr: seq<Event>) {
    |found| == |markets| && forall k | 0 <= k < |markets| :: !markets[k].paused ==> AccountRead(markets[k].address, found[k]) in tr
  }

  method PushSeats(market: Market, seats: seq<Seat>) returns (rows: seq<Claim>)
    ensures rows == ClaimsOfSeats(market, seats)
  {
    rows := [];
    for i := 0 to |seats|
      invariant rows == ClaimsOfSeats(market, seats[..i])
    {
      assert seats[..i + 1][..i] == seats[..i];
      if seats[i].subVaultOwned && seats[i].withdrawableShares != 0 {
        rows := rows + [ClaimOf(market, seats[i])];
      }
    }
    assert seats[..|seats|] == seats;
  }

  method FilterClaims(claimable: set<(Pubkey, u16)>, rows: seq<Claim>) returns (pending: seq<Claim>)
    ensures pending == Kept(claimable, rows)
  {
    pending := [];
    for i := 0 to |rows|
      invariant pending == Kept(claimable, rows[..i])
    {
      assert rows[..i + 1][..i] == rows[..i];
      if (rows[i].vault, rows[i].subVault) in claimable {
        pending := pending + [rows[i]];
      }
    }
    assert rows[..|rows|] == rows;
  }

  // ---- The sweeps ----

  function SweepBundle(rpc: Rpc, row: Claim): Bundle {
    rpc.LegacyBundle([ClaimRepayment(row.market, row.vault, row.subVault)])
  }

  /** A row's part of a tick: nothing if another tick is on it or its bank is unknown, else one gated attempt. */
  ghost predicate SweepSegment(rpc: Rpc, banks: Banks, busy: set<Key>, row: Claim, tr: seq<Event>) {
    if KeyOf(row) in busy || row.debtMint !in banks(KeyOf(row)) then tr == []
    else
      && SubmitsOnly(tr, SweepBundle(rpc, row))
      && exists verdict ::
           && Attempt([], tr, verdict)
           && Cranks.Verdict(SweepBundle(rpc, row), tr, verdict)
  }

  ghost predicate Swept(rpc: Rpc, banks: Banks, busy: set<Key>, pending: seq<Claim>, segments: seq<seq<Event>>) {
    && |segments| == |pending|
    && forall k | 0 <= k < |pending| :: SweepSegment(rpc, banks, busy, pending[k], segments[k])
  }

  /** The rows a tick sweeps: listed from the seats and kept by the sub-vault gate, each as often as there are seats for it. */
  ghost predicate ToSweep(
    subVaults: seq<SubVault>, markets: seq<Market>, found: seq<Option<seq<byte>>>, seats: Seats, pending: seq<Claim>)
  {
    && |found| == |markets|
    && (forall row :: row in pending <==> AtomsWait(subVaults, row) && exists k :: ListedAt(markets, found, seats, row, k))
    && forall row :: multiset(pending)[row] == if AtomsWait(subVaults, row) then AllSeatsFor(markets, found, seats, row) else 0
  }

  lemma KeptIsToSweep(
    subVaults: seq<SubVault>, claimable: set<(Pubkey, u16)>, markets: seq<Market>, found: seq<Option<seq<byte>>>, seats: Seats)
    requires |found| == |markets|
    requires forall row: Claim :: (row.vault, row.subVault) in claimable <==> AtomsWait(subVaults, row)
    ensures ToSweep(subVaults, markets, found, seats, Kept(claimable, ClaimsOfMarkets(markets, found, seats)))
  {
    forall row: Claim
      ensures row in Kept(claimable, ClaimsOfMarkets(markets, found, seats)) <==>
              AtomsWait(subVaults, row) && exists k :: ListedAt(markets, found, seats, row, k)
    {
      KeptRows(claimable, ClaimsOfMarkets(markets, found, seats), row);
      MarketRows(markets, found, seats, row);
    }
    forall row: Claim
      ensures multiset(Kept(claimable, ClaimsOfMarkets(markets, found, seats)))[row]
              == if AtomsWait(subVaults, row) then AllSeatsFor(markets, found, seats, row) else 0
    {
      KeptCounts(claimable, ClaimsOfMarkets(markets, found, seats), row);
      RowCount(markets, found, seats, row);
    }
  }

  class ClaimerHandler {
    var inflight: set<Key>

    constructor ()
      ensures inflight == {}
    {
      inflight := {};
    }

    method SweepEntry(rpc: Rpc, feePayer: Pubkey, banks: Banks, row: Claim) returns (done: bool, ghost segment: seq<Event>)
      modifies this`inflight, rpc`stop
      ensures SweepSegment(rpc, banks, old(inflight), row, segment)
      ensures Gated([], segment) && Successes(segment) == if done then 1 else 0
      ensures inflight == old(inflight)
    {
      if KeyOf(row) in inflight {
        QuietIsGated([], []);
        return false, [];
      }
      inflight := inflight + {KeyOf(row)};
      var verdict;
      verdict, segment := Cranks.SweepOne(rpc, feePayer, row.debtMint in banks(KeyOf(row)), row.market, row.vault, row.subVault);
      inflight := inflight - {KeyOf(row)};
      done := verdict == Ok(true);
    }

    method SweepAll(rpc: Rpc, feePayer: Pubkey, banks: Banks, pending: seq<Claim>)
      returns (claimed: nat, ghost segments: seq<seq<Event>>)
      modifies this`inflight, rpc`stop
      ensures Swept(rpc, banks, old(inflight), pending, segments)
      ensures Gated([], Flatten(segments)) && claimed == Successes(Flatten(segments))
      ensures inflight == old(inflight)
    {
      claimed, segments := 0, [];
      QuietIsGated([], []);
      for k := 0 to |pending|
        invariant Swept(rpc, banks, old(inflight), pending[..k], segments)
        invariant Gated([], Flatten(segments)) && claimed == Successes(Flatten(segments))
        invariant inflight == old(inflight)
      {
        var done;
        ghost var segment;
        done, segment := SweepEntry(rpc, feePayer, banks, pending[k]);
        if done {
          claimed := claimed + 1;
        }
        FlattenAppend(segments, segment);
        GatedConcat([], Flatten(segments), segment);
        SuccessesConcat(Flatten(segments), segment);
        segments := segments + [segment];
      }
      assert pending[..|pending|] == pending;
    }

    /**
    `tick`. `sweeps` is the part of the trace in which rows are swept, one segment per row; the
    sub-vault list comes first, and the seats are only read when it has atoms waiting.
    */
    method Tick(
      rpc: Rpc, feePayer: Pubkey, banks: Banks, subVaults: Result<seq<SubVault>, Fault>,
      markets: Result<seq<Market>, Fault>, seats: Seats)
      returns (fault: Option<Fault>, claimed: nat, ghost pending: seq<Claim>, ghost found: seq<Option<seq<byte>>>,
               ghost listing: seq<Event>, ghost sweeps: seq<seq<Event>>)
      modifies this`inflight, rpc`stop
      ensures inflight == old(inflight)
      ensures Quiet(listing) && Swept(rpc, banks, old(inflight), pending, sweeps)
      ensures Gated([], Flatten(sweeps)) && claimed == Successes(Flatten(sweeps))
      ensures fault.Some? <==>
                subVaults.Err? || (AnyAtoms(subVaults.value) && (markets.Err? || Unanswered in listing))
      ensures fault.Some? || !AnyAtoms(subVaults.value) ==> pending == []
      ensures fault.None? && !AnyAtoms(subVaults.value) ==> listing == []
      ensures fault.None? && AnyAtoms(subVaults.value) ==>
                ReadAll(markets.value, found, listing) && ToSweep(subVaults.value, markets.value, found, seats, pending)
    {
      fault, claimed, pending, found, listing, sweeps := None, 0, [], [], [], [];
      QuietIsGated([], []);
      if subVaults.Err? {
        return Some(subVaults.error), 0, pending, found, listing, sweeps;
      }
      var claimable := Claimable(subVaults.value);
      if claimable == {} {
        return;
      }
      if markets.Err? {
        return Some(markets.error), 0, pending, found, listing, sweeps;
      }
      var rows;
      rows, found, listing := ListPendingVaultClaims(rpc, markets.value, seats);
      if rows.Err? {
        return Some(rows.error), 0, pending, found, listing, sweeps;
      }
      var kept := FilterClaims(claimable, rows.value);
      pending := kept;
      KeptIsToSweep(subVaults.value, claimable, markets.value, found, seats);
      claimed, sweeps := SweepAll(rpc, feePayer, banks, kept);
    }
  }

  // ---- Safety of a tick ----

  /** Every submission of a tick sweeps a listed row that passed both gates, for a bank the registry knows. */
  lemma {:induction false} SubmissionsPassBothGates(
    rpc: Rpc, banks: Banks, busy: set<Key>, pending: seq<Claim>, segments: seq<seq<Event>>, e: Event)
    requires Swept(rpc, banks, busy, pending, segments) && e in Flatten(segments) && e.Submitted?
    ensures exists row <- pending ::
              && (row.market, row.vault, row.subVault) !in busy
              && row.debtMint in banks((row.market, row.vault, row.subVault))
              && e.bundle.ixs != []
              && e.bundle.ixs[|e.bundle.ixs| - 1] == ClaimRepayment(row.market, row.vault, row.subVault)
  {
    var n := |pending| - 1;
    if e in segments[n] {
      assert pending[n] in pending;
    } else {
      SubmissionsPassBothGates(rpc, banks, busy, pending[..n], segments[..n], e);
    }
  }
}
