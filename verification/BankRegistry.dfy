/** The mint-to-bank registry: discovery and resolution of `bank_registry.rs`, and its refreshes in `config.rs`. */
module BankRegistry {
  import opened Prelude
  import opened KeyOrder
  import BankAccount
  import MarketCache

  type MarketView = MarketCache.MarketView

  // ---- Discovery: which bank a mint is bound to ----

  predicate BindsIn(m: MarketView, mint: Pubkey, bank: Pubkey) {
    (m.debtMint == mint && m.debtBank == bank) || (m.collateralMint == mint && m.collateralBank == bank)
  }

  ghost predicate Binds(markets: seq<MarketView>, mint: Pubkey, bank: Pubkey) {
    exists m <- markets :: BindsIn(m, mint, bank)
  }

  /** All debt and collateral pairs together form a function from mints to banks. */
  ghost predicate Consistent(markets: seq<MarketView>) {
    forall mint, a, b | Binds(markets, mint, a) && Binds(markets, mint, b) :: a == b
  }

  predicate Maps(bindings: map<Pubkey, Pubkey>, mint: Pubkey, bank: Pubkey) {
    mint in bindings && bindings[mint] == bank
  }

  /** The map holds exactly the pairs of the markets. */
  ghost predicate IsBindingOf(markets: seq<MarketView>, bindings: map<Pubkey, Pubkey>) {
    forall mint, bank :: Maps(bindings, mint, bank) <==> Binds(markets, mint, bank)
  }

  /** A binding by its markets: each market's debt mint is bound to its debt bank, its collateral mint to its collateral bank. */
  lemma MarketIsBound(markets: seq<MarketView>, bindings: map<Pubkey, Pubkey>, m: MarketView)
    requires IsBindingOf(markets, bindings) && m in markets
    ensures m.debtMint in bindings && bindings[m.debtMint] == m.debtBank
    ensures m.collateralMint in bindings && bindings[m.collateralMint] == m.collateralBank
  {
    assert BindsIn(m, m.debtMint, m.debtBank) && BindsIn(m, m.collateralMint, m.collateralBank);
    assert Binds(markets, m.debtMint, m.debtBank) && Binds(markets, m.collateralMint, m.collateralBank);
    assert Maps(bindings, m.debtMint, m.debtBank) && Maps(bindings, m.collateralMint, m.collateralBank);
  }

  /** And every bound mint is of some market. */
  lemma BoundOfMarket(markets: seq<MarketView>, bindings: map<Pubkey, Pubkey>, mint: Pubkey) returns (m: MarketView)
    requires IsBindingOf(markets, bindings) && mint in bindings
    ensures m in markets && (mint == m.debtMint || mint == m.collateralMint)
  {
    assert Maps(bindings, mint, bindings[mint]);
    m :| m in markets && BindsIn(m, mint, bindings[mint]);
  }

  lemma BindsInPrefix(markets: seq<MarketView>, k: nat, mint: Pubkey, bank: Pubkey)
    requires k < |markets|
    ensures Binds(markets[..k + 1], mint, bank) <==> Binds(markets[..k], mint, bank) || BindsIn(markets[k], mint, bank)
  {
    assert markets[..k + 1] == markets[..k] + [markets[k]];
  }

  lemma PrefixInconsistent(markets: seq<MarketView>, k: nat)
    requires k <= |markets| && Consistent(markets)
    ensures Consistent(markets[..k])
  {
    forall mint, a, b | Binds(markets[..k], mint, a) && Binds(markets[..k], mint, b)
      ensures a == b
    {
      assert Binds(markets, mint, a) && Binds(markets, mint, b);
    }
  }

  lemma Clash(markets: seq<MarketView>, mint: Pubkey, a: Pubkey, b: Pubkey)
    requires Binds(markets, mint, a) && Binds(markets, mint, b) && a != b
    ensures !Consistent(markets)
  {
  }

  /** The map after the pairs of the markets so far, and perhaps the debt pair of the next one. */
  ghost predicate BoundSoFar(markets: seq<MarketView>, k: nat, debtToo: bool, bindings: map<Pubkey, Pubkey>)
    requires k <= |markets| && (debtToo ==> k < |markets|)
  {
    forall mint, bank ::
      Maps(bindings, mint, bank)
      <==> Binds(markets[..k], mint, bank) || (debtToo && mint == markets[k].debtMint && bank == markets[k].debtBank)
  }

  lemma CollateralBound(markets: seq<MarketView>, k: nat, bindings: map<Pubkey, Pubkey>)
    requires k < |markets| && BoundSoFar(markets, k, true, bindings)
    requires var m := markets[k]; m.collateralMint in bindings ==> bindings[m.collateralMint] == m.collateralBank
    ensures BoundSoFar(markets, k + 1, false, bindings[markets[k].collateralMint := markets[k].collateralBank])
  {
    var after := bindings[markets[k].collateralMint := markets[k].collateralBank];
    forall mint, bank
      ensures Maps(after, mint, bank) <==> Binds(markets[..k + 1], mint, bank)
    {
      BindsInPrefix(markets, k, mint, bank);
      assert Maps(bindings, mint, bank)
          <==> Binds(markets[..k], mint, bank) || (mint == markets[k].debtMint && bank == markets[k].debtBank);
    }
  }

  lemma BoundIsConsistent(markets: seq<MarketView>, k: nat, bindings: map<Pubkey, Pubkey>)
    requires k <= |markets| && BoundSoFar(markets, k, false, bindings)
    ensures Consistent(markets[..k]) && IsBindingOf(markets[..k], bindings)
  {
    forall mint, a, b | Binds(markets[..k], mint, a) && Binds(markets[..k], mint, b)
      ensures a == b
    {
      assert Maps(bindings, mint, a) && Maps(bindings, mint, b);
    }
  }

  /**
  The loop of `discover_from_markets`: each pair is inserted before it is compared with what it
  replaced. `Err(k)` names the market that first disagrees.
  */
  method BindBanks(markets: seq<MarketView>) returns (result: Result<map<Pubkey, Pubkey>, nat>)
    ensures result.Ok? <==> Consistent(markets)
    ensures result.Ok? ==> IsBindingOf(markets, result.value)
    ensures result.Err? ==>
              result.error < |markets| && Consistent(markets[..result.error]) && !Consistent(markets[..result.error + 1])
  {
    var bindings: map<Pubkey, Pubkey> := map[];
    for k := 0 to |markets|
      invariant BoundSoFar(markets, k, false, bindings)
    {
      var m := markets[k];
      BoundIsConsistent(markets, k, bindings);
      var before := bindings;
      bindings := bindings[m.debtMint := m.debtBank];
      if m.debtMint in before && before[m.debtMint] != m.debtBank {
        Disagrees(markets, k, m.debtMint, before[m.debtMint], m.debtBank);
        return Err(k);
      }
      assert BoundSoFar(markets, k, true, bindings);
      before := bindings;
      bindings := bindings[m.collateralMint := m.collateralBank];
      if m.collateralMint in before && before[m.collateralMint] != m.collateralBank {
        Disagrees(markets, k, m.collateralMint, before[m.collateralMint], m.collateralBank);
        return Err(k);
      }
      CollateralBound(markets, k, before);
    }
    BoundIsConsistent(markets, |markets|, bindings);
    assert markets[..|markets|] == markets;
    return Ok(bindings);
  }

  lemma Disagrees(markets: seq<MarketView>, k: nat, mint: Pubkey, a: Pubkey, b: Pubkey)
    requires k < |markets| && BindsIn(markets[k], mint, b) && a != b
    requires Binds(markets[..k], mint, a) || BindsIn(markets[k], mint, a)
    ensures !Consistent(markets[..k + 1]) && !Consistent(markets)
  {
    BindsInPrefix(markets, k, mint, a);
    BindsInPrefix(markets, k, mint, b);
    Clash(markets[..k + 1], mint, a, b);
    if Consistent(markets) {
      PrefixInconsistent(markets, k + 1);
    }
  }

  /** Acceptance and the map depend on which markets there are, not on their order. */
  lemma OrderDoesNotMatter(a: seq<MarketView>, b: seq<MarketView>, boundA: map<Pubkey, Pubkey>, boundB: map<Pubkey, Pubkey>)
    requires forall m :: m in a <==> m in b
    ensures Consistent(a) <==> Consistent(b)
    ensures IsBindingOf(a, boundA) && IsBindingOf(b, boundB) ==> boundA == boundB
  {
    assert forall mint, bank :: Binds(a, mint, bank) <==> Binds(b, mint, bank);
    if IsBindingOf(a, boundA) && IsBindingOf(b, boundB) {
      forall mint
        ensures mint in boundA <==> mint in boundB
        ensures mint in boundA && mint in boundB ==> boundA[mint] == boundB[mint]
      {
        if mint in boundA {
          assert Maps(boundA, mint, boundA[mint]) && Maps(boundB, mint, boundA[mint]);
        }
        if mint in boundB {
          assert Maps(boundB, mint, boundB[mint]) && Maps(boundA, mint, boundB[mint]);
        }
      }
    }
  }

  // ---- Resolution: from bank keys to registry entries ----

  const ORACLE_SETUP_SWITCHBOARD_PULL: byte := 4

  datatype BankInfo = BankInfo(
    mint: Pubkey,
    bank: Pubkey,
    liquidityVault: Pubkey,
    liquidityVaultAuthority: Pubkey,
    oracles: seq<Pubkey>,
    tokenProgram: Pubkey,
    oracleSetup: byte)
  {
    predicate IsSwitchboardPull() {
      oracleSetup == ORACLE_SETUP_SWITCHBOARD_PULL
    }

    function PrimaryOracle(): Pubkey {
      if oracles != [] then oracles[0] else DefaultKey()
    }
  }

  type Registry = map<Pubkey, BankInfo>

  datatype Account = Account(owner: Pubkey, data: seq<byte>)

  type Decoder = seq<byte> -> Result<BankAccount.BankView, BankAccount.DecodeError>

  /**
  The two account requests as the node answers them, one entry for each key; the derivation of
  vault authorities; and the decoder of bank accounts.
  */
  datatype Chain = Chain(
    banks: Option<Pubkey -> Option<Account>>,
    mints: Option<Pubkey -> Option<Account>>,
    authority: (Pubkey, byte) -> Option<Pubkey>,
    decode: Decoder)

  datatype Programs = Programs(marginfi: Pubkey, token: Pubkey, token2022: Pubkey)

  datatype ResolveFault =
    | NoAnswer
    | BankNotFound(mint: Pubkey)
    | ForeignOwner(mint: Pubkey)
    | Undecodable(mint: Pubkey)
    | OtherMint(mint: Pubkey)
    | NoAuthority(mint: Pubkey)
    | MintNotFound(mint: Pubkey)
    | UnknownTokenProgram(mint: Pubkey)
    | OracleCount(mint: Pubkey)

  datatype DecodedBank = DecodedBank(mint: Pubkey, bank: Pubkey, view: BankAccount.BankView, authority: Pubkey)

  /** The bank account backs the binding: owned by marginfi, decodable, and of this very mint. */
  predicate BankBacks(chain: Chain, programs: Programs, mint: Pubkey, bank: Pubkey) {
    && chain.banks.Some?
    && var account := chain.banks.value(bank);
    && account.Some? && account.value.owner == programs.marginfi
    && var view := chain.decode(account.value.data);
    && view.Ok? && view.value.mint == mint && chain.authority(bank, view.value.lvaBump).Some?
  }

  function DecodedAs(chain: Chain, programs: Programs, mint: Pubkey, bank: Pubkey): DecodedBank
    requires BankBacks(chain, programs, mint, bank)
  {
    var view := chain.decode(chain.banks.value(bank).value.data).value;
    DecodedBank(mint, bank, view, chain.authority(bank, view.lvaBump).value)
  }

  /** The mint account is of one of the two token programs. */
  predicate MintIsToken(chain: Chain, programs: Programs, mint: Pubkey) {
    && chain.mints.Some?
    && var account := chain.mints.value(mint);
    && account.Some? && (account.value.owner == programs.token || account.value.owner == programs.token2022)
  }

  predicate Resolvable(chain: Chain, programs: Programs, mint: Pubkey, bank: Pubkey) {
    BankBacks(chain, programs, mint, bank) && MintIsToken(chain, programs, mint)
    && DecodedAs(chain, programs, mint, bank).view.oracles != []
  }

  function InfoOf(chain: Chain, programs: Programs, mint: Pubkey, bank: Pubkey): BankInfo
    requires Resolvable(chain, programs, mint, bank)
  {
    var d := DecodedAs(chain, programs, mint, bank);
    BankInfo(
      mint, bank, d.view.liquidityVault, d.authority, d.view.oracles, chain.mints.value(mint).value.owner, d.view.oracleSetup)
  }

  /** Every entry is of its own mint and bank, and has one to five oracles, none of them the zero key. */
  ghost predicate WellFormed(registry: Registry) {
    forall mint <- registry ::
      registry[mint].mint == mint && 1 <= |registry[mint].oracles| <= 5 && DefaultKey() !in registry[mint].oracles
  }

  /** A decoder returns at most five oracles, none of them the zero key. */
  ghost predicate KeepsFilledSlots(decode: Decoder) {
    forall data :: decode(data).Ok? ==> |decode(data).value.oracles| <= 5 && DefaultKey() !in decode(data).value.oracles
  }

  lemma BankDecoderKeepsFilledSlots()
    ensures KeepsFilledSlots(BankAccount.Decode)
  {
    forall data: seq<byte> | BankAccount.Decode(data).Ok?
      ensures |BankAccount.Decode(data).value.oracles| <= 5 && DefaultKey() !in BankAccount.Decode(data).value.oracles
    {
      var body := data[BankAccount.DISCRIMINATOR_LEN..BankAccount.DISCRIMINATOR_LEN + BankAccount.BANK_BODY_SIZE];
      BankAccount.OraclesAreKeptSlots(body, BankAccount.MAX_ORACLE_KEYS);
    }
  }

  /** `entries` sorted by mint. */
  method SortedKeys(keys: set<Pubkey>) returns (sorted: seq<Pubkey>)
    ensures Sorted(sorted) && forall key :: key in sorted <==> key in keys
  {
    var order := Enumerate(keys);
    SortSorts(order);
    sorted := Sort(order);
    assert forall key :: key in sorted <==> key in multiset(sorted);
  }

  /** What a fault says is so. */
  predicate Explains(chain: Chain, programs: Programs, bank: Pubkey, fault: ResolveFault) {
    if fault.NoAnswer? then chain.banks.None? || chain.mints.None?
    else if fault.MintNotFound? then chain.mints.Some? && chain.mints.value(fault.mint).None?
    else if fault.UnknownTokenProgram? then
      && chain.mints.Some? && chain.mints.value(fault.mint).Some?
      && var owner := chain.mints.value(fault.mint).value.owner;
      owner != programs.token && owner != programs.token2022
    else
      && chain.banks.Some?
      && var account := chain.banks.value(bank);
      if fault.BankNotFound? then account.None?
      else if fault.ForeignOwner? then account.Some? && account.value.owner != programs.marginfi
      else
        && account.Some?
        && var view := chain.decode(account.value.data);
        if fault.Undecodable? then view.Err?
        else if fault.OtherMint? then view.Ok? && view.value.mint != fault.mint
        else if fault.NoAuthority? then view.Ok? && chain.authority(bank, view.value.lvaBump).None?
        else view.Ok? && view.value.oracles == []
  }

  /** One bank of the first pass. */
  method DecodeBank(chain: Chain, programs: Programs, mint: Pubkey, bank: Pubkey) returns (r: Result<DecodedBank, ResolveFault>)
    requires chain.banks.Some?
    ensures r.Ok? <==> BankBacks(chain, programs, mint, bank)
    ensures r.Ok? ==> r.value == DecodedAs(chain, programs, mint, bank)
    ensures r.Err? ==> !r.error.NoAnswer? && r.error.mint == mint && Explains(chain, programs, bank, r.error)
  {
    var account := chain.banks.value(bank);
    if account.None? {
      return Err(BankNotFound(mint));
    }
    if account.value.owner != programs.marginfi {
      return Err(ForeignOwner(mint));
    }
    var view := chain.decode(account.value.data);
    if view.Err? {
      return Err(Undecodable(mint));
    }
    if view.value.mint != mint {
      return Err(OtherMint(mint));
    }
    var authority := chain.authority(bank, view.value.lvaBump);
    if authority.None? {
      return Err(NoAuthority(mint));
    }
    return Ok(DecodedBank(mint, bank, view.value, authority.value));
  }

  /** One mint of the second pass. */
  method BuildInfo(chain: Chain, programs: Programs, d: DecodedBank) returns (r: Result<BankInfo, ResolveFault>)
    requires chain.mints.Some? && KeepsFilledSlots(chain.decode)
    requires BankBacks(chain, programs, d.mint, d.bank) && d == DecodedAs(chain, programs, d.mint, d.bank)
    ensures r.Ok? <==> Resolvable(chain, programs, d.mint, d.bank)
    ensures r.Ok? ==> r.value == InfoOf(chain, programs, d.mint, d.bank)
    ensures r.Err? ==> !r.error.NoAnswer? && r.error.mint == d.mint && Explains(chain, programs, d.bank, r.error)
  {
    var account := chain.mints.value(d.mint);
    if account.None? {
      return Err(MintNotFound(d.mint));
    }
    var owner := account.value.owner;
    if owner != programs.token && owner != programs.token2022 {
      return Err(UnknownTokenProgram(d.mint));
    }
    if d.view.oracles == [] || |d.view.oracles| > 5 {
      return Err(OracleCount(d.mint));
    }
    return Ok(BankInfo(d.mint, d.bank, d.view.liquidityVault, d.authority, d.view.oracles, owner, d.view.oracleSetup));
  }

  ghost predicate AllResolvable(chain: Chain, programs: Programs, bindings: map<Pubkey, Pubkey>) {
    forall mint <- bindings :: Resolvable(chain, programs, mint, bindings[mint])
  }

  /** The registry has exactly the bound mints, each with its own bank's entry. */
  ghost predicate Resolved(chain: Chain, programs: Programs, bindings: map<Pubkey, Pubkey>, registry: Registry) {
    && registry.Keys == bindings.Keys
    && forall mint <- registry ::
         && Resolvable(chain, programs, mint, bindings[mint])
         && registry[mint] == InfoOf(chain, programs, mint, bindings[mint])
  }

  ghost predicate IsDecoded(chain: Chain, programs: Programs, bindings: map<Pubkey, Pubkey>, d: DecodedBank) {
    d.mint in bindings && d.bank == bindings[d.mint]
    && BankBacks(chain, programs, d.mint, d.bank) && d == DecodedAs(chain, programs, d.mint, d.bank)
  }

  /** The fault is of a listed mint that does not resolve, and says why. */
  ghost predicate IsFault(chain: Chain, programs: Programs, bindings: map<Pubkey, Pubkey>, fault: ResolveFault) {
    && !fault.NoAnswer? && fault.mint in bindings
    && !Resolvable(chain, programs, fault.mint, bindings[fault.mint])
    && Explains(chain, programs, bindings[fault.mint], fault)
  }

  method DecodeBanks(chain: Chain, programs: Programs, bindings: map<Pubkey, Pubkey>, mints: seq<Pubkey>)
    returns (r: Result<seq<DecodedBank>, ResolveFault>)
    requires chain.banks.Some? && forall mint <- mints :: mint in bindings
    ensures r.Ok? ==> |r.value| == |mints| && forall k | 0 <= k < |mints| ::
                        r.value[k].mint == mints[k] && IsDecoded(chain, programs, bindings, r.value[k])
    ensures r.Err? ==> IsFault(chain, programs, bindings, r.error)
  {
    var decoded: seq<DecodedBank> := [];
    for i := 0 to |mints|
      invariant |decoded| == i && forall k | 0 <= k < i ::
                  decoded[k].mint == mints[k] && IsDecoded(chain, programs, bindings, decoded[k])
    {
      var d := DecodeBank(chain, programs, mints[i], bindings[mints[i]]);
      if d.Err? {
        return Err(d.error);
      }
      decoded := decoded + [d.value];
    }
    return Ok(decoded);
  }

  ghost predicate AreEntries(
    chain: Chain, programs: Programs, bindings: map<Pubkey, Pubkey>, mints: seq<Pubkey>, registry: Registry)
  {
    && (forall mint :: mint in registry <==> mint in mints)
    && forall mint <- registry ::
         && mint in bindings && Resolvable(chain, programs, mint, bindings[mint])
         && registry[mint] == InfoOf(chain, programs, mint, bindings[mint])
  }

  lemma AddEntry(
    chain: Chain, programs: Programs, bindings: map<Pubkey, Pubkey>, mints: seq<Pubkey>, registry: Registry, mint: Pubkey)
    requires AreEntries(chain, programs, bindings, mints, registry)
    requires mint in bindings && Resolvable(chain, programs, mint, bindings[mint])
    ensures AreEntries(
              chain, programs, bindings, mints + [mint], registry[mint := InfoOf(chain, programs, mint, bindings[mint])])
  {
  }

  method BuildNext(
    chain: Chain, programs: Programs, ghost bindings: map<Pubkey, Pubkey>, ghost mints: seq<Pubkey>, registry: Registry, d: DecodedBank)
    returns (r: Result<Registry, ResolveFault>)
    requires chain.mints.Some? && KeepsFilledSlots(chain.decode) && IsDecoded(chain, programs, bindings, d)
    requires AreEntries(chain, programs, bindings, mints, registry)
    ensures r.Ok? ==> AreEntries(chain, programs, bindings, mints + [d.mint], r.value)
    ensures r.Err? ==> IsFault(chain, programs, bindings, r.error)
  {
    var info := BuildInfo(chain, programs, d);
    if info.Err? {
      return Err(info.error);
    }
    AddEntry(chain, programs, bindings, mints, registry, d.mint);
    return Ok(registry[d.mint := info.value]);
  }

  method BuildInfos(chain: Chain, programs: Programs, ghost bindings: map<Pubkey, Pubkey>, decoded: seq<DecodedBank>)
    returns (r: Result<Registry, ResolveFault>, ghost mints: seq<Pubkey>)
    requires chain.mints.Some? && KeepsFilledSlots(chain.decode)
    requires forall k | 0 <= k < |decoded| :: IsDecoded(chain, programs, bindings, decoded[k])
    ensures |mints| <= |decoded| && forall k | 0 <= k < |mints| :: mints[k] == decoded[k].mint
    ensures r.Ok? ==> |mints| == |decoded| && AreEntries(chain, programs, bindings, mints, r.value)
    ensures r.Err? ==> IsFault(chain, programs, bindings, r.error)
  {
    var byMint: Registry := map[];
    mints := [];
    for i := 0 to |decoded|
      invariant |mints| == i && forall k | 0 <= k < i :: mints[k] == decoded[k].mint
      invariant AreEntries(chain, programs, bindings, mints, byMint)
    {
      var next := BuildNext(chain, programs, bindings, mints, byMint, decoded[i]);
      if next.Err? {
        return Err(next.error), mints;
      }
      mints, byMint := mints + [decoded[i].mint], next.value;
    }
    return Ok(byMint), mints;
  }

  /** `resolve_from_chain`: banks first, then mints, in the order of the mint keys. */
  method ResolveFromChain(chain: Chain, programs: Programs, bindings: map<Pubkey, Pubkey>)
    returns (result: Result<Registry, ResolveFault>)
    requires KeepsFilledSlots(chain.decode)
    ensures result.Ok? <==> bindings == map[] || AllResolvable(chain, programs, bindings)
    ensures result.Ok? ==> Resolved(chain, programs, bindings, result.value) && WellFormed(result.value)
    ensures result.Err? ==>
              if result.error.NoAnswer? then chain.banks.None? || chain.mints.None?
              else IsFault(chain, programs, bindings, result.error)
  {
    if bindings == map[] {
      return Ok(map[]);
    }
    var mint0 :| mint0 in bindings;
    var mints := SortedKeys(bindings.Keys);
    if chain.banks.None? {
      assert !Resolvable(chain, programs, mint0, bindings[mint0]);
      return Err(NoAnswer);
    }
    var decoded := DecodeBanks(chain, programs, bindings, mints);
    if decoded.Err? {
      return Err(decoded.error);
    }
    if chain.mints.None? {
      assert !Resolvable(chain, programs, mint0, bindings[mint0]);
      return Err(NoAnswer);
    }
    ghost var built;
    result, built := BuildInfos(chain, programs, bindings, decoded.value);
    if result.Ok? {
      assert built == mints;
      ResolvedIsWellFormed(chain, programs, bindings, result.value);
    }
  }

  lemma ResolvedIsWellFormed(chain: Chain, programs: Programs, bindings: map<Pubkey, Pubkey>, registry: Registry)
    requires KeepsFilledSlots(chain.decode) && Resolved(chain, programs, bindings, registry)
    ensures WellFormed(registry)
  {
    forall mint | mint in registry
      ensures registry[mint].mint == mint && 1 <= |registry[mint].oracles| <= 5 && DefaultKey() !in registry[mint].oracles
    {
      assert chain.decode(chain.banks.value(bindings[mint]).value.data).Ok?;
    }
  }

  /**
  An entry by its fields: the bank account is marginfi's and decodes to a view of this mint; the
  vault and the oracles are the view's, the authority is the one derived with the view's bump, and
  the token program is the mint account's owner.
  */
  ghost predicate IsEntry(chain: Chain, programs: Programs, mint: Pubkey, bank: Pubkey, info: BankInfo) {
    && info.mint == mint && info.bank == bank
    && chain.banks.Some? && chain.banks.value(bank).Some?
    && chain.banks.value(bank).value.owner == programs.marginfi
    && chain.decode(chain.banks.value(bank).value.data).Ok?
    && var view := chain.decode(chain.banks.value(bank).value.data).value;
    && view.mint == mint
    && info.liquidityVault == view.liquidityVault
    && chain.authority(bank, view.lvaBump) == Some(info.liquidityVaultAuthority)
    && info.oracles == view.oracles && view.oracles != []
    && info.oracleSetup == view.oracleSetup
    && chain.mints.Some? && chain.mints.value(mint).Some?
    && info.tokenProgram == chain.mints.value(mint).value.owner
    && (info.tokenProgram == programs.token || info.tokenProgram == programs.token2022)
  }

  lemma InfoIsEntry(chain: Chain, programs: Programs, mint: Pubkey, bank: Pubkey)
    ensures Resolvable(chain, programs, mint, bank) ==> IsEntry(chain, programs, mint, bank, InfoOf(chain, programs, mint, bank))
  {
  }

  /** The pair resolves exactly if there is such an entry for it. */
  lemma ResolvesExactly(chain: Chain, programs: Programs, mint: Pubkey, bank: Pubkey)
    ensures Resolvable(chain, programs, mint, bank) <==> exists info :: IsEntry(chain, programs, mint, bank, info)
  {
    InfoIsEntry(chain, programs, mint, bank);
    if info :| IsEntry(chain, programs, mint, bank, info) {
      assert Resolvable(chain, programs, mint, bank);
    }
  }

  /** Every bound mint has its entry in a resolved registry, with its fields from its own accounts. */
  lemma ResolvedByField(chain: Chain, programs: Programs, bindings: map<Pubkey, Pubkey>, registry: Registry, mint: Pubkey)
    requires Resolved(chain, programs, bindings, registry) && mint in bindings
    ensures mint in registry && IsEntry(chain, programs, mint, bindings[mint], registry[mint])
  {
    InfoIsEntry(chain, programs, mint, bindings[mint]);
  }

  // ---- Discovery as a whole ----

  datatype DiscoverFault = NoMarkets | Disagreement(market: nat) | Unresolved(fault: ResolveFault) | Poisoned

  /** What the node returns while a registry is discovered; `markets` is the result of `refresh_markets`. */
  datatype Answers = Answers(
    markets: Option<seq<MarketView>>,
    banks: Option<Pubkey -> Option<Account>>,
    mints: Option<Pubkey -> Option<Account>>,
    authority: (Pubkey, byte) -> Option<Pubkey>)

  function ChainOf(answers: Answers, decode: Decoder): Chain {
    Chain(answers.banks, answers.mints, answers.authority, decode)
  }

  /** The registry has an entry for exactly the mints of the markets, each what its bound bank resolves to. */
  ghost predicate Discovered(answers: Answers, programs: Programs, decode: Decoder, registry: Registry)
    requires answers.markets.Some?
  {
    && (forall mint :: mint in registry <==> exists bank :: Binds(answers.markets.value, mint, bank))
    && forall mint, bank | mint in registry && Binds(answers.markets.value, mint, bank) ::
         && Resolvable(ChainOf(answers, decode), programs, mint, bank)
         && registry[mint] == InfoOf(ChainOf(answers, decode), programs, mint, bank)
  }

  lemma ResolvedIsDiscovered(
    answers: Answers, programs: Programs, decode: Decoder, bindings: map<Pubkey, Pubkey>, registry: Registry)
    requires answers.markets.Some? && IsBindingOf(answers.markets.value, bindings)
    requires Resolved(ChainOf(answers, decode), programs, bindings, registry)
    ensures Discovered(answers, programs, decode, registry)
  {
    var markets := answers.markets.value;
    forall mint
      ensures mint in registry <==> exists bank :: Binds(markets, mint, bank)
    {
      if mint in registry {
        assert Maps(bindings, mint, bindings[mint]);
      }
      if bank :| Binds(markets, mint, bank) {
        assert Maps(bindings, mint, bank);
      }
    }
    forall mint, bank | mint in registry && Binds(markets, mint, bank)
      ensures bindings[mint] == bank
    {
      assert Maps(bindings, mint, bank);
    }
  }

  /** Every bound pair resolves. */
  ghost predicate AllBoundResolve(answers: Answers, programs: Programs, decode: Decoder)
    requires answers.markets.Some?
  {
    forall mint, bank | Binds(answers.markets.value, mint, bank) :: Resolvable(ChainOf(answers, decode), programs, mint, bank)
  }

  lemma BindingsResolveTogether(answers: Answers, programs: Programs, decode: Decoder, bindings: map<Pubkey, Pubkey>)
    requires answers.markets.Some? && IsBindingOf(answers.markets.value, bindings)
    ensures AllResolvable(ChainOf(answers, decode), programs, bindings) <==> AllBoundResolve(answers, programs, decode)
  {
    var chain, markets := ChainOf(answers, decode), answers.markets.value;
    if AllResolvable(chain, programs, bindings) {
      forall mint, bank | Binds(markets, mint, bank)
        ensures Resolvable(chain, programs, mint, bank)
      {
        assert Maps(bindings, mint, bank);
      }
    }
    if AllBoundResolve(answers, programs, decode) {
      forall mint | mint in bindings
        ensures Resolvable(chain, programs, mint, bindings[mint])
      {
        assert Maps(bindings, mint, bindings[mint]);
      }
    }
  }

  /** The registry has this mint's entry, from the accounts of this bank. */
  ghost predicate Enters(answers: Answers, programs: Programs, decode: Decoder, registry: Registry, mint: Pubkey, bank: Pubkey) {
    mint in registry && IsEntry(ChainOf(answers, decode), programs, mint, bank, registry[mint])
  }

  lemma BoundEnters(answers: Answers, programs: Programs, decode: Decoder, registry: Registry, mint: Pubkey, bank: Pubkey)
    requires answers.markets.Some? && Discovered(answers, programs, decode, registry)
    requires Binds(answers.markets.value, mint, bank)
    ensures Enters(answers, programs, decode, registry, mint, bank)
  {
    InfoIsEntry(ChainOf(answers, decode), programs, mint, bank);
  }

  /** A discovered registry by its markets: each of them enters both its mints, each with its own bank. */
  lemma DiscoveredByField(answers: Answers, programs: Programs, decode: Decoder, registry: Registry, m: MarketView)
    requires answers.markets.Some? && Discovered(answers, programs, decode, registry) && m in answers.markets.value
    ensures Enters(answers, programs, decode, registry, m.debtMint, m.debtBank)
    ensures Enters(answers, programs, decode, registry, m.collateralMint, m.collateralBank)
  {
    assert BindsIn(m, m.debtMint, m.debtBank) && BindsIn(m, m.collateralMint, m.collateralBank);
    BoundEnters(answers, programs, decode, registry, m.debtMint, m.debtBank);
    BoundEnters(answers, programs, decode, registry, m.collateralMint, m.collateralBank);
  }

  /** And nothing else is entered. */
  lemma EnteredByMarket(answers: Answers, programs: Programs, decode: Decoder, registry: Registry, mint: Pubkey)
    returns (m: MarketView)
    requires answers.markets.Some? && Discovered(answers, programs, decode, registry) && mint in registry
    ensures m in answers.markets.value && (mint == m.debtMint || mint == m.collateralMint)
  {
    var bank :| Binds(answers.markets.value, mint, bank);
    m :| m in answers.markets.value && BindsIn(m, mint, bank);
  }

  ghost predicate Discoverable(answers: Answers, programs: Programs, decode: Decoder) {
    answers.markets.Some? && Consistent(answers.markets.value) && AllBoundResolve(answers, programs, decode)
  }

  /** `discover_from_markets`: it succeeds exactly when the markets agree and every bound pair resolves. */
  method DiscoverFromMarkets(answers: Answers, programs: Programs, decode: Decoder)
    returns (result: Result<Registry, DiscoverFault>)
    requires KeepsFilledSlots(decode)
    ensures result.Ok? <==> Discoverable(answers, programs, decode)
    ensures result == Err(NoMarkets) <==> answers.markets.None?
    ensures result != Err(Poisoned)
    ensures result.Err? && result.error.Disagreement? <==> answers.markets.Some? && !Consistent(answers.markets.value)
    ensures result.Ok? ==> Discovered(answers, programs, decode, result.value) && WellFormed(result.value)
  {
    if answers.markets.None? {
      return Err(NoMarkets);
    }
    if answers.markets.value == [] {
      return Ok(map[]);
    }
    var bindings := BindBanks(answers.markets.value);
    if bindings.Err? {
      return Err(Disagreement(bindings.error));
    }
    BindingsResolveTogether(answers, programs, decode, bindings.value);
    var resolved := ResolveFromChain(ChainOf(answers, decode), programs, bindings.value);
    if resolved.Err? {
      return Err(Unresolved(resolved.error));
    }
    ResolvedIsDiscovered(answers, programs, decode, bindings.value, resolved.value);
    return Ok(resolved.value);
  }

  // ---- Refreshes ----

  /** The state after one refresh; `None` is a failed discovery. Entries already there win. */
  function AfterRefresh(registry: Registry, outcome: Option<Registry>): Registry {
    match outcome
    case None => registry
    case Some(discovered) => discovered + registry
  }

  function AfterRefreshes(registry: Registry, outcomes: seq<Option<Registry>>): Registry {
    if outcomes == [] then registry
    else AfterRefresh(AfterRefreshes(registry, outcomes[..|outcomes| - 1]), outcomes[|outcomes| - 1])
  }

  /** The outcomes before `k` know nothing of the mint, and outcome `k` does. */
  ghost predicate FirstToFind(outcomes: seq<Option<Registry>>, k: nat, mint: Pubkey) {
    && k < |outcomes| && outcomes[k].Some? && mint in outcomes[k].value
    && forall j | 0 <= j < k :: outcomes[j].Some? ==> mint !in outcomes[j].value
  }

  /**
  Over any run of refreshes, empty, failing or successful: an entry never changes, and a new mint
  gets the entry of the first discovery that found it.
  */
  lemma {:induction false} EntriesAreForever(registry: Registry, outcomes: seq<Option<Registry>>, mint: Pubkey)
    ensures mint in registry ==>
              mint in AfterRefreshes(registry, outcomes) && AfterRefreshes(registry, outcomes)[mint] == registry[mint]
    ensures mint !in registry && mint in AfterRefreshes(registry, outcomes) ==>
              exists k: nat :: FirstToFind(outcomes, k, mint) && AfterRefreshes(registry, outcomes)[mint] == outcomes[k].value[mint]
    ensures mint !in AfterRefreshes(registry, outcomes) ==>
              forall j | 0 <= j < |outcomes| :: outcomes[j].Some? ==> mint !in outcomes[j].value
  {
    if outcomes != [] {
      var n := |outcomes| - 1;
      var earlier := outcomes[..n];
      EntriesAreForever(registry, earlier, mint);
      if mint !in registry && mint in AfterRefreshes(registry, earlier) {
        var k: nat :| FirstToFind(earlier, k, mint) && AfterRefreshes(registry, earlier)[mint] == earlier[k].value[mint];
        assert FirstToFind(outcomes, k, mint);
      } else if mint !in registry && mint in AfterRefreshes(registry, outcomes) {
        assert FirstToFind(outcomes, n, mint);
      }
    }
  }

  lemma RefreshKeepsWellFormed(registry: Registry, found: Registry)
    requires WellFormed(registry) && WellFormed(found)
    ensures WellFormed(AfterRefresh(registry, Some(found)))
    ensures found == map[] ==> AfterRefresh(registry, Some(found)) == registry
  {
  }

  /** The registry stays well formed over any run. */
  lemma {:induction false} StaysWellFormed(registry: Registry, outcomes: seq<Option<Registry>>)
    requires WellFormed(registry)
    requires forall k | 0 <= k < |outcomes| :: outcomes[k].Some? ==> WellFormed(outcomes[k].value)
    ensures WellFormed(AfterRefreshes(registry, outcomes))
    ensures registry.Keys <= AfterRefreshes(registry, outcomes).Keys
  {
    if outcomes != [] {
      StaysWellFormed(registry, outcomes[..|outcomes| - 1]);
    }
  }

  // ---- The pull oracles ----

  predicate HasPull(registry: Registry) {
    exists mint <- registry :: registry[mint].IsSwitchboardPull()
  }

  ghost predicate IsPullOracle(registry: Registry, key: Pubkey) {
    exists mint <- registry :: registry[mint].IsSwitchboardPull() && registry[mint].PrimaryOracle() == key
  }

  /** The strictly increasing list of the primary oracles of all pull banks. */
  ghost predicate IsPullList(registry: Registry, keys: seq<Pubkey>) {
    StrictlyIncreasing(keys) && forall key :: key in keys <==> IsPullOracle(registry, key)
  }

  /** There is only one such list, whatever the order in which the map iterates. */
  lemma PullListIsUnique(registry: Registry, a: seq<Pubkey>, b: seq<Pubkey>)
    requires IsPullList(registry, a) && IsPullList(registry, b)
    ensures a == b
  {
    IncreasingIsUnique(a, b);
  }

  /** The list is empty exactly when there is no pull bank, and never names the zero key in a well-formed registry. */
  lemma PullListIsUseful(registry: Registry, keys: seq<Pubkey>)
    requires IsPullList(registry, keys)
    ensures keys != [] <==> HasPull(registry)
    ensures WellFormed(registry) ==> DefaultKey() !in keys
    ensures WellFormed(registry) ==> forall key ::
              key in keys <==> exists mint <- registry :: registry[mint].oracleSetup == 4 && registry[mint].oracles[0] == key
  {
    if keys != [] {
      assert IsPullOracle(registry, keys[0]);
    }
    assert forall key :: key in keys <==> IsPullOracle(registry, key);
    if mint :| mint in registry && registry[mint].IsSwitchboardPull() {
      assert IsPullOracle(registry, registry[mint].PrimaryOracle());
    }
  }

  /** `now` is `before` with the listed entries of `other` that it lacked. */
  ghost predicate MergedUpTo(before: Registry, other: Registry, mints: seq<Pubkey>, now: Registry) {
    && (forall mint <- mints :: mint in other)
    && (forall mint :: mint in now <==> mint in before || mint in mints)
    && forall mint <- now :: now[mint] == if mint in before then before[mint] else other[mint]
  }

  lemma MergedIsUnion(before: Registry, other: Registry, mints: seq<Pubkey>, now: Registry)
    requires MergedUpTo(before, other, mints, now) && forall mint <- other :: mint in mints
    ensures now == other + before
  {
  }

  class BankRegistry {
    var byMint: Registry

    constructor ()
      ensures byMint == map[]
    {
      byMint := map[];
    }

    /** `merge_from`: the left-biased union. */
    method MergeFrom(other: Registry)
      modifies this
      ensures byMint == other + old(byMint)
    {
      var order := Enumerate(other.Keys);
      ghost var before := byMint;
      for i := 0 to |order|
        invariant MergedUpTo(before, other, order[..i], byMint)
      {
        assert order[..i + 1] == order[..i] + [order[i]];
        if order[i] !in byMint {
          byMint := byMint[order[i] := other[order[i]]];
        }
      }
      assert order[..|order|] == order;
      MergedIsUnion(before, other, order, byMint);
    }

    /** `switchboard_pull_oracles` */
    method SwitchboardPullOracles() returns (out: seq<Pubkey>)
      ensures IsPullList(byMint, out)
    {
      var order := Enumerate(byMint.Keys);
      out := [];
      for i := 0 to |order|
        invariant forall key :: key in out <==>
          exists k | 0 <= k < i :: byMint[order[k]].IsSwitchboardPull() && byMint[order[k]].PrimaryOracle() == key
      {
        if byMint[order[i]].IsSwitchboardPull() {
          out := out + [byMint[order[i]].PrimaryOracle()];
        }
      }
      forall key
        ensures key in out <==> IsPullOracle(byMint, key)
      {
        if mint :| mint in byMint && byMint[mint].IsSwitchboardPull() && byMint[mint].PrimaryOracle() == key {
          assert mint in order;
        }
      }
      SortDedup(out);
      out := Dedup(Sort(out));
    }
  }

  /** The shared registry of `config.rs`, behind a lock that is healthy until a holder panics. */
  class Config {
    const banks: BankRegistry
    const programs: Programs
    const decode: Decoder
    var healthy: bool

    constructor (programs: Programs)
      ensures Valid() && fresh(banks) && banks.byMint == map[] && healthy
      ensures this.programs == programs && decode == BankAccount.Decode
    {
      banks := new BankRegistry();
      this.programs := programs;
      decode := BankAccount.Decode;
      healthy := true;
      BankDecoderKeepsFilledSlots();
    }

    ghost predicate Valid()
      reads banks
    {
      KeepsFilledSlots(decode) && WellFormed(banks.byMint)
    }

    /** `discover_banks_from_markets`, at boot: the registry is replaced. */
    method DiscoverBanksFromMarkets(answers: Answers) returns (fault: Option<DiscoverFault>)
      requires Valid()
      modifies banks
      ensures Valid()
      ensures fault.None? <==> Discoverable(answers, programs, decode) && healthy
      ensures fault == Some(Poisoned) <==> Discoverable(answers, programs, decode) && !healthy
      ensures if fault.None? then Discovered(answers, programs, decode, banks.byMint) else banks.byMint == old(banks.byMint)
    {
      var discovered := DiscoverFromMarkets(answers, programs, decode);
      if discovered.Err? {
        return Some(discovered.error);
      }
      if !healthy {
        return Some(Poisoned);
      }
      banks.byMint := discovered.value;
      return None;
    }

    /**
    `refresh_banks`: the registry is merged into, never replaced. `found` is what discovery gave; a
    broken lock only matters, and then fails the refresh, when there is something to merge.
    */
    method RefreshBanks(answers: Answers) returns (fault: Option<DiscoverFault>, ghost found: Option<Registry>)
      requires Valid()
      modifies banks
      ensures Valid() && banks.byMint == AfterRefresh(old(banks.byMint), if fault.None? then found else None)
      ensures found.Some? <==> Discoverable(answers, programs, decode)
      ensures fault.None? <==> found.Some? && (healthy || found.value == map[])
      ensures fault == Some(Poisoned) <==> found.Some? && !healthy && found.value != map[]
      ensures found.Some? ==> WellFormed(found.value) && Discovered(answers, programs, decode, found.value)
    {
      var discovered := DiscoverFromMarkets(answers, programs, decode);
      if discovered.Err? {
        return Some(discovered.error), None;
      }
      found := Some(discovered.value);
      RefreshKeepsWellFormed(banks.byMint, discovered.value);
      if discovered.value == map[] {
        return None, found;
      }
      if !healthy {
        return Some(Poisoned), found;
      }
      banks.MergeFrom(discovered.value);
      return None, found;
    }

    /** `banks_snapshot`: a broken lock reads as an empty registry. */
    method BanksSnapshot() returns (snapshot: Registry)
      ensures snapshot == if healthy then banks.byMint else map[]
    {
      if !healthy {
        return map[];
      }
      return banks.byMint;
    }
  }
}
