/** The fixed-offset decoder of marginfi Bank accounts, `marginfi_bank.rs`. */
module BankAccount {
  import opened Prelude
  import opened LittleEndian

  const DISCRIMINATOR_LEN := 8
  const BANK_ACCOUNT_SIZE := 1864
  const BANK_BODY_SIZE := 1856
  const BANK_DISCRIMINATOR: seq<byte> := [142, 49, 166, 242, 50, 66, 97, 188]

  const OFF_MINT := 0
  const OFF_ASSET_SHARE_VALUE := 72
  const OFF_LIABILITY_SHARE_VALUE := 88
  const OFF_LIQUIDITY_VAULT := 104
  const OFF_LVA_BUMP := 137
  const OFF_TOTAL_LIABILITY_SHARES := 248
  const OFF_TOTAL_ASSET_SHARES := 264
  const BANK_CONFIG_OFFSET := 288
  const OFF_INTEREST_RATE_CONFIG := BANK_CONFIG_OFFSET + 72
  const OFF_OPTIMAL_UTIL := OFF_INTEREST_RATE_CONFIG
  const OFF_PLATEAU := OFF_INTEREST_RATE_CONFIG + 16
  const OFF_MAX_IR := OFF_INTEREST_RATE_CONFIG + 32
  const OFF_PROTOCOL_IR_FEE := OFF_INTEREST_RATE_CONFIG + 96
  const OFF_ZERO_UTIL_RATE := OFF_INTEREST_RATE_CONFIG + 128
  const OFF_HUNDRED_UTIL_RATE := OFF_INTEREST_RATE_CONFIG + 132
  const OFF_POINTS := OFF_INTEREST_RATE_CONFIG + 136
  const OFF_CURVE_TYPE := OFF_INTEREST_RATE_CONFIG + 176
  const NUM_CURVE_POINTS := 5
  const OFF_ORACLE_SETUP := BANK_CONFIG_OFFSET + 313
  const OFF_ORACLE_KEYS := BANK_CONFIG_OFFSET + 314
  const MAX_ORACLE_KEYS := 5

  datatype DecodeError = TooSmall | NotABank

  datatype BankView = BankView(
    mint: Pubkey,
    liquidityVault: Pubkey,
    lvaBump: byte,
    assetShareValue: i128,
    liabilityShareValue: i128,
    totalAssetShares: i128,
    totalLiabilityShares: i128,
    optimalUtilization: i128,
    plateauInterestRate: i128,
    maxInterestRate: i128,
    protocolIrFee: i128,
    curveType: byte,
    zeroUtilRate: u32,
    hundredUtilRate: u32,
    points: seq<(u32, u32)>,
    oracleSetup: byte,
    oracles: seq<Pubkey>)

  type Body = b: seq<byte> | |b| == BANK_BODY_SIZE witness seq(BANK_BODY_SIZE, i => 0)

  function ReadPubkey(body: Body, off: nat): Pubkey
    requires off + 32 <= BANK_BODY_SIZE
  {
    body[off..off + 32]
  }

  function ReadI128(body: Body, off: nat): i128
    requires off + 16 <= BANK_BODY_SIZE
  {
    SignedFromLE(body[off..off + 16])
  }

  function ReadU32(body: Body, off: nat): u32
    requires off + 4 <= BANK_BODY_SIZE
  {
    U32FromLE(body[off..off + 4])
  }

  function PointAt(body: Body, i: nat): (u32, u32)
    requires i < NUM_CURVE_POINTS
  {
    (ReadU32(body, OFF_POINTS + i * 8), ReadU32(body, OFF_POINTS + i * 8 + 4))
  }

  function Points(body: Body): (points: seq<(u32, u32)>)
    ensures |points| == NUM_CURVE_POINTS
  {
    [PointAt(body, 0), PointAt(body, 1), PointAt(body, 2), PointAt(body, 3), PointAt(body, 4)]
  }

  function OracleSlot(body: Body, i: nat): Pubkey
    requires i < MAX_ORACLE_KEYS
  {
    ReadPubkey(body, OFF_ORACLE_KEYS + i * 32)
  }

  /** The non-zero slots among the first n, in order. */
  function OraclesUpTo(body: Body, n: nat): seq<Pubkey>
    requires n <= MAX_ORACLE_KEYS
  {
    if n == 0 then []
    else if OracleSlot(body, n - 1) == DefaultKey() then OraclesUpTo(body, n - 1)
    else OraclesUpTo(body, n - 1) + [OracleSlot(body, n - 1)]
  }

  function DecodeBody(body: Body): BankView {
    BankView(
      ReadPubkey(body, OFF_MINT),
      ReadPubkey(body, OFF_LIQUIDITY_VAULT),
      body[OFF_LVA_BUMP],
      ReadI128(body, OFF_ASSET_SHARE_VALUE),
      ReadI128(body, OFF_LIABILITY_SHARE_VALUE),
      ReadI128(body, OFF_TOTAL_ASSET_SHARES),
      ReadI128(body, OFF_TOTAL_LIABILITY_SHARES),
      ReadI128(body, OFF_OPTIMAL_UTIL),
      ReadI128(body, OFF_PLATEAU),
      ReadI128(body, OFF_MAX_IR),
      ReadI128(body, OFF_PROTOCOL_IR_FEE),
      body[OFF_CURVE_TYPE],
      ReadU32(body, OFF_ZERO_UTIL_RATE),
      ReadU32(body, OFF_HUNDRED_UTIL_RATE),
      Points(body),
      body[OFF_ORACLE_SETUP],
      OraclesUpTo(body, MAX_ORACLE_KEYS))
  }

  function Decode(data: seq<byte>): Result<BankView, DecodeError> {
    if |data| < BANK_ACCOUNT_SIZE then Err(TooSmall)
    else if data[..DISCRIMINATOR_LEN] != BANK_DISCRIMINATOR then Err(NotABank)
    else Ok(DecodeBody(data[DISCRIMINATOR_LEN..DISCRIMINATOR_LEN + BANK_BODY_SIZE]))
  }

  /** The curve points, filled in place. */
  method FillPoints(body: Body) returns (points: seq<(u32, u32)>)
    ensures points == Points(body)
  {
    var slots := new (u32, u32)[NUM_CURVE_POINTS](_ => (0, 0));
    for i := 0 to NUM_CURVE_POINTS
      invariant forall k | 0 <= k < i :: slots[k] == PointAt(body, k)
    {
      slots[i] := (ReadU32(body, OFF_POINTS + i * 8), ReadU32(body, OFF_POINTS + i * 8 + 4));
    }
    points := slots[..];
  }

  /** The oracles, pushed one by one. */
  method PushOracles(body: Body) returns (oracles: seq<Pubkey>)
    ensures oracles == OraclesUpTo(body, MAX_ORACLE_KEYS)
  {
    oracles := [];
    for i := 0 to MAX_ORACLE_KEYS
      invariant oracles == OraclesUpTo(body, i)
    {
      var pk := ReadPubkey(body, OFF_ORACLE_KEYS + i * 32);
      if pk != DefaultKey() {
        oracles := oracles + [pk];
      }
    }
  }

  /** `try_from_account_data` */
  method TryFromAccountData(data: seq<byte>) returns (r: Result<BankView, DecodeError>)
    ensures r == Decode(data)
  {
    if |data| < BANK_ACCOUNT_SIZE {
      return Err(TooSmall);
    }
    if data[..DISCRIMINATOR_LEN] != BANK_DISCRIMINATOR {
      return Err(NotABank);
    }
    var body: Body := data[DISCRIMINATOR_LEN..DISCRIMINATOR_LEN + BANK_BODY_SIZE];
    var points := FillPoints(body);
    var oracles := PushOracles(body);
    r := Ok(DecodeBody(body).(points := points, oracles := oracles));
  }

  // ---- The inverse encoder ----

  /** What the decoder can return: five points, and at most five non-zero oracles. */
  ghost predicate Encodable(v: BankView) {
    |v.points| == NUM_CURVE_POINTS && |v.oracles| <= MAX_ORACLE_KEYS && DefaultKey() !in v.oracles
  }

  function KeyOrDefault(keys: seq<Pubkey>, i: nat): Pubkey {
    if i < |keys| then keys[i] else DefaultKey()
  }

  function PointBytes(p: (u32, u32)): (bytes: seq<byte>)
    ensures |bytes| == 8
  {
    ToLE(p.0, 4) + ToLE(p.1, 4)
  }

  /** The field a byte of the body belongs to, and what the view says it holds. */
  function FieldByte(v: BankView, i: nat): Option<byte>
    requires |v.points| == NUM_CURVE_POINTS && i < BANK_BODY_SIZE
  {
    if i < 32 then Some(v.mint[i])
    else if OFF_ASSET_SHARE_VALUE <= i < OFF_ASSET_SHARE_VALUE + 16 then
      Some(SignedToLE(v.assetShareValue)[i - OFF_ASSET_SHARE_VALUE])
    else if OFF_LIABILITY_SHARE_VALUE <= i < OFF_LIABILITY_SHARE_VALUE + 16 then
      Some(SignedToLE(v.liabilityShareValue)[i - OFF_LIABILITY_SHARE_VALUE])
    else if OFF_LIQUIDITY_VAULT <= i < OFF_LIQUIDITY_VAULT + 32 then Some(v.liquidityVault[i - OFF_LIQUIDITY_VAULT])
    else if i == OFF_LVA_BUMP then Some(v.lvaBump)
    else if OFF_TOTAL_LIABILITY_SHARES <= i < OFF_TOTAL_LIABILITY_SHARES + 16 then
      Some(SignedToLE(v.totalLiabilityShares)[i - OFF_TOTAL_LIABILITY_SHARES])
    else if OFF_TOTAL_ASSET_SHARES <= i < OFF_TOTAL_ASSET_SHARES + 16 then
      Some(SignedToLE(v.totalAssetShares)[i - OFF_TOTAL_ASSET_SHARES])
    else if OFF_OPTIMAL_UTIL <= i < OFF_OPTIMAL_UTIL + 16 then Some(SignedToLE(v.optimalUtilization)[i - OFF_OPTIMAL_UTIL])
    else if OFF_PLATEAU <= i < OFF_PLATEAU + 16 then Some(SignedToLE(v.plateauInterestRate)[i - OFF_PLATEAU])
    else if OFF_MAX_IR <= i < OFF_MAX_IR + 16 then Some(SignedToLE(v.maxInterestRate)[i - OFF_MAX_IR])
    else if OFF_PROTOCOL_IR_FEE <= i < OFF_PROTOCOL_IR_FEE + 16 then
      Some(SignedToLE(v.protocolIrFee)[i - OFF_PROTOCOL_IR_FEE])
    else if OFF_ZERO_UTIL_RATE <= i < OFF_ZERO_UTIL_RATE + 4 then Some(ToLE(v.zeroUtilRate, 4)[i - OFF_ZERO_UTIL_RATE])
    else if OFF_HUNDRED_UTIL_RATE <= i < OFF_HUNDRED_UTIL_RATE + 4 then
      Some(ToLE(v.hundredUtilRate, 4)[i - OFF_HUNDRED_UTIL_RATE])
    else if OFF_POINTS <= i < OFF_POINTS + 8 * NUM_CURVE_POINTS then
      Some(PointBytes(v.points[(i - OFF_POINTS) / 8])[(i - OFF_POINTS) % 8])
    else if i == OFF_CURVE_TYPE then Some(v.curveType)
    else if i == OFF_ORACLE_SETUP then Some(v.oracleSetup)
    else if OFF_ORACLE_KEYS <= i < OFF_ORACLE_KEYS + 32 * MAX_ORACLE_KEYS then
      Some(KeyOrDefault(v.oracles, (i - OFF_ORACLE_KEYS) / 32)[(i - OFF_ORACLE_KEYS) % 32])
    else None
  }

  /** The view written into any background. */
  function EncodeInto(background: Body, v: BankView): Body
    requires |v.points| == NUM_CURVE_POINTS
  {
    seq(BANK_BODY_SIZE, i requires 0 <= i < BANK_BODY_SIZE =>
      match FieldByte(v, i) case Some(b) => b case None => background[i])
  }

  /** The bytes of `v` at `off` are `bytes`, so the encoding reads back as them. */
  lemma ReadBack(background: Body, v: BankView, off: nat, bytes: seq<byte>)
    requires |v.points| == NUM_CURVE_POINTS && off + |bytes| <= BANK_BODY_SIZE
    requires forall k | 0 <= k < |bytes| :: FieldByte(v, off + k) == Some(bytes[k])
    ensures EncodeInto(background, v)[off..off + |bytes|] == bytes
  {
    var body := EncodeInto(background, v);
    forall k | 0 <= k < |bytes|
      ensures body[off + k] == bytes[k]
    {
      assert FieldByte(v, off + k) == Some(bytes[k]);
    }
  }

  lemma ReadBackI128(background: Body, v: BankView, off: nat, n: i128)
    requires |v.points| == NUM_CURVE_POINTS && off + 16 <= BANK_BODY_SIZE
    requires forall k | 0 <= k < 16 :: FieldByte(v, off + k) == Some(SignedToLE(n)[k])
    ensures ReadI128(EncodeInto(background, v), off) == n
  {
    ReadBack(background, v, off, SignedToLE(n));
    SignedFromTo(n);
  }

  lemma ReadBackU32(background: Body, v: BankView, off: nat, n: u32)
    requires |v.points| == NUM_CURVE_POINTS && off + 4 <= BANK_BODY_SIZE
    requires forall k | 0 <= k < 4 :: FieldByte(v, off + k) == Some(ToLE(n, 4)[k])
    ensures ReadU32(EncodeInto(background, v), off) == n
  {
    ReadBack(background, v, off, ToLE(n, 4));
    PowersOf256();
    FromTo(n, 4);
  }

  lemma PointByte(v: BankView, i: nat, k: nat)
    requires |v.points| == NUM_CURVE_POINTS && i < NUM_CURVE_POINTS && k < 8
    ensures FieldByte(v, OFF_POINTS + i * 8 + k) == Some(PointBytes(v.points[i])[k])
  {
    assert (i * 8 + k) / 8 == i && (i * 8 + k) % 8 == k;
  }

  lemma ReadBackUtil(background: Body, v: BankView, i: nat)
    requires |v.points| == NUM_CURVE_POINTS && i < NUM_CURVE_POINTS
    ensures ReadU32(EncodeInto(background, v), OFF_POINTS + i * 8) == v.points[i].0
  {
    forall k | 0 <= k < 4
      ensures FieldByte(v, OFF_POINTS + i * 8 + k) == Some(ToLE(v.points[i].0, 4)[k])
    {
      PointByte(v, i, k);
    }
    ReadBackU32(background, v, OFF_POINTS + i * 8, v.points[i].0);
  }

  lemma ReadBackRate(background: Body, v: BankView, i: nat)
    requires |v.points| == NUM_CURVE_POINTS && i < NUM_CURVE_POINTS
    ensures ReadU32(EncodeInto(background, v), OFF_POINTS + i * 8 + 4) == v.points[i].1
  {
    forall k | 0 <= k < 4
      ensures FieldByte(v, OFF_POINTS + i * 8 + 4 + k) == Some(ToLE(v.points[i].1, 4)[k])
    {
      PointByte(v, i, 4 + k);
    }
    ReadBackU32(background, v, OFF_POINTS + i * 8 + 4, v.points[i].1);
  }

  lemma ReadBackPoint(background: Body, v: BankView, i: nat)
    requires |v.points| == NUM_CURVE_POINTS && i < NUM_CURVE_POINTS
    ensures PointAt(EncodeInto(background, v), i) == v.points[i]
  {
    ReadBackUtil(background, v, i);
    ReadBackRate(background, v, i);
  }

  lemma ReadBackOracle(background: Body, v: BankView, i: nat)
    requires |v.points| == NUM_CURVE_POINTS && i < MAX_ORACLE_KEYS
    ensures OracleSlot(EncodeInto(background, v), i) == KeyOrDefault(v.oracles, i)
  {
    var off := OFF_ORACLE_KEYS + i * 32;
    forall k | 0 <= k < 32
      ensures FieldByte(v, off + k) == Some(KeyOrDefault(v.oracles, i)[k])
    {
      assert (off + k - OFF_ORACLE_KEYS) / 32 == i && (off + k - OFF_ORACLE_KEYS) % 32 == k;
    }
    ReadBack(background, v, off, KeyOrDefault(v.oracles, i));
  }

  /** Slots filled from the front decode to the keys they were filled with. */
  lemma {:induction false} OraclesOfFilledSlots(body: Body, keys: seq<Pubkey>, n: nat)
    requires n <= MAX_ORACLE_KEYS && |keys| <= MAX_ORACLE_KEYS
    requires forall i | 0 <= i < |keys| :: keys[i] != DefaultKey()
    requires forall i | 0 <= i < MAX_ORACLE_KEYS :: OracleSlot(body, i) == KeyOrDefault(keys, i)
    ensures OraclesUpTo(body, n) == keys[..Min(n, |keys|)]
  {
    if n > 0 {
      OraclesOfFilledSlots(body, keys, n - 1);
      var last := OracleSlot(body, n - 1);
      if n <= |keys| {
        assert last == keys[n - 1];
        assert keys[..n] == keys[..n - 1] + [last];
      }
    }
  }

  lemma FilledSlots(body: Body, keys: seq<Pubkey>)
    requires |keys| <= MAX_ORACLE_KEYS && DefaultKey() !in keys
    requires OracleSlot(body, 0) == KeyOrDefault(keys, 0) && OracleSlot(body, 1) == KeyOrDefault(keys, 1)
    requires OracleSlot(body, 2) == KeyOrDefault(keys, 2) && OracleSlot(body, 3) == KeyOrDefault(keys, 3)
    requires OracleSlot(body, 4) == KeyOrDefault(keys, 4)
    ensures OraclesUpTo(body, MAX_ORACLE_KEYS) == keys
  {
    forall i | 0 <= i < |keys|
      ensures keys[i] != DefaultKey()
    {
      assert keys[i] in keys;
    }
    OraclesOfFilledSlots(body, keys, MAX_ORACLE_KEYS);
    assert keys[..|keys|] == keys;
  }

  lemma ReadBackAmounts(background: Body, v: BankView)
    requires |v.points| == NUM_CURVE_POINTS
    ensures var body := EncodeInto(background, v);
            && ReadI128(body, OFF_ASSET_SHARE_VALUE) == v.assetShareValue
            && ReadI128(body, OFF_LIABILITY_SHARE_VALUE) == v.liabilityShareValue
            && ReadI128(body, OFF_TOTAL_ASSET_SHARES) == v.totalAssetShares
            && ReadI128(body, OFF_TOTAL_LIABILITY_SHARES) == v.totalLiabilityShares
  {
    ReadBackI128(background, v, OFF_ASSET_SHARE_VALUE, v.assetShareValue);
    ReadBackI128(background, v, OFF_LIABILITY_SHARE_VALUE, v.liabilityShareValue);
    ReadBackI128(background, v, OFF_TOTAL_ASSET_SHARES, v.totalAssetShares);
    ReadBackI128(background, v, OFF_TOTAL_LIABILITY_SHARES, v.totalLiabilityShares);
  }

  lemma ReadBackRates(background: Body, v: BankView)
    requires |v.points| == NUM_CURVE_POINTS
    ensures var body := EncodeInto(background, v);
            && ReadI128(body, OFF_OPTIMAL_UTIL) == v.optimalUtilization
            && ReadI128(body, OFF_PLATEAU) == v.plateauInterestRate
            && ReadI128(body, OFF_MAX_IR) == v.maxInterestRate
            && ReadI128(body, OFF_PROTOCOL_IR_FEE) == v.protocolIrFee
            && ReadU32(body, OFF_ZERO_UTIL_RATE) == v.zeroUtilRate
            && ReadU32(body, OFF_HUNDRED_UTIL_RATE) == v.hundredUtilRate
  {
    ReadBackI128(background, v, OFF_OPTIMAL_UTIL, v.optimalUtilization);
    ReadBackI128(background, v, OFF_PLATEAU, v.plateauInterestRate);
    ReadBackI128(background, v, OFF_MAX_IR, v.maxInterestRate);
    ReadBackI128(background, v, OFF_PROTOCOL_IR_FEE, v.protocolIrFee);
    ReadBackU32(background, v, OFF_ZERO_UTIL_RATE, v.zeroUtilRate);
    ReadBackU32(background, v, OFF_HUNDRED_UTIL_RATE, v.hundredUtilRate);
  }

  lemma ReadBackKeysAndBytes(background: Body, v: BankView)
    requires |v.points| == NUM_CURVE_POINTS
    ensures var body := EncodeInto(background, v);
            && ReadPubkey(body, OFF_MINT) == v.mint
            && ReadPubkey(body, OFF_LIQUIDITY_VAULT) == v.liquidityVault
            && body[OFF_LVA_BUMP] == v.lvaBump
            && body[OFF_CURVE_TYPE] == v.curveType
            && body[OFF_ORACLE_SETUP] == v.oracleSetup
  {
    ReadBack(background, v, OFF_MINT, v.mint);
    ReadBack(background, v, OFF_LIQUIDITY_VAULT, v.liquidityVault);
  }

  lemma ReadBackPoints(background: Body, v: BankView)
    requires |v.points| == NUM_CURVE_POINTS
    ensures Points(EncodeInto(background, v)) == v.points
  {
    ReadBackPoint(background, v, 0);
    ReadBackPoint(background, v, 1);
    ReadBackPoint(background, v, 2);
    ReadBackPoint(background, v, 3);
    ReadBackPoint(background, v, 4);
    assert v.points == [v.points[0], v.points[1], v.points[2], v.points[3], v.points[4]];
  }

  lemma ReadBackOracles(background: Body, v: BankView)
    requires Encodable(v)
    ensures OraclesUpTo(EncodeInto(background, v), MAX_ORACLE_KEYS) == v.oracles
  {
    ReadBackOracle(background, v, 0);
    ReadBackOracle(background, v, 1);
    ReadBackOracle(background, v, 2);
    ReadBackOracle(background, v, 3);
    ReadBackOracle(background, v, 4);
    FilledSlots(EncodeInto(background, v), v.oracles);
  }

  /** Encoding a view into any background and decoding returns that view. */
  lemma DecodeEncode(background: Body, v: BankView)
    requires Encodable(v)
    ensures DecodeBody(EncodeInto(background, v)) == v
  {
    ReadBackAmounts(background, v);
    ReadBackRates(background, v);
    ReadBackKeysAndBytes(background, v);
    ReadBackPoints(background, v);
    ReadBackOracles(background, v);
  }

  /** An account is its discriminator, a body, and anything after it. */
  lemma DecodeAccount(body: Body, tail: seq<byte>)
    ensures Decode(BANK_DISCRIMINATOR + body + tail) == Ok(DecodeBody(body))
  {
    var data := BANK_DISCRIMINATOR + body + tail;
    assert data[..DISCRIMINATOR_LEN] == BANK_DISCRIMINATOR;
    assert data[DISCRIMINATOR_LEN..DISCRIMINATOR_LEN + BANK_BODY_SIZE] == body;
  }

  // ---- What decoding depends on ----

  /** The named ranges of the body. */
  predicate Named(i: nat) {
    || i < 32
    || OFF_ASSET_SHARE_VALUE <= i < OFF_LIQUIDITY_VAULT + 32
    || i == OFF_LVA_BUMP
    || OFF_TOTAL_LIABILITY_SHARES <= i < OFF_TOTAL_ASSET_SHARES + 16
    || OFF_OPTIMAL_UTIL <= i < OFF_MAX_IR + 16
    || OFF_PROTOCOL_IR_FEE <= i < OFF_PROTOCOL_IR_FEE + 16
    || OFF_ZERO_UTIL_RATE <= i <= OFF_CURVE_TYPE
    || OFF_ORACLE_SETUP <= i < OFF_ORACLE_KEYS + 32 * MAX_ORACLE_KEYS
  }

  /** The named ranges are exactly the bytes the encoder writes. */
  lemma NamedIsWritten(v: BankView, i: nat)
    requires |v.points| == NUM_CURVE_POINTS && i < BANK_BODY_SIZE
    ensures Named(i) <==> FieldByte(v, i).Some?
  {
  }

  lemma SameSlice(a: Body, b: Body, off: nat, len: nat)
    requires off + len <= BANK_BODY_SIZE
    requires forall i | off <= i < off + len :: a[i] == b[i]
    ensures a[off..off + len] == b[off..off + len]
  {
  }

  lemma {:induction false} SameOracles(a: Body, b: Body, n: nat)
    requires n <= MAX_ORACLE_KEYS
    requires forall i | OFF_ORACLE_KEYS <= i < OFF_ORACLE_KEYS + 32 * MAX_ORACLE_KEYS :: a[i] == b[i]
    ensures OraclesUpTo(a, n) == OraclesUpTo(b, n)
  {
    if n > 0 {
      SameOracles(a, b, n - 1);
      SameSlice(a, b, OFF_ORACLE_KEYS + (n - 1) * 32, 32);
    }
  }

  lemma SamePoint(a: Body, b: Body, k: nat)
    requires k < NUM_CURVE_POINTS
    requires forall i | OFF_POINTS <= i < OFF_CURVE_TYPE :: a[i] == b[i]
    ensures PointAt(a, k) == PointAt(b, k)
  {
    SameSlice(a, b, OFF_POINTS + k * 8, 4);
    SameSlice(a, b, OFF_POINTS + k * 8 + 4, 4);
  }

  lemma SamePoints(a: Body, b: Body)
    requires forall i | OFF_POINTS <= i < OFF_CURVE_TYPE :: a[i] == b[i]
    ensures Points(a) == Points(b)
  {
    SamePoint(a, b, 0);
    SamePoint(a, b, 1);
    SamePoint(a, b, 2);
    SamePoint(a, b, 3);
    SamePoint(a, b, 4);
  }

  lemma SameAmounts(a: Body, b: Body)
    requires forall i | 0 <= i < BANK_BODY_SIZE && Named(i) :: a[i] == b[i]
    ensures ReadI128(a, OFF_ASSET_SHARE_VALUE) == ReadI128(b, OFF_ASSET_SHARE_VALUE)
    ensures ReadI128(a, OFF_LIABILITY_SHARE_VALUE) == ReadI128(b, OFF_LIABILITY_SHARE_VALUE)
    ensures ReadI128(a, OFF_TOTAL_ASSET_SHARES) == ReadI128(b, OFF_TOTAL_ASSET_SHARES)
    ensures ReadI128(a, OFF_TOTAL_LIABILITY_SHARES) == ReadI128(b, OFF_TOTAL_LIABILITY_SHARES)
  {
    SameSlice(a, b, OFF_ASSET_SHARE_VALUE, 16);
    SameSlice(a, b, OFF_LIABILITY_SHARE_VALUE, 16);
    SameSlice(a, b, OFF_TOTAL_ASSET_SHARES, 16);
    SameSlice(a, b, OFF_TOTAL_LIABILITY_SHARES, 16);
  }

  lemma SameRates(a: Body, b: Body)
    requires forall i | 0 <= i < BANK_BODY_SIZE && Named(i) :: a[i] == b[i]
    ensures ReadI128(a, OFF_OPTIMAL_UTIL) == ReadI128(b, OFF_OPTIMAL_UTIL)
    ensures ReadI128(a, OFF_PLATEAU) == ReadI128(b, OFF_PLATEAU)
    ensures ReadI128(a, OFF_MAX_IR) == ReadI128(b, OFF_MAX_IR)
    ensures ReadI128(a, OFF_PROTOCOL_IR_FEE) == ReadI128(b, OFF_PROTOCOL_IR_FEE)
    ensures ReadU32(a, OFF_ZERO_UTIL_RATE) == ReadU32(b, OFF_ZERO_UTIL_RATE)
    ensures ReadU32(a, OFF_HUNDRED_UTIL_RATE) == ReadU32(b, OFF_HUNDRED_UTIL_RATE)
  {
    SameSlice(a, b, OFF_OPTIMAL_UTIL, 16);
    SameSlice(a, b, OFF_PLATEAU, 16);
    SameSlice(a, b, OFF_MAX_IR, 16);
    SameSlice(a, b, OFF_PROTOCOL_IR_FEE, 16);
    SameSlice(a, b, OFF_ZERO_UTIL_RATE, 4);
    SameSlice(a, b, OFF_HUNDRED_UTIL_RATE, 4);
  }

  /** Bytes outside the named ranges never matter. */
  lemma OnlyNamedBytesMatter(a: Body, b: Body)
    requires forall i | 0 <= i < BANK_BODY_SIZE && Named(i) :: a[i] == b[i]
    ensures DecodeBody(a) == DecodeBody(b)
  {
    SameAmounts(a, b);
    SameRates(a, b);
    SamePoints(a, b);
    SameOracles(a, b, MAX_ORACLE_KEYS);
    SameSlice(a, b, OFF_MINT, 32);
    SameSlice(a, b, OFF_LIQUIDITY_VAULT, 32);
  }

  // ---- The oracle list ----

  /** The indices of the non-zero slots among the first n. */
  function KeptSlots(body: Body, n: nat): (kept: seq<nat>)
    requires n <= MAX_ORACLE_KEYS
    ensures |kept| <= n
    ensures forall k | 0 <= k < |kept| :: kept[k] < n
    ensures forall j, k | 0 <= j < k < |kept| :: kept[j] < kept[k]
    ensures forall i | 0 <= i < n :: i in kept <==> OracleSlot(body, i) != DefaultKey()
  {
    if n == 0 then []
    else if OracleSlot(body, n - 1) == DefaultKey() then KeptSlots(body, n - 1)
    else KeptSlots(body, n - 1) + [n - 1]
  }

  /** The oracles are the non-zero slots in slot order, so there are never more than five. */
  lemma {:induction false} OraclesAreKeptSlots(body: Body, n: nat)
    requires n <= MAX_ORACLE_KEYS
    ensures |OraclesUpTo(body, n)| == |KeptSlots(body, n)| <= MAX_ORACLE_KEYS
    ensures forall k | 0 <= k < |KeptSlots(body, n)| ::
              OraclesUpTo(body, n)[k] == OracleSlot(body, KeptSlots(body, n)[k]) != DefaultKey()
  {
    if n > 0 {
      var oracles, kept := OraclesUpTo(body, n - 1), KeptSlots(body, n - 1);
      OraclesAreKeptSlots(body, n - 1);
      if OracleSlot(body, n - 1) != DefaultKey() {
        assert OraclesUpTo(body, n) == oracles + [OracleSlot(body, n - 1)];
        assert KeptSlots(body, n) == kept + [n - 1];
      }
    }
  }

  /** The registry's "1-5 oracle keys" check on a decoded bank fails exactly when every slot is zero. */
  lemma OracleCountCheck(body: Body)
    ensures var oracles := DecodeBody(body).oracles;
            (oracles == [] || |oracles| > 5)
            <==> forall i | 0 <= i < MAX_ORACLE_KEYS :: OracleSlot(body, i) == DefaultKey()
  {
    OraclesAreKeptSlots(body, MAX_ORACLE_KEYS);
    var kept := KeptSlots(body, MAX_ORACLE_KEYS);
    if kept != [] {
      assert kept[0] in kept;
    }
  }

  /** Everything the decoder returns can be encoded again. */
  lemma DecodedIsEncodable(body: Body)
    ensures Encodable(DecodeBody(body))
  {
    OraclesAreKeptSlots(body, MAX_ORACLE_KEYS);
  }

  // ---- Encoding what was decoded ----

  /** No zero slot comes before a non-zero one. */
  predicate Compact(body: Body) {
    forall i, j | 0 <= i < j < MAX_ORACLE_KEYS :: OracleSlot(body, i) == DefaultKey() ==> OracleSlot(body, j) == DefaultKey()
  }

  lemma {:induction false} CompactOracles(body: Body, n: nat)
    requires Compact(body) && n <= MAX_ORACLE_KEYS
    ensures |OraclesUpTo(body, n)| <= n
    ensures forall i | 0 <= i < n :: KeyOrDefault(OraclesUpTo(body, n), i) == OracleSlot(body, i)
    ensures |OraclesUpTo(body, n)| == n || (n > 0 && OracleSlot(body, n - 1) == DefaultKey())
  {
    if n > 0 {
      CompactOracles(body, n - 1);
    }
  }

  lemma WriteBackI128(body: Body, off: nat, k: nat)
    requires off + 16 <= BANK_BODY_SIZE && k < 16
    ensures SignedToLE(ReadI128(body, off))[k] == body[off + k]
  {
    SignedToFrom(body[off..off + 16]);
  }

  lemma WriteBackU32(body: Body, off: nat, k: nat)
    requires off + 4 <= BANK_BODY_SIZE && k < 4
    ensures ToLE(ReadU32(body, off), 4)[k] == body[off + k]
  {
    ToFrom(body[off..off + 4]);
  }

  lemma WriteBackShareValue(body: Body, v: BankView, i: nat)
    requires |v.points| == NUM_CURVE_POINTS && 0 <= i < OFF_LIQUIDITY_VAULT
    requires v.assetShareValue == ReadI128(body, OFF_ASSET_SHARE_VALUE)
    requires v.liabilityShareValue == ReadI128(body, OFF_LIABILITY_SHARE_VALUE)
    requires v.mint == ReadPubkey(body, OFF_MINT)
    ensures FieldByte(v, i).Some? ==> FieldByte(v, i).value == body[i]
  {
    if OFF_ASSET_SHARE_VALUE <= i < OFF_ASSET_SHARE_VALUE + 16 {
      WriteBackI128(body, OFF_ASSET_SHARE_VALUE, i - OFF_ASSET_SHARE_VALUE);
    } else if OFF_LIABILITY_SHARE_VALUE <= i < OFF_LIABILITY_SHARE_VALUE + 16 {
      WriteBackI128(body, OFF_LIABILITY_SHARE_VALUE, i - OFF_LIABILITY_SHARE_VALUE);
    }
  }

  lemma WriteBackTotal(body: Body, v: BankView, i: nat)
    requires |v.points| == NUM_CURVE_POINTS && OFF_LIQUIDITY_VAULT <= i < OFF_OPTIMAL_UTIL
    requires v.totalLiabilityShares == ReadI128(body, OFF_TOTAL_LIABILITY_SHARES)
    requires v.totalAssetShares == ReadI128(body, OFF_TOTAL_ASSET_SHARES)
    requires v.liquidityVault == ReadPubkey(body, OFF_LIQUIDITY_VAULT) && v.lvaBump == body[OFF_LVA_BUMP]
    ensures FieldByte(v, i).Some? ==> FieldByte(v, i).value == body[i]
  {
    if OFF_TOTAL_LIABILITY_SHARES <= i < OFF_TOTAL_LIABILITY_SHARES + 16 {
      WriteBackI128(body, OFF_TOTAL_LIABILITY_SHARES, i - OFF_TOTAL_LIABILITY_SHARES);
    } else if OFF_TOTAL_ASSET_SHARES <= i < OFF_TOTAL_ASSET_SHARES + 16 {
      WriteBackI128(body, OFF_TOTAL_ASSET_SHARES, i - OFF_TOTAL_ASSET_SHARES);
    }
  }

  lemma WriteBackCurveRate(body: Body, v: BankView, i: nat)
    requires |v.points| == NUM_CURVE_POINTS && OFF_OPTIMAL_UTIL <= i < OFF_MAX_IR
    requires v.optimalUtilization == ReadI128(body, OFF_OPTIMAL_UTIL)
    requires v.plateauInterestRate == ReadI128(body, OFF_PLATEAU)
    ensures FieldByte(v, i).Some? ==> FieldByte(v, i).value == body[i]
  {
    if OFF_OPTIMAL_UTIL <= i < OFF_OPTIMAL_UTIL + 16 {
      WriteBackI128(body, OFF_OPTIMAL_UTIL, i - OFF_OPTIMAL_UTIL);
    } else if OFF_PLATEAU <= i < OFF_PLATEAU + 16 {
      WriteBackI128(body, OFF_PLATEAU, i - OFF_PLATEAU);
    }
  }

  lemma WriteBackMaxAndFee(body: Body, v: BankView, i: nat)
    requires |v.points| == NUM_CURVE_POINTS && OFF_MAX_IR <= i < OFF_ZERO_UTIL_RATE
    requires v.maxInterestRate == ReadI128(body, OFF_MAX_IR)
    requires v.protocolIrFee == ReadI128(body, OFF_PROTOCOL_IR_FEE)
    ensures FieldByte(v, i).Some? ==> FieldByte(v, i).value == body[i]
  {
    if OFF_MAX_IR <= i < OFF_MAX_IR + 16 {
      WriteBackI128(body, OFF_MAX_IR, i - OFF_MAX_IR);
    } else if OFF_PROTOCOL_IR_FEE <= i < OFF_PROTOCOL_IR_FEE + 16 {
      WriteBackI128(body, OFF_PROTOCOL_IR_FEE, i - OFF_PROTOCOL_IR_FEE);
    }
  }

  lemma WriteBackEndRate(body: Body, v: BankView, i: nat)
    requires |v.points| == NUM_CURVE_POINTS && OFF_ZERO_UTIL_RATE <= i < OFF_POINTS
    requires v.zeroUtilRate == ReadU32(body, OFF_ZERO_UTIL_RATE)
    requires v.hundredUtilRate == ReadU32(body, OFF_HUNDRED_UTIL_RATE)
    ensures FieldByte(v, i).Some? ==> FieldByte(v, i).value == body[i]
  {
    if OFF_ZERO_UTIL_RATE <= i < OFF_ZERO_UTIL_RATE + 4 {
      WriteBackU32(body, OFF_ZERO_UTIL_RATE, i - OFF_ZERO_UTIL_RATE);
    } else if OFF_HUNDRED_UTIL_RATE <= i < OFF_HUNDRED_UTIL_RATE + 4 {
      WriteBackU32(body, OFF_HUNDRED_UTIL_RATE, i - OFF_HUNDRED_UTIL_RATE);
    }
  }

  lemma WriteBackPoint(body: Body, v: BankView, i: nat, k: nat)
    requires |v.points| == NUM_CURVE_POINTS && i < NUM_CURVE_POINTS && k < 8
    requires v.points[i] == PointAt(body, i)
    ensures FieldByte(v, OFF_POINTS + i * 8 + k) == Some(body[OFF_POINTS + i * 8 + k])
  {
    var off := OFF_POINTS + i * 8;
    PointByte(v, i, k);
    if k < 4 {
      WriteBackU32(body, off, k);
    } else {
      WriteBackU32(body, off + 4, k - 4);
    }
  }

  lemma WriteBackOracle(body: Body, v: BankView, i: nat, k: nat)
    requires |v.points| == NUM_CURVE_POINTS && i < MAX_ORACLE_KEYS && k < 32
    requires KeyOrDefault(v.oracles, i) == OracleSlot(body, i)
    ensures FieldByte(v, OFF_ORACLE_KEYS + i * 32 + k) == Some(body[OFF_ORACLE_KEYS + i * 32 + k])
  {
    assert (i * 32 + k) / 32 == i && (i * 32 + k) % 32 == k;
  }

  lemma WriteBackEarly(body: Body, v: BankView, i: nat)
    requires v == DecodeBody(body) && i < OFF_POINTS
    ensures FieldByte(v, i).Some? ==> FieldByte(v, i).value == body[i]
  {
    if i < OFF_LIQUIDITY_VAULT {
      WriteBackShareValue(body, v, i);
    } else if i < OFF_OPTIMAL_UTIL {
      WriteBackTotal(body, v, i);
    } else if i < OFF_MAX_IR {
      WriteBackCurveRate(body, v, i);
    } else if i < OFF_ZERO_UTIL_RATE {
      WriteBackMaxAndFee(body, v, i);
    } else {
      WriteBackEndRate(body, v, i);
    }
  }

  lemma WriteBackPoints(body: Body, v: BankView, i: nat)
    requires v == DecodeBody(body) && OFF_POINTS <= i < OFF_CURVE_TYPE
    ensures FieldByte(v, i) == Some(body[i])
  {
    var k := i - OFF_POINTS;
    WriteBackPoint(body, v, k / 8, k % 8);
  }

  lemma WriteBackOracles(body: Body, v: BankView, i: nat)
    requires |v.points| == NUM_CURVE_POINTS && v.oracles == OraclesUpTo(body, MAX_ORACLE_KEYS)
    requires Compact(body) && OFF_ORACLE_KEYS <= i < OFF_ORACLE_KEYS + 32 * MAX_ORACLE_KEYS
    ensures FieldByte(v, i) == Some(body[i])
  {
    var k := i - OFF_ORACLE_KEYS;
    CompactOracles(body, MAX_ORACLE_KEYS);
    WriteBackOracle(body, v, k / 32, k % 32);
  }

  lemma WriteBackLate(body: Body, v: BankView, i: nat)
    requires v == DecodeBody(body) && Compact(body) && OFF_POINTS <= i < BANK_BODY_SIZE
    ensures FieldByte(v, i).Some? ==> FieldByte(v, i).value == body[i]
  {
    if i < OFF_CURVE_TYPE {
      WriteBackPoints(body, v, i);
    } else if OFF_ORACLE_KEYS <= i < OFF_ORACLE_KEYS + 32 * MAX_ORACLE_KEYS {
      WriteBackOracles(body, v, i);
    }
  }

  lemma CompactIsWrittenBack(body: Body)
    requires Compact(body)
    ensures EncodeInto(body, DecodeBody(body)) == body
  {
    var v := DecodeBody(body);
    var again := EncodeInto(body, v);
    forall i | 0 <= i < BANK_BODY_SIZE
      ensures again[i] == body[i]
    {
      if i < OFF_POINTS {
        WriteBackEarly(body, v, i);
      } else {
        WriteBackLate(body, v, i);
      }
    }
    assert again == body;
  }

  lemma EncodedIsCompact(background: Body, v: BankView)
    requires Encodable(v)
    ensures Compact(EncodeInto(background, v))
  {
    var body := EncodeInto(background, v);
    assert forall i | 0 <= i < |v.oracles| :: v.oracles[i] in v.oracles;
    forall i, j | 0 <= i < j < MAX_ORACLE_KEYS && OracleSlot(body, i) == DefaultKey()
      ensures OracleSlot(body, j) == DefaultKey()
    {
      ReadBackOracle(background, v, i);
      ReadBackOracle(background, v, j);
    }
  }

  /** Writing a decoded view back changes nothing exactly when the oracle slots have no gap. */
  lemma EncodeDecode(body: Body)
    ensures EncodeInto(body, DecodeBody(body)) == body <==> Compact(body)
  {
    if Compact(body) {
      CompactIsWrittenBack(body);
    } else {
      DecodedIsEncodable(body);
      EncodedIsCompact(body, DecodeBody(body));
    }
  }

  // ---- The account as the struct it is ----

  /** The parts of a Bank up to its configuration, by width and in order. */
  predicate IsHead(parts: seq<seq<byte>>)
    requires |parts| == 31
  {
    && |parts[0]| == 32 // mint
    && |parts[1]| == 1 + 32 + 7 // decimals, group, padding
    && |parts[2]| == 16 // asset share value
    && |parts[3]| == 16 // liability share value
    && |parts[4]| == 32 // liquidity vault
    && |parts[5]| == 1 // its bump
    && |parts[6]| == 1 // its authority's bump
    && |parts[7]| == 32 + 1 + 1 + 4 // insurance vault, bumps, padding
    && |parts[8]| == 16 // insurance fees
    && |parts[9]| == 32 + 1 + 1 + 6 // fee vault, bumps, padding
    && |parts[10]| == 16 // group fees
    && |parts[11]| == 16 // total liability shares
    && |parts[12]| == 16 // total asset shares
    && |parts[13]| == 8 // last update
  }

  /** The configuration, with the interest rate configuration inside it. */
  predicate IsConfig(parts: seq<seq<byte>>)
    requires |parts| == 31
  {
    && |parts[14]| == 4 * 16 // four weights
    && |parts[15]| == 8 // deposit limit
    && |parts[16]| == 16 // optimal utilization
    && |parts[17]| == 16 // plateau rate
    && |parts[18]| == 16 // maximum rate
    && |parts[19]| == 3 * 16 // insurance fees and protocol fixed fee
    && |parts[20]| == 16 // protocol rate fee
    && |parts[21]| == 16 // origination fee
  }

  predicate IsCurve(parts: seq<seq<byte>>)
    requires |parts| == 31
  {
    && |parts[22]| == 4 // rate at zero
    && |parts[23]| == 4 // rate at full
    && |parts[24]| == 5 * (4 + 4) // five points
    && |parts[25]| == 1 // curve type
    && |parts[26]| == 63 // padding
    && |parts[27]| == 1 // operational state
    && |parts[28]| == 1 // oracle setup
    && |parts[29]| == 5 * 32 // five oracle keys
    && |parts[30]| == 1094 // the rest
  }

  ghost predicate IsStruct(parts: seq<seq<byte>>) {
    |parts| == 31 && IsHead(parts) && IsConfig(parts) && IsCurve(parts)
  }

  function Concat(parts: seq<seq<byte>>): seq<byte> {
    if parts == [] then [] else Concat(parts[..|parts| - 1]) + parts[|parts| - 1]
  }

  /** Where part `k` begins. */
  function Offset(parts: seq<seq<byte>>, k: nat): nat
    requires k <= |parts|
  {
    if k == 0 then 0 else Offset(parts, k - 1) + |parts[k - 1]|
  }

  lemma {:induction false} OffsetOfPrefix(parts: seq<seq<byte>>, n: nat, k: nat)
    requires k <= n <= |parts|
    ensures Offset(parts[..n], k) == Offset(parts, k)
  {
    if k > 0 {
      OffsetOfPrefix(parts, n, k - 1);
    }
  }

  /** Each part stands where the parts before it end. */
  lemma {:induction false} PartAt(parts: seq<seq<byte>>, k: nat)
    requires k < |parts|
    ensures |Concat(parts)| == Offset(parts, |parts|) && Offset(parts, k) + |parts[k]| <= |Concat(parts)|
    ensures Concat(parts)[Offset(parts, k)..Offset(parts, k) + |parts[k]|] == parts[k]
  {
    var n := |parts| - 1;
    OffsetOfPrefix(parts, n, n);
    OffsetOfPrefix(parts, n, Min(k, n));
    if k < n {
      PartAt(parts[..n], k);
    } else if n > 0 {
      PartAt(parts[..n], 0);
    }
  }

  lemma HeadOffsets(parts: seq<seq<byte>>)
    requires |parts| == 31 && IsHead(parts)
    ensures Offset(parts, 0) == OFF_MINT
    ensures Offset(parts, 2) == OFF_ASSET_SHARE_VALUE
    ensures Offset(parts, 3) == OFF_LIABILITY_SHARE_VALUE
    ensures Offset(parts, 4) == OFF_LIQUIDITY_VAULT
    ensures Offset(parts, 6) == OFF_LVA_BUMP
    ensures Offset(parts, 11) == OFF_TOTAL_LIABILITY_SHARES
    ensures Offset(parts, 12) == OFF_TOTAL_ASSET_SHARES
    ensures Offset(parts, 14) == BANK_CONFIG_OFFSET
  {
    assert Offset(parts, 1) == Offset(parts, 0) + 32;
    assert Offset(parts, 2) == Offset(parts, 1) + 40;
    assert Offset(parts, 3) == Offset(parts, 2) + 16;
    assert Offset(parts, 4) == Offset(parts, 3) + 16;
    assert Offset(parts, 5) == Offset(parts, 4) + 32;
    assert Offset(parts, 6) == Offset(parts, 5) + 1;
    assert Offset(parts, 7) == Offset(parts, 6) + 1;
    assert Offset(parts, 8) == Offset(parts, 7) + 38;
    assert Offset(parts, 9) == Offset(parts, 8) + 16;
    assert Offset(parts, 10) == Offset(parts, 9) + 40;
    assert Offset(parts, 11) == Offset(parts, 10) + 16;
    assert Offset(parts, 12) == Offset(parts, 11) + 16;
    assert Offset(parts, 13) == Offset(parts, 12) + 16;
    assert Offset(parts, 14) == Offset(parts, 13) + 8;
  }

  lemma ConfigOffsets(parts: seq<seq<byte>>)
    requires |parts| == 31 && IsHead(parts) && IsConfig(parts)
    ensures Offset(parts, 14) == BANK_CONFIG_OFFSET
    ensures Offset(parts, 16) == OFF_OPTIMAL_UTIL
    ensures Offset(parts, 17) == OFF_PLATEAU
    ensures Offset(parts, 18) == OFF_MAX_IR
    ensures Offset(parts, 20) == OFF_PROTOCOL_IR_FEE
    ensures Offset(parts, 22) == OFF_ZERO_UTIL_RATE
  {
    HeadOffsets(parts);
    assert Offset(parts, 15) == Offset(parts, 14) + 64;
    assert Offset(parts, 16) == Offset(parts, 15) + 8;
    assert Offset(parts, 17) == Offset(parts, 16) + 16;
    assert Offset(parts, 18) == Offset(parts, 17) + 16;
    assert Offset(parts, 19) == Offset(parts, 18) + 16;
    assert Offset(parts, 20) == Offset(parts, 19) + 48;
    assert Offset(parts, 21) == Offset(parts, 20) + 16;
    assert Offset(parts, 22) == Offset(parts, 21) + 16;
  }

  lemma CurveOffsets(parts: seq<seq<byte>>)
    requires |parts| == 31 && IsHead(parts) && IsConfig(parts) && IsCurve(parts)
    ensures Offset(parts, 22) == OFF_ZERO_UTIL_RATE
    ensures Offset(parts, 23) == OFF_HUNDRED_UTIL_RATE
    ensures Offset(parts, 24) == OFF_POINTS
    ensures Offset(parts, 25) == OFF_CURVE_TYPE
    ensures Offset(parts, 28) == OFF_ORACLE_SETUP
    ensures Offset(parts, 29) == OFF_ORACLE_KEYS
    ensures Offset(parts, 31) == BANK_BODY_SIZE
  {
    ConfigOffsets(parts);
    assert Offset(parts, 23) == Offset(parts, 22) + 4;
    assert Offset(parts, 24) == Offset(parts, 23) + 4;
    assert Offset(parts, 25) == Offset(parts, 24) + 40;
    assert Offset(parts, 26) == Offset(parts, 25) + 1;
    assert Offset(parts, 27) == Offset(parts, 26) + 63;
    assert Offset(parts, 28) == Offset(parts, 27) + 1;
    assert Offset(parts, 29) == Offset(parts, 28) + 1;
    assert Offset(parts, 30) == Offset(parts, 29) + 160;
    assert Offset(parts, 31) == Offset(parts, 30) + 1094;
  }

  /** A struct is a body, and part `k` of it is where the parts before it end. */
  lemma StructAt(parts: seq<seq<byte>>, k: nat, off: nat, width: nat) returns (body: Body)
    requires IsStruct(parts) && k < 31 && off == Offset(parts, k) && width == |parts[k]|
    ensures body == Concat(parts) && off + width <= BANK_BODY_SIZE
    ensures body[off..off + width] == parts[k]
  {
    PartAt(parts, k);
    CurveOffsets(parts);
    body := Concat(parts);
  }

  lemma StructKeysAndBytes(parts: seq<seq<byte>>) returns (body: Body)
    requires IsStruct(parts)
    ensures body == Concat(parts)
    ensures ReadPubkey(body, OFF_MINT) == parts[0] && ReadPubkey(body, OFF_LIQUIDITY_VAULT) == parts[4]
    ensures [body[OFF_LVA_BUMP]] == parts[6] && [body[OFF_CURVE_TYPE]] == parts[25] && [body[OFF_ORACLE_SETUP]] == parts[28]
  {
    HeadOffsets(parts);
    CurveOffsets(parts);
    body := StructAt(parts, 0, OFF_MINT, 32);
    body := StructAt(parts, 4, OFF_LIQUIDITY_VAULT, 32);
    body := StructAt(parts, 6, OFF_LVA_BUMP, 1);
    body := StructAt(parts, 25, OFF_CURVE_TYPE, 1);
    body := StructAt(parts, 28, OFF_ORACLE_SETUP, 1);
  }

  lemma StructAmounts(parts: seq<seq<byte>>) returns (body: Body)
    requires IsStruct(parts)
    ensures body == Concat(parts)
    ensures ReadI128(body, OFF_ASSET_SHARE_VALUE) == SignedFromLE(parts[2])
    ensures ReadI128(body, OFF_LIABILITY_SHARE_VALUE) == SignedFromLE(parts[3])
    ensures ReadI128(body, OFF_TOTAL_LIABILITY_SHARES) == SignedFromLE(parts[11])
    ensures ReadI128(body, OFF_TOTAL_ASSET_SHARES) == SignedFromLE(parts[12])
  {
    HeadOffsets(parts);
    body := StructAt(parts, 2, OFF_ASSET_SHARE_VALUE, 16);
    body := StructAt(parts, 3, OFF_LIABILITY_SHARE_VALUE, 16);
    body := StructAt(parts, 11, OFF_TOTAL_LIABILITY_SHARES, 16);
    body := StructAt(parts, 12, OFF_TOTAL_ASSET_SHARES, 16);
  }

  lemma StructRates(parts: seq<seq<byte>>) returns (body: Body)
    requires IsStruct(parts)
    ensures body == Concat(parts)
    ensures ReadI128(body, OFF_OPTIMAL_UTIL) == SignedFromLE(parts[16])
    ensures ReadI128(body, OFF_PLATEAU) == SignedFromLE(parts[17])
    ensures ReadI128(body, OFF_MAX_IR) == SignedFromLE(parts[18])
    ensures ReadI128(body, OFF_PROTOCOL_IR_FEE) == SignedFromLE(parts[20])
  {
    ConfigOffsets(parts);
    body := StructAt(parts, 16, OFF_OPTIMAL_UTIL, 16);
    body := StructAt(parts, 17, OFF_PLATEAU, 16);
    body := StructAt(parts, 18, OFF_MAX_IR, 16);
    body := StructAt(parts, 20, OFF_PROTOCOL_IR_FEE, 16);
  }

  lemma StructEndRates(parts: seq<seq<byte>>) returns (body: Body)
    requires IsStruct(parts)
    ensures body == Concat(parts)
    ensures ReadU32(body, OFF_ZERO_UTIL_RATE) == U32FromLE(parts[22])
    ensures ReadU32(body, OFF_HUNDRED_UTIL_RATE) == U32FromLE(parts[23])
  {
    CurveOffsets(parts);
    ConfigOffsets(parts);
    body := StructAt(parts, 22, OFF_ZERO_UTIL_RATE, 4);
    body := StructAt(parts, 23, OFF_HUNDRED_UTIL_RATE, 4);
  }

  lemma SliceOfSlice(body: Body, off: nat, width: nat, at: nat, len: nat)
    requires off + width <= BANK_BODY_SIZE && at + len <= width
    ensures body[off..off + width][at..at + len] == body[off + at..off + at + len]
  {
    var a, b := body[off..off + width][at..at + len], body[off + at..off + at + len];
    forall i | 0 <= i < len
      ensures a[i] == b[i]
    {
      assert a[i] == body[off..off + width][at + i] == body[off + at + i];
    }
  }

  /** The points are pairs of four bytes, and the oracle slots 32 bytes each, in order. */
  lemma StructSlots(parts: seq<seq<byte>>, i: nat) returns (body: Body)
    requires IsStruct(parts) && i < 5
    ensures body == Concat(parts)
    ensures Points(body)[i] == (U32FromLE(parts[24][8 * i..8 * i + 4]), U32FromLE(parts[24][8 * i + 4..8 * i + 8]))
    ensures OracleSlot(body, i) == parts[29][32 * i..32 * i + 32]
  {
    CurveOffsets(parts);
    body := StructAt(parts, 24, OFF_POINTS, 40);
    body := StructAt(parts, 29, OFF_ORACLE_KEYS, 160);
    SliceOfSlice(body, OFF_POINTS, 40, 8 * i, 4);
    SliceOfSlice(body, OFF_POINTS, 40, 8 * i + 4, 4);
    SliceOfSlice(body, OFF_ORACLE_KEYS, 160, 32 * i, 32);
    assert Points(body)[i] == PointAt(body, i);
  }

  ghost predicate KeysAndBytesOf(v: BankView, parts: seq<seq<byte>>)
    requires IsStruct(parts)
  {
    && v.mint == parts[0] && v.liquidityVault == parts[4]
    && [v.lvaBump] == parts[6] && [v.curveType] == parts[25] && [v.oracleSetup] == parts[28]
  }

  ghost predicate AmountsOf(v: BankView, parts: seq<seq<byte>>)
    requires IsStruct(parts)
  {
    && v.assetShareValue == SignedFromLE(parts[2]) && v.liabilityShareValue == SignedFromLE(parts[3])
    && v.totalLiabilityShares == SignedFromLE(parts[11]) && v.totalAssetShares == SignedFromLE(parts[12])
  }

  ghost predicate RatesOf(v: BankView, parts: seq<seq<byte>>)
    requires IsStruct(parts)
  {
    && v.optimalUtilization == SignedFromLE(parts[16]) && v.plateauInterestRate == SignedFromLE(parts[17])
    && v.maxInterestRate == SignedFromLE(parts[18]) && v.protocolIrFee == SignedFromLE(parts[20])
    && v.zeroUtilRate == U32FromLE(parts[22]) && v.hundredUtilRate == U32FromLE(parts[23])
  }

  /** The decoder reads the struct: whatever the parts, the view has each field from its own part. */
  lemma DecodesTheStruct(parts: seq<seq<byte>>) returns (body: Body)
    requires IsStruct(parts)
    ensures body == Concat(parts)
    ensures var v := DecodeBody(body); KeysAndBytesOf(v, parts) && AmountsOf(v, parts) && RatesOf(v, parts)
  {
    body := StructKeysAndBytes(parts);
    body := StructAmounts(parts);
    body := StructRates(parts);
    body := StructEndRates(parts);
  }
}
