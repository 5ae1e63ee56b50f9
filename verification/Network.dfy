/** What the bot sees of the RPC node: instructions, signatures, errors, and one event per interaction. */
module Network {
  import opened Prelude

  /** The instruction builders are foreign code; each instruction is kept as the values it was built from. */
  datatype Instruction =
    | SetComputeUnitLimit(units: u32)
    | SetComputeUnitPrice(microLamports: u64)
    | OracleUpdate(feeds: seq<Pubkey>)
    | CheckLtv(market: Pubkey, sequence: u64)
    | CheckMaturity(market: Pubkey, sequence: u64)
    | LiquidateLoan(market: Pubkey, sequence: u64, repayMax: u64, vault: Option<Pubkey>)
    | SettleMaturedLoan(market: Pubkey, sequence: u64, repayMax: u64, vault: Option<Pubkey>)
    | ProcessMatchedLoan(market: Pubkey, sequence: u64, settleVault: Option<Pubkey>)
    | ClaimRepayment(market: Pubkey, lender: Pubkey, subVault: u16)
    | MatchCrank(market: Pubkey, maxFills: u32)

  datatype Signature = Signature(id: nat)

  /** An instruction list with the lookup tables it is compiled against. */
  datatype Bundle = Bundle(ixs: seq<Instruction>, luts: seq<Pubkey>)

  datatype RpcFailure =
    | ForUser(message: string)
    | RpcResponseError(code: i64)
    | RpcRequestError(message: string)
    | ParseError(message: string)

  datatype ClientError =
    | Io
    | Reqwest
    | RpcError(failure: RpcFailure)
    | SerdeJson
    | SigningError
    | TransactionError
    | Custom(message: string)

  /** Why an operation of the bot returns `Err`. */
  datatype Fault =
    | Shutdown
    | NoSigners
    | BlockhashUnavailable
    | NotCompiled
    | NotSigned
    | Unsigned
    | Rejected(error: ClientError)
    | Unreachable
    | MissingBank
    | AccountTooSmall
    | Disappeared
    | VaultMismatch

  predicate Contains(text: string, pattern: string) {
    pattern <= text || (text != "" && Contains(text[1..], pattern))
  }

  predicate OccursAt(text: string, pattern: string, i: nat) {
    i + |pattern| <= |text| && text[i..i + |pattern|] == pattern
  }

  /** The scan finds the pattern exactly when it occurs somewhere. */
  lemma {:induction false} ContainsFinds(text: string, pattern: string)
    ensures Contains(text, pattern) <==> exists i :: OccursAt(text, pattern, i)
  {
    if pattern <= text {
      assert OccursAt(text, pattern, 0);
    } else if text != [] {
      ContainsFinds(text[1..], pattern);
      assert forall i: nat :: OccursAt(text[1..], pattern, i) ==> OccursAt(text, pattern, i + 1);
      assert forall i: nat | i > 0 :: OccursAt(text, pattern, i) ==> OccursAt(text[1..], pattern, i - 1);
    }
  }

  /** Safe to retry: transport failures, an expired blockhash, and the node's own error codes. */
  predicate IsTransient(error: ClientError) {
    match error
    case Io => true
    case Reqwest => true
    case RpcError(ForUser(message)) => Contains(message, "Blockhash not found")
    case RpcError(RpcResponseError(code)) => -32099 <= code <= -32000
    case _ => false
  }

  datatype StatusReply = Present | Absent | QueryFailed
  datatype SendReply = Confirmed | Failed(error: ClientError)

  /**
  The first two constructors are moves of the environment; the others are the bot's own
  interactions. `Counted` is the submission counter of the metrics, `Unanswered` a request other
  than a send that came back with an error.
  */
  datatype Event =
    | Landed(sig: Signature)
    | StopRaised
    | StopRead(stopped: bool)
    | StatusQueried(sig: Signature, reply: StatusReply)
    | BlockhashFetched(ok: bool)
    | TxSigned(outcome: Result<Signature, Fault>)
    | Submitted(sig: Signature, bundle: Bundle)
    | SendReturned(answer: SendReply)
    | Simulated(bundle: Bundle, ok: bool, logs: seq<string>)
    | Counted(tag: string, bundle: Bundle, ok: bool)
    | AccountRead(key: Pubkey, data: Option<seq<byte>>)
    | Unanswered
  {
    predicate FromEnvironment() {
      Landed? || StopRaised?
    }
  }

  predicate AllFromEnvironment(events: seq<Event>) {
    forall e <- events :: e.FromEnvironment()
  }
}
