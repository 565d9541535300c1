/**
 * The shared part of the two path-payment operations
 * (src/transactions/PathPaymentOpFrameBase.cpp): which keys to prefetch,
 * whether the operation trades on the exchange, the issuer check, the
 * mapping of the order-book crossing's result to a result code, and the
 * debit of the source and credit of the destination with their protocol
 * gates and error precedence.
 *
 * The ledger is abstract. An account or trust line holds a balance and the
 * bounds that addBalance enforces: `floor` (the reserve plus selling
 * liabilities, below which nothing may be spent) and `ceiling` (the
 * balance limit minus buying liabilities). The available balance is
 * `balance - floor`. A trust line held by an asset's own issuer is the
 * virtual one of TrustLineWrapper: present, authorised, and absorbing any
 * change without recording it.
 */
module PathPayment {
  import opened Types
  import opened LedgerXdr
  import opened ProtocolVersions

  /** A balance with the bounds addBalance keeps it within. */
  datatype Funds = Funds(balance: int, floor: int, ceiling: int)

  datatype AccountEntry = AccountEntry(funds: Funds)

  datatype TrustLineEntry = TrustLineEntry(funds: Funds, authorized: bool)

  /** What the operation sees of the ledger: the header's version and the entries. */
  datatype LedgerState = LedgerState(
    ledgerVersion: uint32,
    accounts: map<AccountID, AccountEntry>,
    trustLines: map<(AccountID, Asset), TrustLineEntry>)

  /** The assets a path payment names: native or a credit asset. */
  type PaymentAsset = a: Asset | IsPlainAsset(a) witness Native

  /** The operation's body as both path-payment kinds carry it. */
  datatype PathPaymentOp = PathPaymentOp(
    sourceID: AccountID,
    sendAsset: PaymentAsset,
    destination: MuxedAccount,
    destAsset: PaymentAsset,
    path: seq<PaymentAsset>)

  /** The result codes this part of the operation sets. */
  datatype ResultCode =
    | Malformed
    | Underfunded
    | SourceNoTrust
    | SourceNotAuthorized
    | DestNoTrust
    | DestNotAuthorized
    | LineFull
    | NoIssuer(asset: Asset)
    | TooFewOffers
    | OfferCrossSelf
    | ExceededWorkLimit   // opEXCEEDED_WORK_LIMIT, set on the operation result itself

  /**
   * How a step ends: it returns true with the resulting ledger, it returns
   * false having set a result code, or it throws.
   */
  datatype Outcome =
    | Success(ledger: LedgerState)
    | Failure(code: ResultCode)
    | Error(exception: Exception)

  /** getDestID: the account behind the destination, whatever its sub-account id. */
  function DestID(op: PathPaymentOp): (id: AccountID)
    ensures op.destination.MuxedEd25519? ==> id == ToAccountID(KeyEd25519(op.destination.ed25519))
    ensures id == op.destination.ed25519
  {
    ToAccountID(op.destination)
  }

  /** isDexOperation: the payment goes through the order book. */
  function IsDexOperation(op: PathPaymentOp): (dex: bool)
    ensures !dex <==> op.path == [] && op.sendAsset == op.destAsset
  {
    |op.path| != 0 || op.sendAsset != op.destAsset
  }

  /** shouldBypassIssuerCheck: credits going straight back to their issuer. */
  function ShouldBypassIssuerCheck(op: PathPaymentOp, path: seq<PaymentAsset>): (bypass: bool)
    ensures bypass <==> IsCredit(op.destAsset) && path == [] && op.sendAsset == op.destAsset
                        && Issuer(op.destAsset) == DestID(op)
  {
    !op.destAsset.Native? && |path| == 0 && op.sendAsset == op.destAsset
    && Issuer(op.destAsset) == DestID(op)
  }

  /** A payment whose issuer check is bypassed never trades. */
  lemma BypassIsNotDex(op: PathPaymentOp)
    requires ShouldBypassIssuerCheck(op, op.path)
    ensures !IsDexOperation(op)
  {
  }

  /** The keys insertLedgerKeysToPrefetch adds. */
  function PrefetchKeys(op: PathPaymentOp): (keys: set<LedgerKey>)
    ensures AccountKey(DestID(op)) in keys
    ensures TrustLineKey(DestID(op), op.destAsset) in keys <==> !op.destAsset.Native?
    ensures TrustLineKey(op.sourceID, op.sendAsset) in keys <==> !op.sendAsset.Native?
    ensures forall k :: k in keys ==> k.AccountKey? || k.TrustLineKey?
    ensures forall k :: k in keys && k.AccountKey? ==> k == AccountKey(DestID(op))
    ensures forall k :: k in keys && k.TrustLineKey? ==>
              k == TrustLineKey(DestID(op), op.destAsset) || k == TrustLineKey(op.sourceID, op.sendAsset)
    ensures |keys| <= 3
  {
    {AccountKeyOf(DestID(op))}
    + (if !op.destAsset.Native? then {TrustLineKeyOf(DestID(op), op.destAsset)} else {})
    + (if !op.sendAsset.Native? then {TrustLineKeyOf(op.sourceID, op.sendAsset)} else {})
  }

  /** An UnorderedSet<LedgerKey> that the caller owns. */
  class KeySet {
    var keys: set<LedgerKey>

    constructor()
      ensures keys == {}
    {
      keys := {};
    }
  }

  /** The ledger transaction the operation reads and writes. */
  class LedgerTxn {
    var ledgerVersion: uint32
    var accounts: map<AccountID, AccountEntry>
    var trustLines: map<(AccountID, Asset), TrustLineEntry>

    constructor(s: LedgerState)
      ensures State() == s
    {
      ledgerVersion := s.ledgerVersion;
      accounts := s.accounts;
      trustLines := s.trustLines;
    }

    function State(): LedgerState
      reads this
    {
      LedgerState(ledgerVersion, accounts, trustLines)
    }

    /** addBalance on a loaded account: applies `delta` when the result stays within bounds. */
    method AddAccountBalance(id: AccountID, delta: int) returns (ok: bool)
      requires id in accounts
      modifies this
      ensures ok == AddBalance(old(accounts)[id].funds, delta).Some?
      ensures ok ==> State() == old(State()).(accounts :=
        old(accounts)[id := AccountEntry(AddBalance(old(accounts)[id].funds, delta).value)])
      ensures !ok ==> State() == old(State())
    {
      var f := AddBalance(accounts[id].funds, delta);
      if f.Some? {
        accounts := accounts[id := AccountEntry(f.value)];
      }
      ok := f.Some?;
    }

    /** TrustLineWrapper::addBalance on a trust line entry that exists. */
    method AddTrustLineBalance(id: AccountID, asset: Asset, delta: int) returns (ok: bool)
      requires (id, asset) in trustLines
      modifies this
      ensures ok == AddBalance(old(trustLines)[(id, asset)].funds, delta).Some?
      ensures ok ==> State() == old(State()).(trustLines :=
        old(trustLines)[(id, asset) := old(trustLines)[(id, asset)].(funds :=
          AddBalance(old(trustLines)[(id, asset)].funds, delta).value)])
      ensures !ok ==> State() == old(State())
    {
      var f := AddBalance(trustLines[(id, asset)].funds, delta);
      if f.Some? {
        trustLines := trustLines[(id, asset) := trustLines[(id, asset)].(funds := f.value)];
      }
      ok := f.Some?;
    }
  }

  /** getAvailableBalance: what may be spent without going under the floor. */
  function AvailableBalance(e: AccountEntry): int
  {
    e.funds.balance - e.funds.floor
  }

  /**
   * A debit of a positive amount succeeds exactly when the amount is within
   * the available balance; a debit of nothing always succeeds.
   */
  lemma AvailableBalanceBoundsDebit(e: AccountEntry, amount: int)
    requires 0 <= amount
    ensures AddBalance(e.funds, -amount).Some? <==> amount == 0 || amount <= AvailableBalance(e)
  {
  }

  /**
   * addBalance, on an account and (TrustLineWrapper::addBalance) on a real
   * trust line: a zero delta always succeeds and changes nothing, a debit
   * may not take the balance under the floor, and a credit may not take it
   * over the ceiling. Each bound is checked only in its own direction, so an
   * account under its reserve can still be credited.
   */
  function AddBalance(f: Funds, delta: int): (r: Option<Funds>)
    ensures delta == 0 ==> r == Some(f)
    ensures delta < 0 ==> (r.Some? <==> f.floor <= f.balance + delta)
    ensures delta > 0 ==> (r.Some? <==> f.balance + delta <= f.ceiling)
    ensures r.Some? ==> r.value == f.(balance := f.balance + delta)
  {
    if delta == 0 then Some(f)
    else if delta < 0 && f.balance + delta < f.floor then None
    else if delta > 0 && f.balance + delta > f.ceiling then None
    else Some(f.(balance := f.balance + delta))
  }

  /** What loadTrustLine yields. */
  datatype TrustLineView = NoLine | IssuerLine | Line(entry: TrustLineEntry)

  function LoadTrustLine(s: LedgerState, id: AccountID, asset: PaymentAsset): (v: TrustLineView)
    requires IsCredit(asset)
    ensures v.IssuerLine? <==> id == Issuer(asset)
    ensures v.NoLine? <==> id != Issuer(asset) && (id, asset) !in s.trustLines
    ensures v.Line? ==> (id, asset) in s.trustLines && v.entry == s.trustLines[(id, asset)]
  {
    if id == Issuer(asset) then IssuerLine
    else if (id, asset) in s.trustLines then Line(s.trustLines[(id, asset)])
    else NoLine
  }

  /**
   * checkIssuer: before protocol 13 a credit asset whose issuer account is
   * missing fails with NoIssuer; otherwise the check passes.
   */
  function IssuerCheck(s: LedgerState, asset: PaymentAsset): (o: Outcome)
    ensures o.Success? ==> o.ledger == s
    ensures o.Failure? <==> IsCredit(asset) && s.ledgerVersion < 13 && Issuer(asset) !in s.accounts
    ensures o.Failure? ==> o.code == NoIssuer(asset)
    ensures !o.Error?
  {
    if !asset.Native? && IsBefore(s.ledgerVersion, V_13) && Issuer(asset) !in s.accounts
    then Failure(NoIssuer(asset))
    else Success(s)
  }

  /** updateSourceBalance: takes `amount` of the send asset from the source. */
  function SourceUpdate(s: LedgerState, op: PathPaymentOp, amount: int64,
                        bypassIssuerCheck: bool, doesSourceAccountExist: bool): (o: Outcome)
    ensures op.sendAsset.Native? ==>
      (o == Failure(Malformed) <==> StartsFrom(s.ledgerVersion, V_8) && op.sourceID !in s.accounts)
    ensures op.sendAsset.Native? ==>
      (o == Error(NullEntry) <==> IsBefore(s.ledgerVersion, V_8) && op.sourceID !in s.accounts)
    ensures op.sendAsset.Native? && o.Success? ==> doesSourceAccountExist
    ensures IsCredit(op.sendAsset) ==> !o.Error?
    ensures o.Failure? ==>
      o.code in {Malformed, Underfunded, NoIssuer(op.sendAsset), SourceNoTrust, SourceNotAuthorized}
    ensures op.sendAsset.Native? && o.Failure? ==> o.code in {Malformed, Underfunded}
    ensures o == Error(RuntimeError("modifying account that does not exist")) <==>
      && op.sendAsset.Native?
      && op.sourceID in s.accounts
      && amount as int <= AvailableBalance(s.accounts[op.sourceID])
      && !doesSourceAccountExist
    ensures op.sendAsset.Native? && 0 <= amount ==>
      (o.Success? <==>
        && op.sourceID in s.accounts
        && amount as int <= AvailableBalance(s.accounts[op.sourceID])
        && doesSourceAccountExist)
    ensures IsCredit(op.sendAsset) ==>
      (o.Success? <==>
        && (bypassIssuerCheck || IssuerCheck(s, op.sendAsset).Success?)
        && (op.sourceID == Issuer(op.sendAsset)
            || ((op.sourceID, op.sendAsset) in s.trustLines
                && s.trustLines[(op.sourceID, op.sendAsset)].authorized
                && AddBalance(s.trustLines[(op.sourceID, op.sendAsset)].funds, -(amount as int)).Some?)))
    ensures o.Success? ==>
      && o.ledger.ledgerVersion == s.ledgerVersion
      && o.ledger.accounts.Keys == s.accounts.Keys
      && o.ledger.trustLines.Keys == s.trustLines.Keys
  {
    var asset := op.sendAsset;
    var src := op.sourceID;
    if asset.Native? then
      if StartsFrom(s.ledgerVersion, V_8) && src !in s.accounts then Failure(Malformed)
      else if src !in s.accounts then Error(NullEntry)
      else if amount > AvailableBalance(s.accounts[src]) then Failure(Underfunded)
      else if !doesSourceAccountExist then Error(RuntimeError("modifying account that does not exist"))
      else
        match AddBalance(s.accounts[src].funds, -(amount as int))
        case None => Error(AssertionFailed)
        case Some(f) => Success(s.(accounts := s.accounts[src := AccountEntry(f)]))
    else
      var check := IssuerCheck(s, asset);
      if !bypassIssuerCheck && check.Failure? then check
      else
        match LoadTrustLine(s, src, asset)
        case NoLine => Failure(SourceNoTrust)
        case IssuerLine => Success(s)
        case Line(t) =>
          if !t.authorized then Failure(SourceNotAuthorized)
          else
            match AddBalance(t.funds, -(amount as int))
            case None => Failure(Underfunded)
            case Some(f) => Success(s.(trustLines := s.trustLines[(src, asset) := t.(funds := f)]))
  }

  /** updateDestBalance: gives `amount` of the destination asset to the destination. */
  function DestUpdate(s: LedgerState, op: PathPaymentOp, amount: int64, bypassIssuerCheck: bool): (o: Outcome)
    ensures o.Error? <==> op.destAsset.Native? && DestID(op) !in s.accounts
    ensures o.Error? ==> o.exception == NullEntry
    ensures o.Failure? ==> o.code in {LineFull, Malformed, NoIssuer(op.destAsset), DestNoTrust, DestNotAuthorized}
    ensures o.Success? ==>
      && o.ledger.ledgerVersion == s.ledgerVersion
      && o.ledger.accounts.Keys == s.accounts.Keys
      && o.ledger.trustLines.Keys == s.trustLines.Keys
  {
    var asset := op.destAsset;
    var dest := DestID(op);
    if asset.Native? then
      if dest !in s.accounts then Error(NullEntry)
      else
        match AddBalance(s.accounts[dest].funds, amount)
        case None => if StartsFrom(s.ledgerVersion, V_11) then Failure(LineFull) else Failure(Malformed)
        case Some(f) => Success(s.(accounts := s.accounts[dest := AccountEntry(f)]))
    else
      var check := IssuerCheck(s, asset);
      if !bypassIssuerCheck && check.Failure? then check
      else
        match LoadTrustLine(s, dest, asset)
        case NoLine => Failure(DestNoTrust)
        case IssuerLine => Success(s)
        case Line(t) =>
          if !t.authorized then Failure(DestNotAuthorized)
          else
            match AddBalance(t.funds, amount)
            case None => Failure(LineFull)
            case Some(f) => Success(s.(trustLines := s.trustLines[(dest, asset) := t.(funds := f)]))
  }

  /** How far an account holds an asset: its native balance or its trust line's balance. */
  function Holding(s: LedgerState, id: AccountID, asset: PaymentAsset): Option<int>
  {
    if asset.Native? then
      (if id in s.accounts then Some(s.accounts[id].funds.balance) else None)
    else if (id, asset) in s.trustLines then Some(s.trustLines[(id, asset)].funds.balance)
    else None
  }

  /** The entries of `s'` are those of `s`, bounds and flags included, except for the holding at (id, asset). */
  ghost predicate OnlyHoldingChanged(s: LedgerState, s': LedgerState, id: AccountID, asset: PaymentAsset)
  {
    && s'.ledgerVersion == s.ledgerVersion
    && s'.accounts.Keys == s.accounts.Keys
    && s'.trustLines.Keys == s.trustLines.Keys
    && (forall a :: a in s.accounts && (a != id || !asset.Native?) ==> s'.accounts[a] == s.accounts[a])
    && (forall k :: k in s.trustLines && k != (id, asset) ==> s'.trustLines[k] == s.trustLines[k])
    && (asset.Native? && id in s.accounts ==>
          s'.accounts[id].funds == s.accounts[id].funds.(balance := s'.accounts[id].funds.balance))
    && (!asset.Native? && (id, asset) in s.trustLines ==>
          s'.trustLines[(id, asset)] == s.trustLines[(id, asset)].(funds :=
            s.trustLines[(id, asset)].funds.(balance := s'.trustLines[(id, asset)].funds.balance)))
  }

  /**
   * A successful debit takes exactly `amount` from the source's holding and
   * touches nothing else; paying from an issuer's own asset changes nothing.
   */
  lemma SourceUpdateDebits(s: LedgerState, op: PathPaymentOp, amount: int64, bypass: bool, exists': bool)
    requires SourceUpdate(s, op, amount, bypass, exists').Success?
    ensures var s' := SourceUpdate(s, op, amount, bypass, exists').ledger;
      if IsCredit(op.sendAsset) && op.sourceID == Issuer(op.sendAsset) then s' == s
      else
        OnlyHoldingChanged(s, s', op.sourceID, op.sendAsset)
        && Holding(s, op.sourceID, op.sendAsset).Some?
        && Holding(s', op.sourceID, op.sendAsset) == Some(Holding(s, op.sourceID, op.sendAsset).value - amount)
  {
  }

  /**
   * A successful credit adds exactly `amount` to the destination's holding
   * and touches nothing else; paying an issuer its own asset changes nothing.
   */
  lemma DestUpdateCredits(s: LedgerState, op: PathPaymentOp, amount: int64, bypass: bool)
    requires DestUpdate(s, op, amount, bypass).Success?
    ensures var s' := DestUpdate(s, op, amount, bypass).ledger;
      if IsCredit(op.destAsset) && DestID(op) == Issuer(op.destAsset) then s' == s
      else
        OnlyHoldingChanged(s, s', DestID(op), op.destAsset)
        && Holding(s, DestID(op), op.destAsset).Some?
        && Holding(s', DestID(op), op.destAsset) == Some(Holding(s, DestID(op), op.destAsset).value + amount)
  {
  }

  /**
   * A native credit is refused only for the ceiling: an account under its
   * reserve still receives any amount that fits, and a credit of nothing
   * always succeeds.
   */
  lemma NativeCreditIgnoresFloor(s: LedgerState, op: PathPaymentOp, amount: int64, bypass: bool)
    requires op.destAsset.Native? && DestID(op) in s.accounts && 0 <= amount
    ensures DestUpdate(s, op, amount, bypass).Success? <==>
      s.accounts[DestID(op)].funds.balance + amount <= s.accounts[DestID(op)].funds.ceiling || amount == 0
  {
  }

  /**
   * For a native send, the release assertion after the debit cannot fire:
   * an amount within the available balance keeps the account above its
   * floor, and a debit is never checked against the ceiling.
   */
  lemma NativeDebitAssertionHolds(s: LedgerState, op: PathPaymentOp, amount: int64, bypass: bool, exists': bool)
    requires op.sendAsset.Native? && op.sourceID in s.accounts
    requires 0 <= amount
    ensures SourceUpdate(s, op, amount, bypass, exists') != Error(AssertionFailed)
    ensures SourceUpdate(s, op, amount, bypass, exists') == Failure(Underfunded)
        <==> amount > AvailableBalance(s.accounts[op.sourceID])
  {
    var f := s.accounts[op.sourceID].funds;
    if amount <= AvailableBalance(s.accounts[op.sourceID]) {
      assert f.floor <= f.balance - amount;
    }
  }

  /** From protocol 13 the issuer check never fails, so bypassing it makes no difference. */
  lemma BypassIrrelevantFromV13(s: LedgerState, op: PathPaymentOp, amount: int64, exists': bool)
    requires StartsFrom(s.ledgerVersion, V_13)
    ensures SourceUpdate(s, op, amount, true, exists') == SourceUpdate(s, op, amount, false, exists')
    ensures DestUpdate(s, op, amount, true) == DestUpdate(s, op, amount, false)
  {
  }

  /** Credits sent straight back to their issuer are always accepted and change nothing. */
  lemma PaymentToIssuerAccepted(s: LedgerState, op: PathPaymentOp, amount: int64)
    requires ShouldBypassIssuerCheck(op, op.path)
    ensures DestUpdate(s, op, amount, true) == Success(s)
  {
  }

  /**
   * Error precedence on the credit side: each failure is reported only when
   * every check before it passed.
   */
  lemma SourceCreditPrecedence(s: LedgerState, op: PathPaymentOp, amount: int64, bypass: bool, exists': bool)
    requires IsCredit(op.sendAsset)
    ensures var o := SourceUpdate(s, op, amount, bypass, exists');
      && (o.Failure? && o.code.NoIssuer? <==> !bypass && IssuerCheck(s, op.sendAsset).Failure?)
      && (o == Failure(SourceNoTrust) <==>
            (bypass || IssuerCheck(s, op.sendAsset).Success?) && LoadTrustLine(s, op.sourceID, op.sendAsset).NoLine?)
      && (o == Failure(SourceNotAuthorized) <==>
            (bypass || IssuerCheck(s, op.sendAsset).Success?)
            && LoadTrustLine(s, op.sourceID, op.sendAsset).Line?
            && !LoadTrustLine(s, op.sourceID, op.sendAsset).entry.authorized)
      && (o == Failure(Underfunded) <==>
            (bypass || IssuerCheck(s, op.sendAsset).Success?)
            && LoadTrustLine(s, op.sourceID, op.sendAsset).Line?
            && LoadTrustLine(s, op.sourceID, op.sendAsset).entry.authorized
            && AddBalance(LoadTrustLine(s, op.sourceID, op.sendAsset).entry.funds, -(amount as int)).None?)
      && !o.Error?
  {
  }

  /** The same precedence for the destination, and the protocol-11 gate on a full native balance. */
  lemma DestPrecedence(s: LedgerState, op: PathPaymentOp, amount: int64, bypass: bool)
    ensures var o := DestUpdate(s, op, amount, bypass);
      && (o.Error? <==> op.destAsset.Native? && DestID(op) !in s.accounts)
      && (o.Failure? && o.code.NoIssuer? <==> IsCredit(op.destAsset) && !bypass && IssuerCheck(s, op.destAsset).Failure?)
      && (o == Failure(Malformed) <==>
            op.destAsset.Native? && DestID(op) in s.accounts && IsBefore(s.ledgerVersion, V_11)
            && AddBalance(s.accounts[DestID(op)].funds, amount).None?)
      && (op.destAsset.Native? && o.Failure? ==> o.code == (if StartsFrom(s.ledgerVersion, V_11) then LineFull else Malformed))
      && (IsCredit(op.destAsset) ==>
            (o == Failure(DestNoTrust) <==>
               (bypass || IssuerCheck(s, op.destAsset).Success?) && LoadTrustLine(s, DestID(op), op.destAsset).NoLine?)
            && (o == Failure(DestNotAuthorized) <==>
               (bypass || IssuerCheck(s, op.destAsset).Success?)
               && LoadTrustLine(s, DestID(op), op.destAsset).Line?
               && !LoadTrustLine(s, DestID(op), op.destAsset).entry.authorized)
            && (o == Failure(LineFull) <==>
               (bypass || IssuerCheck(s, op.destAsset).Success?)
               && LoadTrustLine(s, DestID(op), op.destAsset).Line?
               && LoadTrustLine(s, DestID(op), op.destAsset).entry.authorized
               && AddBalance(LoadTrustLine(s, DestID(op), op.destAsset).entry.funds, amount).None?))
  {
  }

  /** The outcome the result of convertWithOffersAndPools, not modelled, leaves behind. */
  datatype ConvertResult = OK | Partial | FilterStopBadPrice | FilterStopCrossSelf | CrossedTooMany

  /** One crossed offer of the trail. */
  datatype ClaimAtom = ClaimAtom(sellerID: AccountID, offerID: int64)

  /** What the exchange reports: its result and the amounts it moved. */
  datatype Crossing = Crossing(result: ConvertResult, amountSend: int64, amountRecv: int64)

  datatype OfferFilterResult = Keep | StopCrossSelf

  /** The filter convert passes to the exchange: stop at the first offer the source itself made. */
  function CrossSelfFilter(op: PathPaymentOp, seller: AccountID): (f: OfferFilterResult)
    ensures f == StopCrossSelf <==> seller == op.sourceID
  {
    if seller == op.sourceID then StopCrossSelf else Keep
  }

  /**
   * convert: the asserted preconditions, the bounds check on the moved
   * amounts, then the mapping of the exchange's result to a result code.
   */
  function ConvertOutcome(s: LedgerState, offerTrail: seq<ClaimAtom>, sendAsset: Asset, maxSend: int64,
                          recvAsset: Asset, maxRecv: int64, c: Crossing,
                          checkTransfer: (int64, int64, int64, int64) -> bool): (o: Outcome)
    ensures o.Success? <==>
      offerTrail == [] && sendAsset != recvAsset && c.amountSend >= 0 && c.amountRecv >= 0
      && c.result == OK && checkTransfer(maxSend, c.amountSend, maxRecv, c.amountRecv)
    ensures o.Success? ==> o.ledger == s
    ensures o == Error(AssertionFailed) <==> offerTrail != [] || sendAsset == recvAsset
    ensures offerTrail == [] && sendAsset != recvAsset && (c.amountSend < 0 || c.amountRecv < 0) ==>
      o == Error(RuntimeError("amount transferred out of bounds"))
    ensures o == Failure(TooFewOffers) ==> c.result == OK || c.result == Partial
    ensures o.Failure? ==> !c.result.FilterStopBadPrice?
  {
    if offerTrail != [] || sendAsset == recvAsset then Error(AssertionFailed)
    else if c.amountSend < 0 || c.amountRecv < 0 then Error(RuntimeError("amount transferred out of bounds"))
    else
      match c.result
      case FilterStopCrossSelf => Failure(OfferCrossSelf)
      case OK => if checkTransfer(maxSend, c.amountSend, maxRecv, c.amountRecv) then Success(s) else Failure(TooFewOffers)
      case Partial => Failure(TooFewOffers)
      case CrossedTooMany => Failure(ExceededWorkLimit)
      case FilterStopBadPrice => Error(RuntimeError("unexpected convert result"))
  }

  /**
   * Each result code of convert comes from exactly one exchange result,
   * except TooFewOffers, which a complete crossing also yields when the
   * transfer check refuses it.
   */
  lemma ConvertCodes(s: LedgerState, offerTrail: seq<ClaimAtom>, sendAsset: Asset, maxSend: int64,
                     recvAsset: Asset, maxRecv: int64, c: Crossing,
                     checkTransfer: (int64, int64, int64, int64) -> bool)
    requires offerTrail == [] && sendAsset != recvAsset && c.amountSend >= 0 && c.amountRecv >= 0
    ensures var o := ConvertOutcome(s, offerTrail, sendAsset, maxSend, recvAsset, maxRecv, c, checkTransfer);
      && (o == Failure(OfferCrossSelf) <==> c.result == FilterStopCrossSelf)
      && (o == Failure(ExceededWorkLimit) <==> c.result == CrossedTooMany)
      && (o == Failure(TooFewOffers) <==>
            c.result == Partial || (c.result == OK && !checkTransfer(maxSend, c.amountSend, maxRecv, c.amountRecv)))
      && (o.Error? <==> c.result == FilterStopBadPrice)
  {
  }

  /**
   * How a method realises an outcome: true with the outcome's ledger and the
   * result code untouched, false with the ledger untouched and the code set,
   * or the exception with neither touched.
   */
  ghost predicate Realises(o: Outcome, r: Result<bool>, s0: LedgerState, s1: LedgerState,
                           code0: Option<ResultCode>, code1: Option<ResultCode>)
  {
    match o
    case Success(l) => r == Ok(true) && s1 == l && code1 == code0
    case Failure(c) => r == Ok(false) && s1 == s0 && code1 == Some(c)
    case Error(e) => r == Threw(e) && s1 == s0 && code1 == code0
  }

  /** The operation frame: its operation and the result code it sets as a side effect. */
  class PathPaymentOpFrame {
    const op: PathPaymentOp
    var resultCode: Option<ResultCode>

    constructor(op: PathPaymentOp)
      ensures this.op == op && resultCode == None
    {
      this.op := op;
      resultCode := None;
    }

    /** insertLedgerKeysToPrefetch: adds this operation's keys to the caller's set. */
    method InsertLedgerKeysToPrefetch(keys: KeySet)
      modifies keys
      ensures keys.keys == old(keys.keys) + PrefetchKeys(op)
    {
      var destID := DestID(op);
      keys.keys := keys.keys + {AccountKeyOf(destID)};
      if !op.destAsset.Native? {
        keys.keys := keys.keys + {TrustLineKeyOf(destID, op.destAsset)};
      }
      if !op.sendAsset.Native? {
        keys.keys := keys.keys + {TrustLineKeyOf(op.sourceID, op.sendAsset)};
      }
    }

    method CheckIssuer(ltx: LedgerTxn, asset: PaymentAsset) returns (ok: bool)
      modifies this
      ensures Realises(IssuerCheck(ltx.State(), asset), Ok(ok), ltx.State(), ltx.State(), old(resultCode), resultCode)
    {
      if !asset.Native? {
        if IsBefore(ltx.ledgerVersion, V_13) && Issuer(asset) !in ltx.accounts {
          resultCode := Some(NoIssuer(asset));
          return false;
        }
      }
      return true;
    }

    /** convert, given what the exchange (not modelled) reports. */
    method Convert(ltx: LedgerTxn, sendAsset: Asset, maxSend: int64, recvAsset: Asset, maxRecv: int64,
                   offerTrail: seq<ClaimAtom>, crossing: Crossing,
                   checkTransfer: (int64, int64, int64, int64) -> bool)
      returns (r: Result<bool>)
      modifies this
      ensures Realises(ConvertOutcome(ltx.State(), offerTrail, sendAsset, maxSend, recvAsset, maxRecv,
                                      crossing, checkTransfer),
                       r, ltx.State(), ltx.State(), old(resultCode), resultCode)
    {
      if offerTrail != [] || sendAsset == recvAsset {
        return Threw(AssertionFailed);
      }
      var amountSend := crossing.amountSend;
      var amountRecv := crossing.amountRecv;
      if amountSend < 0 || amountRecv < 0 {
        return Threw(RuntimeError("amount transferred out of bounds"));
      }
      match crossing.result {
        case FilterStopCrossSelf =>
          resultCode := Some(OfferCrossSelf);
          return Ok(false);
        case OK =>
          if !checkTransfer(maxSend, amountSend, maxRecv, amountRecv) {
            resultCode := Some(TooFewOffers);
            return Ok(false);
          }
        case Partial =>
          resultCode := Some(TooFewOffers);
          return Ok(false);
        case CrossedTooMany =>
          resultCode := Some(ExceededWorkLimit);
          return Ok(false);
        case FilterStopBadPrice =>
          return Threw(RuntimeError("unexpected convert result"));
      }
      return Ok(true);
    }

    method UpdateSourceBalance(ltx: LedgerTxn, amount: int64, bypassIssuerCheck: bool,
                               doesSourceAccountExist: bool)
      returns (r: Result<bool>)
      modifies this, ltx
      ensures Realises(SourceUpdate(old(ltx.State()), op, amount, bypassIssuerCheck, doesSourceAccountExist),
                       r, old(ltx.State()), ltx.State(), old(resultCode), resultCode)
    {
      var asset := op.sendAsset;
      if asset.Native? {
        if StartsFrom(ltx.ledgerVersion, V_8) {
          if op.sourceID !in ltx.accounts {
            resultCode := Some(Malformed);
            return Ok(false);
          }
        } else if op.sourceID !in ltx.accounts {
          return Threw(NullEntry);
        }
        if amount > AvailableBalance(ltx.accounts[op.sourceID]) {
          resultCode := Some(Underfunded);
          return Ok(false);
        }
        if !doesSourceAccountExist {
          return Threw(RuntimeError("modifying account that does not exist"));
        }
        var ok := ltx.AddAccountBalance(op.sourceID, -(amount as int));
        if !ok {
          return Threw(AssertionFailed);
        }
      } else {
        if !bypassIssuerCheck {
          var passed := CheckIssuer(ltx, asset);
          if !passed {
            return Ok(false);
          }
        }
        if op.sourceID != Issuer(asset) {
          if (op.sourceID, asset) !in ltx.trustLines {
            resultCode := Some(SourceNoTrust);
            return Ok(false);
          }
          if !ltx.trustLines[(op.sourceID, asset)].authorized {
            resultCode := Some(SourceNotAuthorized);
            return Ok(false);
          }
          var ok := ltx.AddTrustLineBalance(op.sourceID, asset, -(amount as int));
          if !ok {
            resultCode := Some(Underfunded);
            return Ok(false);
          }
        }
      }
      return Ok(true);
    }

    method UpdateDestBalance(ltx: LedgerTxn, amount: int64, bypassIssuerCheck: bool)
      returns (r: Result<bool>)
      modifies this, ltx
      ensures Realises(DestUpdate(old(ltx.State()), op, amount, bypassIssuerCheck),
                       r, old(ltx.State()), ltx.State(), old(resultCode), resultCode)
    {
      var destID := DestID(op);
      var asset := op.destAsset;
      if asset.Native? {
        if destID !in ltx.accounts {
          return Threw(NullEntry);
        }
        var ok := ltx.AddAccountBalance(destID, amount);
        if !ok {
          if StartsFrom(ltx.ledgerVersion, V_11) {
            resultCode := Some(LineFull);
          } else {
            resultCode := Some(Malformed);
          }
          return Ok(false);
        }
      } else {
        if !bypassIssuerCheck {
          var passed := CheckIssuer(ltx, asset);
          if !passed {
            return Ok(false);
          }
        }
        if destID != Issuer(asset) {
          if (destID, asset) !in ltx.trustLines {
            resultCode := Some(DestNoTrust);
            return Ok(false);
          }
          if !ltx.trustLines[(destID, asset)].authorized {
            resultCode := Some(DestNotAuthorized);
            return Ok(false);
          }
          var ok := ltx.AddTrustLineBalance(destID, asset, amount);
          if !ok {
            resultCode := Some(LineFull);
            return Ok(false);
          }
        }
      }
      return Ok(true);
    }
  }
}
