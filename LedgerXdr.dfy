/**
 * The XDR values the hashing and path-payment code work on: accounts,
 * assets and ledger keys. Discriminant values are those of the ledger's XDR
 * definitions (AssetType, LedgerEntryType), which are not part of this model.
 */
module LedgerXdr {
  import opened Types

  /** An ed25519 public key. */
  type AccountID = Hash

  type PoolID = Hash

  type AssetCode4 = s: seq<byte> | |s| == 4 witness [0, 0, 0, 0]

  type AssetCode12 = s: seq<byte> | |s| == 12 witness seq(12, _ => 0)

  /**
   * Asset and TrustLineAsset in one type. A plain Asset holds one of the
   * first three arms; PoolShare is the TrustLineAsset arm; Unrecognized
   * stands for a discriminant that no case of a switch handles.
   */
  datatype Asset =
    | Native
    | CreditAlphanum4(assetCode4: AssetCode4, issuer: AccountID)
    | CreditAlphanum12(assetCode12: AssetCode12, issuer: AccountID)
    | PoolShare(liquidityPoolID: PoolID)
    | Unrecognized

  predicate IsCredit(a: Asset)
  {
    a.CreditAlphanum4? || a.CreditAlphanum12?
  }

  /** The assets an operation can name: native or a credit asset. */
  predicate IsPlainAsset(a: Asset)
  {
    a.Native? || IsCredit(a)
  }

  /** getIssuer */
  function Issuer(a: Asset): AccountID
    requires IsCredit(a)
  {
    a.issuer
  }

  /** asset.type(): ASSET_TYPE_NATIVE = 0, CREDIT_ALPHANUM4 = 1, CREDIT_ALPHANUM12 = 2, POOL_SHARE = 3. */
  function AssetTypeCode(a: Asset): bv64
    requires !a.Unrecognized?
  {
    match a
    case Native => 0
    case CreditAlphanum4(_, _) => 1
    case CreditAlphanum12(_, _) => 2
    case PoolShare(_) => 3
  }

  /** A destination that may carry a multiplexed sub-account id. */
  datatype MuxedAccount =
    | KeyEd25519(ed25519: AccountID)
    | MuxedEd25519(id: uint64, ed25519: AccountID)

  /** toAccountID: the account behind a muxed account, whatever its sub-account id. */
  function ToAccountID(m: MuxedAccount): AccountID
  {
    m.ed25519
  }

  /**
   * LedgerKey. The contract-data, contract-code and config-setting keys keep
   * no fields here: the hash that this model covers never reads them.
   * OtherEntryType stands for any further entry type the union may hold.
   */
  datatype LedgerKey =
    | AccountKey(accountID: AccountID)
    | TrustLineKey(accountID: AccountID, asset: Asset)
    | OfferKey(sellerID: AccountID, offerID: int64)
    | DataKey(accountID: AccountID, dataName: seq<byte>)
    | ClaimableBalanceKey(balanceID: Hash)
    | LiquidityPoolKey(liquidityPoolID: PoolID)
    | ContractDataKey
    | ContractCodeKey
    | ConfigSettingKey
    | OtherEntryType

  /** lk.type(): ACCOUNT = 0, TRUSTLINE = 1, OFFER = 2, DATA = 3, CLAIMABLE_BALANCE = 4, LIQUIDITY_POOL = 5. */
  function LedgerEntryTypeCode(k: LedgerKey): bv64
    requires k.AccountKey? || k.TrustLineKey? || k.OfferKey? || k.DataKey?
          || k.ClaimableBalanceKey? || k.LiquidityPoolKey?
  {
    match k
    case AccountKey(_) => 0
    case TrustLineKey(_, _) => 1
    case OfferKey(_, _) => 2
    case DataKey(_, _) => 3
    case ClaimableBalanceKey(_) => 4
    case LiquidityPoolKey(_) => 5
  }

  /** accountKey(id) */
  function AccountKeyOf(id: AccountID): LedgerKey
  {
    AccountKey(id)
  }

  /** trustlineKey(id, asset): the asset converted to a TrustLineAsset keeps its arm. */
  function TrustLineKeyOf(id: AccountID, asset: Asset): LedgerKey
  {
    TrustLineKey(id, asset)
  }

  /**
   * The 8 bytes of an int64 as they lie in memory on a little-endian
   * machine, two's complement.
   */
  function Int64Bytes(x: int64): (r: seq<byte>)
    ensures |r| == 8
  {
    var u := if x < 0 then x + 0x1_0000_0000_0000_0000 else x;
    seq(8, i requires 0 <= i < 8 => ((u / Pow256(i)) % 256) as byte)
  }

  function Pow256(i: nat): (p: nat)
    ensures p > 0
  {
    if i == 0 then 1 else 256 * Pow256(i - 1)
  }
}
