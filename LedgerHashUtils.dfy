/**
 * The hashers that let assets and ledger keys index unordered containers
 * (src/ledger/LedgerHashUtils.h). size_t is 64 bits wide. SipHash
 * (shortHash::computeHash, keyed per process) is the parameter `shortHash`;
 * std::hash<uint256> is shortHash of the first 8 bytes (src/util/HashOfHash.cpp).
 */
module LedgerHashUtils {
  import opened Types
  import opened LedgerXdr

  const SCRAMBLE_MULTIPLIER: bv64 := 0x2127599bf4325c37
  const MIX_MULTIPLIER: bv64 := 0x880355f21e6d1965

  /** std::hash<uint256>: SipHash of the first 8 bytes only. */
  function HashOfUint256(x: Hash, shortHash: seq<byte> -> bv64): bv64
  {
    shortHash(x[..8])
  }

  /** Two digests that agree on their first 8 bytes hash alike, whatever follows. */
  lemma HashOfUint256ReadsPrefix(x: Hash, y: Hash, shortHash: seq<byte> -> bv64)
    requires x[..8] == y[..8]
    ensures HashOfUint256(x, shortHash) == HashOfUint256(y, shortHash)
  {
  }

  /**
   * hashMix: the new value of the accumulator `h`, one let per statement of
   * the source (v ^= v >> 23; v *= SCRAMBLE_MULTIPLIER; v ^= v >> 47;
   * h ^= v; h *= MIX_MULTIPLIER). bv64 multiplication wraps modulo 2^64.
   */
  function Mix(h: bv64, v: bv64): bv64
  {
    var v1 := v ^ (v >> 23);
    var v2 := v1 * SCRAMBLE_MULTIPLIER;
    var v3 := v2 ^ (v2 >> 47);
    var h1 := h ^ v3;
    h1 * MIX_MULTIPLIER
  }

  /** The first shift-xor step of hashMix is undone by xoring in the shifts by 23 and 46. */
  lemma FirstShiftXorInvertible(x: bv64)
    ensures var y := x ^ (x >> 23); y ^ (y >> 23) ^ (y >> 46) == x
  {
  }

  /** The second shift-xor step of hashMix is its own inverse. */
  lemma SecondShiftXorInvolution(x: bv64)
    ensures var y := x ^ (x >> 47); y ^ (y >> 47) == x
  {
  }

  /** getLiquidityPoolID(Asset): a plain Asset has no pool id, so this always throws. */
  function PoolIDOfAsset(a: Asset): (r: Result<PoolID>)
    ensures r == Threw(RuntimeError("cannot get PoolID from Asset"))
  {
    Threw(RuntimeError("cannot get PoolID from Asset"))
  }

  /** getLiquidityPoolID(TrustLineAsset): the pool id of a pool-share trust-line asset. */
  function PoolIDOfTrustLineAsset(a: Asset): (r: Result<PoolID>)
    requires a.PoolShare?
    ensures r.Ok? && r.value == a.liquidityPoolID
  {
    Ok(a.liquidityPoolID)
  }

  /** Which specialisation instantiates getAssetHash: std::hash<Asset> or std::hash<TrustLineAsset>. */
  datatype AssetKind = PlainAsset | TrustLineAsset

  function PoolID(kind: AssetKind, a: Asset): Result<PoolID>
    requires a.PoolShare?
  {
    if kind == PlainAsset then PoolIDOfAsset(a) else PoolIDOfTrustLineAsset(a)
  }

  /**
   * getAssetHash: start from the asset type; a native asset stops there, a
   * credit asset mixes its issuer's hash then its code's SipHash, a pool
   * share mixes its pool id's hash.
   */
  function AssetHash(kind: AssetKind, a: Asset, shortHash: seq<byte> -> bv64): (r: Result<bv64>)
    ensures !r.Aborted?
    ensures r.Threw? <==> a.Unrecognized? || (a.PoolShare? && kind == PlainAsset)
    ensures a.Native? ==> r == Ok(0)
  {
    match a
    case Native => Ok(AssetTypeCode(a))
    case CreditAlphanum4(code, issuer) =>
      Ok(Mix(Mix(AssetTypeCode(a), HashOfUint256(issuer, shortHash)), shortHash(code)))
    case CreditAlphanum12(code, issuer) =>
      Ok(Mix(Mix(AssetTypeCode(a), HashOfUint256(issuer, shortHash)), shortHash(code)))
    case PoolShare(_) =>
      (match PoolID(kind, a)
       case Ok(pool) => Ok(Mix(AssetTypeCode(a), HashOfUint256(pool, shortHash)))
       case Threw(e) => Threw(e)
       case Aborted => Aborted)
    case Unrecognized => Threw(RuntimeError("unknown Asset type"))
  }

  /** getAssetHash as the source runs it: the accumulator `res` threaded through hashMix calls. */
  method GetAssetHash(kind: AssetKind, asset: Asset, shortHash: seq<byte> -> bv64)
    returns (r: Result<bv64>)
    ensures r == AssetHash(kind, asset, shortHash)
  {
    if asset.Unrecognized? {
      return Threw(RuntimeError("unknown Asset type"));
    }
    var res := AssetTypeCode(asset);
    match asset {
      case Native =>
      case CreditAlphanum4(code, issuer) =>
        res := Mix(res, HashOfUint256(issuer, shortHash));
        res := Mix(res, shortHash(code));
      case CreditAlphanum12(code, issuer) =>
        res := Mix(res, HashOfUint256(issuer, shortHash));
        res := Mix(res, shortHash(code));
      case PoolShare(_) =>
        var pool := PoolID(kind, asset);
        if !pool.Ok? {
          return if pool.Threw? then Threw(pool.exception) else Aborted;
        }
        res := Mix(res, HashOfUint256(pool.value, shortHash));
      case Unrecognized =>
    }
    r := Ok(res);
  }

  /** std::hash<Asset> and std::hash<TrustLineAsset> agree on every asset that is not a pool share. */
  lemma AssetHashersAgree(a: Asset, shortHash: seq<byte> -> bv64)
    requires !a.PoolShare?
    ensures AssetHash(PlainAsset, a, shortHash) == AssetHash(TrustLineAsset, a, shortHash)
  {
  }

  /** An issuer enters the asset hash only through its first 8 bytes. */
  lemma AssetHashReadsIssuerPrefix(a: Asset, b: Asset, kind: AssetKind, shortHash: seq<byte> -> bv64)
    requires IsCredit(a) && IsCredit(b)
    requires a.CreditAlphanum4? == b.CreditAlphanum4?
    requires (if a.CreditAlphanum4? then a.assetCode4 == b.assetCode4 else a.assetCode12 == b.assetCode12)
    requires a.issuer[..8] == b.issuer[..8]
    ensures AssetHash(kind, a, shortHash) == AssetHash(kind, b, shortHash)
  {
  }

  /** The key kinds the hash handles when the next-protocol build flag is off. */
  predicate HashedKind(k: LedgerKey)
  {
    k.AccountKey? || k.TrustLineKey? || k.OfferKey? || k.DataKey?
    || k.ClaimableBalanceKey? || k.LiquidityPoolKey?
  }

  /**
   * std::hash<LedgerKey>: start from the key type and mix the key's fields,
   * the trust line's asset through std::hash<TrustLineAsset>. The offer id
   * is hashed as its 8 in-memory bytes. Any other kind reaches abort().
   */
  function LedgerKeyHash(k: LedgerKey, shortHash: seq<byte> -> bv64): (r: Result<bv64>)
    ensures r.Aborted? <==> !HashedKind(k)
    ensures r.Threw? <==> k.TrustLineKey? && k.asset.Unrecognized?
  {
    match k
    case AccountKey(id) => Ok(Mix(LedgerEntryTypeCode(k), HashOfUint256(id, shortHash)))
    case TrustLineKey(id, asset) =>
      var assetHash := AssetHash(TrustLineAsset, asset, shortHash);
      if assetHash.Ok? then
        Ok(Mix(Mix(LedgerEntryTypeCode(k), HashOfUint256(id, shortHash)), assetHash.value))
      else assetHash
    case OfferKey(_, offerID) => Ok(Mix(LedgerEntryTypeCode(k), shortHash(Int64Bytes(offerID))))
    case DataKey(id, name) =>
      Ok(Mix(Mix(LedgerEntryTypeCode(k), HashOfUint256(id, shortHash)), shortHash(name)))
    case ClaimableBalanceKey(id) => Ok(Mix(LedgerEntryTypeCode(k), HashOfUint256(id, shortHash)))
    case LiquidityPoolKey(id) => Ok(Mix(LedgerEntryTypeCode(k), HashOfUint256(id, shortHash)))
    case _ => Aborted
  }

  /** std::hash<LedgerKey> as the source runs it: the accumulator `res` threaded through hashMix. */
  method HashLedgerKey(k: LedgerKey, shortHash: seq<byte> -> bv64) returns (r: Result<bv64>)
    ensures r == LedgerKeyHash(k, shortHash)
  {
    if !HashedKind(k) {
      return Aborted;
    }
    var res := LedgerEntryTypeCode(k);
    match k {
      case AccountKey(id) =>
        res := Mix(res, HashOfUint256(id, shortHash));
      case TrustLineKey(id, asset) =>
        res := Mix(res, HashOfUint256(id, shortHash));
        var assetHash := GetAssetHash(TrustLineAsset, asset, shortHash);
        if !assetHash.Ok? {
          return assetHash;
        }
        res := Mix(res, assetHash.value);
      case DataKey(id, name) =>
        res := Mix(res, HashOfUint256(id, shortHash));
        res := Mix(res, shortHash(name));
      case OfferKey(_, offerID) =>
        res := Mix(res, shortHash(Int64Bytes(offerID)));
      case ClaimableBalanceKey(id) =>
        res := Mix(res, HashOfUint256(id, shortHash));
      case LiquidityPoolKey(id) =>
        res := Mix(res, HashOfUint256(id, shortHash));
      case _ =>
    }
    r := Ok(res);
  }

  /** A pool-share trust line hashes (hash<TrustLineAsset> handles pools), unlike a pool-share Asset. */
  lemma PoolShareTrustLineHashes(id: AccountID, pool: PoolID, shortHash: seq<byte> -> bv64)
    ensures LedgerKeyHash(TrustLineKey(id, PoolShare(pool)), shortHash).Ok?
    ensures AssetHash(PlainAsset, PoolShare(pool), shortHash).Threw?
  {
  }

  /** An offer key's hash reads the offer id only: two offers with the same id collide whoever sells. */
  lemma OfferHashIgnoresSeller(s1: AccountID, s2: AccountID, offerID: int64, shortHash: seq<byte> -> bv64)
    ensures LedgerKeyHash(OfferKey(s1, offerID), shortHash) == LedgerKeyHash(OfferKey(s2, offerID), shortHash)
  {
  }

  /** Every id-carrying key is hashed through the first 8 bytes of the id alone. */
  lemma LedgerKeyHashReadsIdPrefix(k1: LedgerKey, k2: LedgerKey, shortHash: seq<byte> -> bv64)
    requires k1.AccountKey? || k1.ClaimableBalanceKey? || k1.LiquidityPoolKey?
    requires k1.AccountKey? == k2.AccountKey?
    requires k1.ClaimableBalanceKey? == k2.ClaimableBalanceKey?
    requires k1.LiquidityPoolKey? == k2.LiquidityPoolKey?
    requires k1.AccountKey? ==> k1.accountID[..8] == k2.accountID[..8]
    requires k1.ClaimableBalanceKey? ==> k1.balanceID[..8] == k2.balanceID[..8]
    requires k1.LiquidityPoolKey? ==> k1.liquidityPoolID[..8] == k2.liquidityPoolID[..8]
    ensures LedgerKeyHash(k1, shortHash) == LedgerKeyHash(k2, shortHash)
  {
  }
}
