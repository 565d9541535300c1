# Small sequential pieces of a ledger node, modelled in Dafny

This project models six small pieces of a ledger-replicating node and
proves properties of them:

- **MergeKey** (`MergeKeys`). A bucket merge is identified by the keep-dead
  flag, the hashes of the curr and snap input buckets, and the ordered hashes
  of the shadow buckets. The module covers the constructor loop, field-wise
  equality, the string the hash is computed from, and the diagnostic printer.
- **Resource** (`TxResource`). A transaction's resource tuple is an int64
  vector of length 1 (classic) or 7 (soroban). The module covers the
  validating constructors, the zero and positive queries, indexed access
  that throws past the end, the empty factory and the string rendering.
- **LedgerRange** (`LedgerRanges`). A half-open `[first, first + count)`
  range of ledgers, with its guarded constructor, its text form and
  equality.
- **Protocol version gates** (`ProtocolVersions`). The three comparisons
  every protocol-dependent branch uses.
- **Ledger-key hashing** (`LedgerHashUtils`). The 64-bit mixing step, the
  per-asset hash, the per-ledger-key hash with its throw and abort cases,
  and the two `getLiquidityPoolID` overloads.
- **Path payment** (`PathPayment`). The logic shared by the two
  path-payment operations:
  - which ledger keys to prefetch;
  - whether the payment trades on the exchange;
  - when the issuer check is bypassed;
  - the issuer check itself;
  - how the order book's crossing result becomes a result code;
  - the debit of the source and the credit of the destination, with their
    protocol gates and their order of errors.

Three more modules support these. `Types` holds the scalar types and
`Result`, which is a value or the exception thrown or an abort. `LedgerXdr`
holds the XDR values: assets, muxed accounts and ledger keys. `Text` holds
the string lemmas the printing proofs share: joining with a separator and
splitting a string at the first occurrence of a separator that the leading
part cannot contain.

The following functions come from code outside this model. Each is a
function-typed parameter, and every lemma states what it assumes of it:

- `binToHex` and `hexAbbrev`;
- `std::hash<std::string>`;
- `std::to_string` and `{:d}` formatting;
- SipHash (`shortHash::computeHash`);
- `checkTransfer`.

`std::hash<uint256>` is SipHash of the first 8 bytes
(src/util/HashOfHash.cpp:12-17).

Three classes hold mutable state. The path-payment frame is a class
whose `resultCode` field its methods set. The ledger transaction is a class
whose entry maps `addBalance` updates. The prefetch key set is a class
whose set the prefetch method grows. The remaining loops of the source are
methods. The printer, the hash-input builder and `Resource::toString` are
proved equal to a specification function, and the properties are proved
about those functions. The MergeKey constructor's loop is specified element
by element: the i-th shadow hash is the i-th bucket's. `getAssetHash` and
`hash<LedgerKey>` have no loop. They are switches that thread the
accumulator through `hashMix`, and each is a method proved equal to a
function.

## Model

| member | source | states |
|---|---|---|
| MergeKeys.Make | src/bucket/MergeKey.cpp:13-26 | the key keeps the flag, the curr and snap hashes in place, and the shadow hashes in input order, the i-th shadow hash being the i-th bucket's |
| MergeKeys.Equal | src/bucket/MergeKey.cpp:28-35 | true exactly when flag, curr hash, snap hash and the whole shadow sequence agree |
| MergeKeys.EqualIsEquivalence | src/bucket/MergeKey.cpp:28-35 | equality is reflexive, symmetric and transitive |
| MergeKeys.SwappedInputsDiffer | src/bucket/MergeKey.cpp:31-33 | swapping curr and snap gives an equal key only when the two hashes are the same |
| MergeKeys.FlippedFlagDiffers | src/bucket/MergeKey.cpp:31 | flipping the keep-dead flag always gives an unequal key |
| MergeKeys.ReorderedShadowsDiffer | src/bucket/MergeKey.cpp:34 | swapping two shadows gives an equal key exactly when their hashes are the same |
| MergeKeys.BuildHashInput | src/bucket/MergeKey.cpp:62-69 | the stream loop produces the flag digit, curr hex and snap hex joined by commas, then each shadow's hex followed by a comma |
| MergeKeys.EqualKeysHashEqual | src/bucket/MergeKey.cpp:59-72 | equal keys have equal hashes, whatever the hex and string hashers are |
| MergeKeys.ShadowsTextInjective | src/bucket/MergeKey.cpp:66-69 | with a fixed-width injective hex rendering, the shadow suffix determines the shadow sequence |
| MergeKeys.HashInputInjective | src/bucket/MergeKey.cpp:62-69 | with a fixed-width injective hex rendering, two keys give the same hash input exactly when they are equal, so the string serialisation loses no field |
| MergeKeys.Abbreviations | src/bucket/MergeKey.cpp:43-51 | one abbreviation per shadow, in shadow order |
| MergeKeys.Print | src/bucket/MergeKey.cpp:37-54 | the printing loop with its `first` flag writes the header, the abbreviations separated by ", " with none before the first, then the keep flag as a word |
| MergeKeys.PrintedShadowList | src/bucket/MergeKey.cpp:42-51 | with two or more shadows, the list is the first abbreviation, ", ", then the rest, so the separator never leads |
| TxResource.Index | src/util/TxResource.h:25-34 | every resource type has an index below 7, and only OPERATIONS has index 0 |
| TxResource.IndexInjective | src/util/TxResource.h:25-34 | distinct resource types have distinct indices |
| TxResource.FromVector | src/util/TxResource.h:36-44 | a vector of length 1 or 7 is accepted unchanged; any other length throws "Invalid number of resources" |
| TxResource.FromScalar | src/util/TxResource.h:46-49 | the scalar constructor builds a length-1 resource holding that value |
| TxResource.Size | src/util/TxResource.h:65-69 | the size is the number of components, which is always 1 or 7 |
| TxResource.IsZero | src/util/TxResource.h:51-56 | isZero holds exactly when every component is 0 |
| TxResource.AnyPositive | src/util/TxResource.h:58-63 | anyPositive holds exactly when some component is positive |
| TxResource.ZeroHasNoPositive | src/util/TxResource.h:51-63 | a zero resource has no positive component |
| TxResource.MakeEmpty | src/util/TxResource.h:85-92 | size 7 for soroban and 1 otherwise, every component 0, so it is zero |
| TxResource.GetVal | src/util/TxResource.h:94-98 | the component at the type's index, or out_of_range when that index is at or past the size |
| TxResource.GetValBySize | src/util/TxResource.h:94-98 | on a classic resource only OPERATIONS can be read; on a soroban resource every type can |
| TxResource.ToString | src/util/TxResource.h:71-80 | the loop yields each component's decimal form followed by ", ", in order |
| TxResource.RenderedInjective | src/util/TxResource.h:71-80 | when the decimal rendering is injective and contains no comma, the text determines the components |
| LedgerRanges.Valid | src/ledger/LedgerRange.cpp:16 | the asserted condition: a range starting at ledger 0 must be empty |
| LedgerRanges.Make | src/ledger/LedgerRange.cpp:13-17 | the range is built, with first and count unchanged, exactly when count is 0 or first is positive; otherwise the process aborts |
| LedgerRanges.End | src/ledger/LedgerRange.cpp:22 | the end is first + count reduced modulo 2^32, equal to first + count when that fits |
| LedgerRanges.ToString | src/ledger/LedgerRange.cpp:19-23 | the text is '[', the first ledger's decimal form, ',', the end's decimal form and ')', with no other character |
| LedgerRanges.ToStringIsHalfOpen | src/ledger/LedgerRange.cpp:22 | a valid non-empty range whose end does not wrap prints as "[first,first+count)", and its first ledger lies below its end |
| LedgerRanges.ToStringIdentifiesRange | src/ledger/LedgerRange.cpp:19-23 | with a comma-free injective decimal rendering, two ranges print alike exactly when they are equal, even when the end wraps |
| LedgerRanges.Equal | src/ledger/LedgerRange.cpp:25-37 | true exactly when first and count are both equal |
| LedgerRanges.NotEqual | src/ledger/LedgerRange.cpp:39-43 | the negation of equality |
| ProtocolVersions.IsBefore | src/util/ProtocolVersion.cpp:9-13 | a version is before a gate exactly when it does not start from it, and never equals it |
| ProtocolVersions.StartsFrom | src/util/ProtocolVersion.cpp:15-19 | the gate's own version starts from it, and any other version that starts from it is above it |
| ProtocolVersions.Equals | src/util/ProtocolVersion.cpp:21-25 | true exactly for the gate's own number, that is, when the version is that enumerator |
| ProtocolVersions.StartsFromIsComplement | src/util/ProtocolVersion.cpp:10-19 | isBefore is `<`, and startsFrom is its complement |
| ProtocolVersions.Trichotomy | src/util/ProtocolVersion.cpp:10-25 | equals is `==`, implies startsFrom and not isBefore, and every version is before, at or after a gate |
| ProtocolVersions.StartsFromMonotone | src/util/ProtocolVersion.cpp:16-19 | a gate open for a version stays open for every later one |
| ProtocolVersions.StartsFromEarlierGate | src/util/ProtocolVersion.cpp:16-19 | a gate open at some version means every earlier gate is open too |
| LedgerHashUtils.HashOfUint256ReadsPrefix | src/util/HashOfHash.cpp:12-17 | std::hash<uint256> reads only the first 8 bytes: digests that share them hash alike |
| LedgerHashUtils.FirstShiftXorInvertible | src/ledger/LedgerHashUtils.h:34 | the first shift-xor of hashMix can be undone, so it loses no bits |
| LedgerHashUtils.SecondShiftXorInvolution | src/ledger/LedgerHashUtils.h:36 | the second shift-xor of hashMix is its own inverse |
| LedgerHashUtils.PoolIDOfAsset | src/ledger/LedgerHashUtils.h:18-22 | a plain Asset has no pool id: it always throws "cannot get PoolID from Asset" |
| LedgerHashUtils.PoolIDOfTrustLineAsset | src/ledger/LedgerHashUtils.h:24-28 | a pool-share trust-line asset yields its pool id |
| LedgerHashUtils.AssetHash | src/ledger/LedgerHashUtils.h:41-76 | never aborts; throws exactly for an unknown type or for a pool share hashed as a plain Asset; a native asset hashes to its type value 0 unmixed |
| LedgerHashUtils.GetAssetHash | src/ledger/LedgerHashUtils.h:41-76 | the accumulator threaded through the hashMix calls yields the asset hash |
| LedgerHashUtils.AssetHashersAgree | src/ledger/LedgerHashUtils.h:81-101 | std::hash of Asset and of TrustLineAsset agree on every non-pool asset |
| LedgerHashUtils.AssetHashReadsIssuerPrefix | src/ledger/LedgerHashUtils.h:51-66 | two credit assets with the same code and the same first 8 issuer bytes hash alike |
| LedgerHashUtils.LedgerKeyHash | src/ledger/LedgerHashUtils.h:103-181 | aborts exactly for a key kind outside the six handled ones; throws exactly for a trust line whose asset type is unknown |
| LedgerHashUtils.HashLedgerKey | src/ledger/LedgerHashUtils.h:107-180 | the switch threading the accumulator through hashMix yields the ledger-key hash |
| LedgerHashUtils.PoolShareTrustLineHashes | src/ledger/LedgerHashUtils.h:18-28 | a pool-share trust-line key hashes, though the same pool share as a plain Asset throws |
| LedgerHashUtils.OfferHashIgnoresSeller | src/ledger/LedgerHashUtils.h:132-136 | an offer key's hash reads the offer id only, not the seller |
| LedgerHashUtils.LedgerKeyHashReadsIdPrefix | src/ledger/LedgerHashUtils.h:112-144 | account, claimable-balance and pool keys hash alike when their ids share the first 8 bytes |
| PathPayment.DestID | src/transactions/PathPaymentOpFrameBase.cpp:25-29 | the destination's account, the same whether or not the muxed account carries a sub-account id |
| PathPayment.IsDexOperation | src/transactions/PathPaymentOpFrameBase.cpp:48-54 | not a DEX operation exactly when the path is empty and the send and destination assets are equal |
| PathPayment.ShouldBypassIssuerCheck | src/transactions/PathPaymentOpFrameBase.cpp:128-139 | bypassed exactly when the destination asset is a credit asset issued by the destination, the path is empty, and the assets are equal |
| PathPayment.BypassIsNotDex | src/transactions/PathPaymentOpFrameBase.cpp:48-54 | a payment that bypasses the issuer check never trades |
| PathPayment.PrefetchKeys | src/transactions/PathPaymentOpFrameBase.cpp:31-46 | the destination account key always; the destination trust line exactly for a non-native destination asset; the source trust line exactly for a non-native send asset; nothing else |
| PathPayment.LoadTrustLine | src/transactions/PathPaymentOpFrameBase.cpp:189 | the issuer's line is virtual; any other account has no line exactly when the ledger holds none for it, and otherwise gets the ledger's own entry for (account, asset) |
| PathPayment.AddBalance | src/transactions/PathPaymentOpFrameBase.cpp:179-202 | an addition of zero always succeeds and changes nothing; a debit succeeds exactly when the new balance stays at or above the floor, a credit exactly when it stays at or below the ceiling; on success only the balance moves |
| PathPayment.AvailableBalanceBoundsDebit | src/transactions/PathPaymentOpFrameBase.cpp:168 | a debit of a non-negative amount succeeds exactly when it is zero or within the available balance |
| PathPayment.IssuerCheck | src/transactions/PathPaymentOpFrameBase.cpp:56-70 | fails exactly for a credit asset before protocol 13 whose issuer account is missing, with NoIssuer for that asset; never changes the ledger |
| PathPayment.SourceUpdate | src/transactions/PathPaymentOpFrameBase.cpp:141-210 | for a native send: Malformed exactly when the source account is missing from protocol 8 on, the null-entry exception exactly when it is missing before, "modifying account that does not exist" exactly when the account is loaded and the amount is within its available balance but the caller says it does not exist, and for a non-negative amount success exactly when the account is present, the amount is within its available balance and the account exists, any other failure being Underfunded; for a credit send: never an exception, and success exactly when the issuer check passes or is bypassed and either the source is the issuer or its line is present, authorised and can be debited; failures only Malformed, Underfunded, NoIssuer for the send asset, SourceNoTrust or SourceNotAuthorized; success keeps the version and the sets of entries |
| PathPayment.DestUpdate | src/transactions/PathPaymentOpFrameBase.cpp:212-266 | throws, with the null-entry exception, exactly for a missing native destination; fails only with LineFull, Malformed, NoIssuer for the destination asset, DestNoTrust or DestNotAuthorized; success keeps the version and the sets of entries |
| PathPayment.SourceUpdateDebits | src/transactions/PathPaymentOpFrameBase.cpp:141-210 | a successful debit takes exactly the amount from the source's holding and changes no other entry; an issuer paying its own asset changes nothing |
| PathPayment.DestUpdateCredits | src/transactions/PathPaymentOpFrameBase.cpp:212-266 | a successful credit adds exactly the amount to the destination's holding and changes no other entry; paying an issuer its own asset changes nothing |
| PathPayment.NativeDebitAssertionHolds | src/transactions/PathPaymentOpFrameBase.cpp:168-180 | for an existing source account, a native send of a non-negative amount reports Underfunded exactly when the amount exceeds the available balance, and the release assertion after the debit never fires |
| PathPayment.NativeCreditIgnoresFloor | src/transactions/PathPaymentOpFrameBase.cpp:219-235 | a native credit to an existing destination succeeds exactly when it fits under the ceiling or is zero, even for an account under its reserve |
| PathPayment.BypassIrrelevantFromV13 | src/transactions/PathPaymentOpFrameBase.cpp:56-70 | from protocol 13 bypassing the issuer check changes neither update |
| PathPayment.PaymentToIssuerAccepted | src/transactions/PathPaymentOpFrameBase.cpp:128-139 | credits sent straight back to their issuer, check bypassed, are always accepted and change nothing |
| PathPayment.SourceCreditPrecedence | src/transactions/PathPaymentOpFrameBase.cpp:182-207 | for a credit send: NoIssuer exactly when the unbypassed check fails; SourceNoTrust, SourceNotAuthorized and Underfunded each exactly when every earlier check passed and theirs fails; never an exception |
| PathPayment.DestPrecedence | src/transactions/PathPaymentOpFrameBase.cpp:212-266 | throws only for a missing native destination; a full native balance gives LineFull from protocol 11 and Malformed before; for a credit asset, NoIssuer, then DestNoTrust, then DestNotAuthorized, then LineFull when the authorised line cannot take the amount, each exactly when the earlier checks pass and its own fails |
| PathPayment.CrossSelfFilter | src/transactions/PathPaymentOpFrameBase.cpp:88-96 | the exchange stops exactly at an offer the source account itself made |
| PathPayment.ConvertOutcome | src/transactions/PathPaymentOpFrameBase.cpp:72-126 | convert returns true exactly when the trail is empty, the assets differ, the amounts are non-negative, the crossing is complete and the transfer check passes; a non-empty trail or equal assets fails the assertion; otherwise a negative moved amount throws "amount transferred out of bounds" |
| PathPayment.ConvertCodes | src/transactions/PathPaymentOpFrameBase.cpp:104-123 | OfferCrossSelf comes exactly from a self-cross stop and opEXCEEDED_WORK_LIMIT exactly from crossing too many offers; TooFewOffers comes exactly from a partial crossing or a complete one the transfer check refuses; any other result throws |
| PathPayment.PathPaymentOpFrame.InsertLedgerKeysToPrefetch | src/transactions/PathPaymentOpFrameBase.cpp:31-46 | the caller's key set grows by exactly the prefetch keys |
| PathPayment.PathPaymentOpFrame.CheckIssuer | src/transactions/PathPaymentOpFrameBase.cpp:56-70 | returns the issuer check's verdict and sets NoIssuer only when it fails |
| PathPayment.PathPaymentOpFrame.Convert | src/transactions/PathPaymentOpFrameBase.cpp:72-126 | returns, throws or sets the result code as the convert outcome says |
| PathPayment.PathPaymentOpFrame.UpdateSourceBalance | src/transactions/PathPaymentOpFrameBase.cpp:141-210 | performs the source update: on true the ledger is the debited one; on false the ledger is untouched and the code is set; on an exception nothing is touched |
| PathPayment.PathPaymentOpFrame.UpdateDestBalance | src/transactions/PathPaymentOpFrameBase.cpp:212-266 | performs the destination update with the same three ways to end |
| PathPayment.LedgerTxn.AddAccountBalance | src/transactions/PathPaymentOpFrameBase.cpp:179 | applies the account addition in place when it is within bounds, otherwise changes nothing |
| PathPayment.LedgerTxn.AddTrustLineBalance | src/transactions/PathPaymentOpFrameBase.cpp:202 | applies the trust-line addition in place when it is within bounds, otherwise changes nothing |

## Left out

- LedgerHashUtils.Mix: `hashMix` is the function `Mix`, whose `let`s follow the five statements of src/ledger/LedgerHashUtils.h:34-38. The in-place update of `h` appears at its call sites, which reassign the accumulator. The solver cannot relate a step-by-step bv64 computation with two 64-bit multiplications to the formula, so no separate method performs the steps. The two multiplications are not proved injective either, so no collision freedom of the mix is claimed.
- `hash<InternalLedgerKey>` (src/ledger/LedgerHashUtils.h:183-191) forwards to `InternalLedgerKey::hash`, which is not part of this model.
- The CONTRACT_DATA, CONTRACT_CODE and CONFIG_SETTING arms of `hash<LedgerKey>` are compiled only with the next-protocol build flag. Without it these keys abort, and that is the behaviour modelled.
- The offer id is hashed as its 8 in-memory bytes on a little-endian machine (`LedgerXdr.Int64Bytes`).
- SipHash, `binToHex`, `hexAbbrev`, `std::hash<std::string>`, `std::to_string`, `{:d}` formatting and `checkTransfer` are function parameters, not definitions.
- The exchange is abstract. `convertWithOffersAndPools` is represented only by the result and amounts it reports (`Crossing`), and its changes to the ledger are not modelled.
- `addBalance` and `getAvailableBalance` are reduced to a floor and a ceiling per entry, with the floor checked only on a debit and the ceiling only on a credit; the source of `addBalance` is not part of this model. Their protocol-dependent reserve, liability and authorisation-to-maintain-liabilities rules are not modelled.
- The virtual trust line that TrustLineWrapper gives an asset's issuer is taken as given: present, authorised, and accepting every change without recording it. TrustLineWrapper is not part of this model.
- An entry handle that loaded nothing is modelled as throwing `NullEntry` when it is used. This covers the pre-protocol-8 source account and a missing native destination.
- Amounts are int64 values, but the negation of `amount` is taken on unbounded integers. Negating the most negative int64 is undefined in the source.
- Resource arithmetic, `canAdd`, `limitTo` and the other friends declared at src/util/TxResource.h:82-114 have no definitions in this model. `multiplyByDouble` is floating point.
- MergeKeys.HashInputInjective, TxResource.RenderedInjective, LedgerRanges.ToStringIdentifiesRange: hold only under the stated assumptions on the external renderers (fixed width and injective, or comma-free and injective). Hash equality for unequal keys is not excluded, since `std::hash<std::string>` may collide.
