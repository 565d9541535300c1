/**
 * A half-open range of ledger sequence numbers [first, first + count)
 * (src/ledger/LedgerRange.cpp).
 */
module LedgerRanges {
  import opened Types
  import Text

  datatype LedgerRange = LedgerRange(first: uint32, count: uint32)

  /** The constructor's releaseAssert: only an empty range may start at 0. */
  function Valid(r: LedgerRange): (v: bool)
    ensures v <==> (r.first == 0 ==> r.count == 0)
  {
    r.count == 0 || r.first > 0
  }

  /** The constructor: stores both fields or aborts the process. */
  function Make(first: uint32, count: uint32): (r: Result<LedgerRange>)
    ensures r.Ok? <==> count == 0 || first > 0
    ensures r.Ok? ==> r.value.first == first && r.value.count == count && Valid(r.value)
    ensures !r.Ok? ==> r.Aborted?
  {
    var range := LedgerRange(first, count);
    if Valid(range) then Ok(range) else Aborted
  }

  /**
   * The printed end of the range: first + count computed in uint32, so it
   * wraps around modulo 2^32.
   */
  function End(r: LedgerRange): (e: uint32)
    ensures r.first + r.count < UINT32_MODULUS ==> e == r.first + r.count
    ensures r.first + r.count >= UINT32_MODULUS ==> e == r.first + r.count - UINT32_MODULUS
  {
    (r.first + r.count) % UINT32_MODULUS
  }

  /** "[first,end)"; `decimal` is fmt's {:d} rendering of a uint32. */
  function ToString(r: LedgerRange, decimal: uint32 -> string): (s: string)
    ensures |s| == |decimal(r.first)| + |decimal(End(r))| + 3
    ensures s[0] == '[' && s[|s| - 1] == ')' && s[|decimal(r.first)| + 1] == ','
    ensures s[1..|decimal(r.first)| + 1] == decimal(r.first)
    ensures s[|decimal(r.first)| + 2..|s| - 1] == decimal(End(r))
  {
    "[" + decimal(r.first) + "," + decimal(End(r)) + ")"
  }

  /** Field-wise equality, as the operator compares first, then count. */
  function Equal(x: LedgerRange, y: LedgerRange): (b: bool)
    ensures b <==> x == y
  {
    if x.first != y.first then false
    else if x.count != y.count then false
    else true
  }

  function NotEqual(x: LedgerRange, y: LedgerRange): (b: bool)
    ensures b <==> x != y
    ensures b == !Equal(x, y)
  {
    !Equal(x, y)
  }

  /**
   * The printed form identifies the range: given a decimal rendering that is
   * injective and never prints ',', two ranges print alike exactly when they
   * are equal, even when the end wraps around.
   */
  lemma ToStringIdentifiesRange(x: LedgerRange, y: LedgerRange, decimal: uint32 -> string)
    requires Text.SeparableBy(decimal, ',')
    ensures ToString(x, decimal) == ToString(y, decimal) <==> x == y
  {
    if ToString(x, decimal) == ToString(y, decimal) {
      var sx, sy := ToString(x, decimal), ToString(y, decimal);
      var firstX, restX := decimal(x.first), decimal(End(x)) + ")";
      var firstY, restY := decimal(y.first), decimal(End(y)) + ")";
      assert sx == "[" + (firstX + [','] + restX);
      assert sy == "[" + (firstY + [','] + restY);
      assert firstX + [','] + restX == sx[1..] == sy[1..] == firstY + [','] + restY;
      Text.SplitAtSeparator(firstX, restX, firstY, restY, ',');
      assert decimal(End(x)) == restX[..|restX| - 1] == restY[..|restY| - 1] == decimal(End(y));
    }
  }

  /** A valid non-empty range that does not wrap prints its last ledger + 1 as the end. */
  lemma ToStringIsHalfOpen(r: LedgerRange, decimal: uint32 -> string)
    requires Valid(r) && r.count > 0 && r.first + r.count < UINT32_MODULUS
    ensures ToString(r, decimal) == "[" + decimal(r.first) + "," + decimal(r.first + r.count) + ")"
    ensures r.first < End(r)
  {
  }
}
