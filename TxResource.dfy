/**
 * The resource tuple of a transaction (src/util/TxResource.h): one int64
 * for a classic transaction (its operation count), seven for a Soroban one.
 */
module TxResource {
  import opened Types
  import Text

  const NUM_CLASSIC_TX_RESOURCES: nat := 1
  const NUM_SOROBAN_TX_RESOURCES: nat := 7

  /** The tuple; only the two sizes the constructors accept are values of the type. */
  type Resource = v: seq<int64>
    | |v| == NUM_CLASSIC_TX_RESOURCES || |v| == NUM_SOROBAN_TX_RESOURCES
    witness [0]

  datatype ResourceType =
    | Operations | Instructions | ByteSize | ReadBytes | WriteBytes
    | ReadLedgerEntries | WriteLedgerEntries

  /** The enumerator's underlying value, which getVal uses as an index. */
  function Index(t: ResourceType): (i: nat)
    ensures i < NUM_SOROBAN_TX_RESOURCES
    ensures i == 0 <==> t == Operations
  {
    match t
    case Operations => 0
    case Instructions => 1
    case ByteSize => 2
    case ReadBytes => 3
    case WriteBytes => 4
    case ReadLedgerEntries => 5
    case WriteLedgerEntries => 6
  }

  /** Distinct resource types address distinct components. */
  lemma IndexInjective(s: ResourceType, t: ResourceType)
    ensures Index(s) == Index(t) ==> s == t
  {
  }

  /** The vector constructor: only 1 or 7 components are accepted. */
  function FromVector(args: seq<int64>): (r: Result<Resource>)
    ensures r.Ok? <==> |args| == NUM_CLASSIC_TX_RESOURCES || |args| == NUM_SOROBAN_TX_RESOURCES
    ensures r.Ok? ==> r.value == args
    ensures !r.Ok? ==> r == Threw(RuntimeError("Invalid number of resources"))
  {
    if |args| != NUM_CLASSIC_TX_RESOURCES && |args| != NUM_SOROBAN_TX_RESOURCES then
      Threw(RuntimeError("Invalid number of resources"))
    else
      Ok(args)
  }

  /** The scalar constructor: a classic resource holding exactly `arg`. */
  function FromScalar(arg: int64): (r: Resource)
    ensures |r| == NUM_CLASSIC_TX_RESOURCES && r[0] == arg
  {
    [arg]
  }

  function Size(r: Resource): (n: nat)
    ensures n == |r|
    ensures n == NUM_CLASSIC_TX_RESOURCES || n == NUM_SOROBAN_TX_RESOURCES
  {
    |r|
  }

  /** isZero: std::all_of(x == 0) over the components, walked front to back. */
  function IsZero(r: seq<int64>): (b: bool)
    ensures b <==> forall i :: 0 <= i < |r| ==> r[i] == 0
  {
    if |r| == 0 then true else r[0] == 0 && IsZero(r[1..])
  }

  /** anyPositive: std::any_of(x > 0) over the components, walked front to back. */
  function AnyPositive(r: seq<int64>): (b: bool)
    ensures b <==> exists i :: 0 <= i < |r| && r[i] > 0
  {
    if |r| == 0 then false else r[0] > 0 || AnyPositive(r[1..])
  }

  /** A zero tuple has no positive component. */
  lemma ZeroHasNoPositive(r: Resource)
    requires IsZero(r)
    ensures !AnyPositive(r)
  {
  }

  /** makeEmpty: a zero tuple of the classic or the Soroban size, built through the vector constructor. */
  function MakeEmpty(isSoroban: bool): (r: Resource)
    ensures |r| == (if isSoroban then NUM_SOROBAN_TX_RESOURCES else NUM_CLASSIC_TX_RESOURCES)
    ensures IsZero(r) && !AnyPositive(r)
  {
    var n := if isSoroban then NUM_SOROBAN_TX_RESOURCES else NUM_CLASSIC_TX_RESOURCES;
    FromVector(seq(n, _ => 0)).value
  }

  /** getVal: vector::at on the enumerator's index; out_of_range past the end. */
  function GetVal(r: Resource, valType: ResourceType): (v: Result<int64>)
    ensures v.Ok? <==> Index(valType) < |r|
    ensures v.Ok? ==> v.value == r[Index(valType)]
    ensures !v.Ok? ==> v == Threw(OutOfRange)
  {
    var i := Index(valType);
    if i < |r| then Ok(r[i]) else Threw(OutOfRange)
  }

  /** A classic resource answers only for OPERATIONS; a Soroban one for every type. */
  lemma GetValBySize(r: Resource, valType: ResourceType)
    ensures |r| == NUM_CLASSIC_TX_RESOURCES ==> (GetVal(r, valType).Ok? <==> valType == Operations)
    ensures |r| == NUM_SOROBAN_TX_RESOURCES ==> GetVal(r, valType).Ok?
  {
  }

  /** toString's result: every component's decimal form followed by ", ". */
  function Rendered(values: seq<int64>, decimal: int64 -> string): string
  {
    if |values| == 0 then ""
    else Rendered(values[..|values| - 1], decimal) + decimal(values[|values| - 1]) + ", "
  }

  /** The loop of toString, accumulating into `res`. */
  method ToString(r: Resource, decimal: int64 -> string) returns (res: string)
    ensures res == Rendered(r, decimal)
  {
    res := "";
    for i := 0 to |r|
      invariant res == Rendered(r[..i], decimal)
    {
      assert r[..i + 1][..i] == r[..i];
      res := res + decimal(r[i]) + ", ";
    }
    assert r[..|r|] == r;
  }

  /** Rendering read from the front: the first component comes first. */
  lemma {:induction false} RenderedCons(x: int64, values: seq<int64>, decimal: int64 -> string)
    ensures Rendered([x] + values, decimal) == decimal(x) + ", " + Rendered(values, decimal)
  {
    var all := [x] + values;
    if |values| > 0 {
      var front := values[..|values| - 1];
      assert all[..|all| - 1] == [x] + front;
      RenderedCons(x, front, decimal);
    } else {
      assert all[..|all| - 1] == [];
    }
  }

  /**
   * The rendering loses nothing: given a decimal form that is injective and
   * never contains ',', equal strings come only from equal tuples.
   */
  lemma {:induction false} RenderedInjective(a: seq<int64>, b: seq<int64>, decimal: int64 -> string)
    requires Text.SeparableBy(decimal, ',')
    requires Rendered(a, decimal) == Rendered(b, decimal)
    ensures a == b
  {
    if |a| > 0 && |b| > 0 {
      assert a == [a[0]] + a[1..];
      assert b == [b[0]] + b[1..];
      RenderedCons(a[0], a[1..], decimal);
      RenderedCons(b[0], b[1..], decimal);
      var ra := " " + Rendered(a[1..], decimal);
      var rb := " " + Rendered(b[1..], decimal);
      assert decimal(a[0]) + ", " + Rendered(a[1..], decimal) == decimal(a[0]) + [','] + ra;
      assert decimal(b[0]) + ", " + Rendered(b[1..], decimal) == decimal(b[0]) + [','] + rb;
      Text.SplitAtSeparator(decimal(a[0]), ra, decimal(b[0]), rb, ',');
      assert Rendered(a[1..], decimal) == ra[1..] == rb[1..] == Rendered(b[1..], decimal);
      RenderedInjective(a[1..], b[1..], decimal);
    }
  }
}
