/**
 * The structural identity of a bucket merge (src/bucket/MergeKey.cpp): the
 * dead-entry retention flag, the hashes of the curr and snap inputs and the
 * ordered hashes of the shadow buckets. Merges with equal keys produce the
 * same output, so the key indexes the table of running and finished merges.
 */
module MergeKeys {
  import opened Types
  import Text

  /** A bucket, seen only through its content hash (Bucket::getHash). */
  datatype Bucket = Bucket(hash: Hash)

  datatype MergeKey = MergeKey(
    keepDeadEntries: bool,
    inputCurrBucket: Hash,
    inputSnapBucket: Hash,
    inputShadowBuckets: seq<Hash>)

  /** The constructor: copies the flag and the two input hashes, then one shadow hash per shadow. */
  method Make(keepDeadEntries: bool, inputCurr: Bucket, inputSnap: Bucket, inputShadows: seq<Bucket>)
    returns (k: MergeKey)
    ensures k.keepDeadEntries == keepDeadEntries
    ensures k.inputCurrBucket == inputCurr.hash && k.inputSnapBucket == inputSnap.hash
    ensures |k.inputShadowBuckets| == |inputShadows|
    ensures forall i :: 0 <= i < |inputShadows| ==> k.inputShadowBuckets[i] == inputShadows[i].hash
  {
    var shadows: seq<Hash> := [];
    for i := 0 to |inputShadows|
      invariant |shadows| == i
      invariant forall j :: 0 <= j < i ==> shadows[j] == inputShadows[j].hash
    {
      shadows := shadows + [inputShadows[i].hash];
    }
    k := MergeKey(keepDeadEntries, inputCurr.hash, inputSnap.hash, shadows);
  }

  /** std::vector equality: same length, equal elements position by position. */
  predicate SameHashes(xs: seq<Hash>, ys: seq<Hash>)
  {
    |xs| == |ys| && forall i :: 0 <= i < |xs| ==> xs[i] == ys[i]
  }

  /** operator==: the conjunction over all four fields, in declaration order. */
  function Equal(a: MergeKey, b: MergeKey): (r: bool)
    ensures r <==> a == b
  {
    && a.keepDeadEntries == b.keepDeadEntries
    && a.inputCurrBucket == b.inputCurrBucket
    && a.inputSnapBucket == b.inputSnapBucket
    && SameHashes(a.inputShadowBuckets, b.inputShadowBuckets)
  }

  /** operator== is an equivalence relation. */
  lemma EqualIsEquivalence(a: MergeKey, b: MergeKey, c: MergeKey)
    ensures Equal(a, a)
    ensures Equal(a, b) ==> Equal(b, a)
    ensures Equal(a, b) && Equal(b, c) ==> Equal(a, c)
  {
  }

  /** Swapping curr and snap yields a different key unless the two hashes coincide. */
  lemma SwappedInputsDiffer(k: MergeKey)
    ensures Equal(k, k.(inputCurrBucket := k.inputSnapBucket, inputSnapBucket := k.inputCurrBucket))
        <==> k.inputCurrBucket == k.inputSnapBucket
  {
  }

  /** Flipping the retention flag always yields a different key. */
  lemma FlippedFlagDiffers(k: MergeKey)
    ensures !Equal(k, k.(keepDeadEntries := !k.keepDeadEntries))
  {
  }

  /** Exchanging two shadows yields a different key unless their hashes coincide: order counts. */
  lemma ReorderedShadowsDiffer(k: MergeKey, i: nat, j: nat)
    requires i < |k.inputShadowBuckets| && j < |k.inputShadowBuckets|
    ensures var s := k.inputShadowBuckets;
      Equal(k, k.(inputShadowBuckets := s[i := s[j]][j := s[i]])) <==> s[i] == s[j]
  {
    var s := k.inputShadowBuckets;
    var t := s[i := s[j]][j := s[i]];
    if s[i] != s[j] {
      assert t[j] != s[j];
    }
  }

  // ----- std::hash<MergeKey> -----

  /** How `ostream << bool` prints without boolalpha. */
  function FlagDigit(b: bool): string
  {
    if b then "1" else "0"
  }

  /** Each shadow's hex followed by ',', in order. */
  function ShadowsText(shadows: seq<Hash>, binToHex: Hash -> string): string
  {
    if |shadows| == 0 then ""
    else ShadowsText(shadows[..|shadows| - 1], binToHex) + binToHex(shadows[|shadows| - 1]) + ","
  }

  /**
   * The string the hash is taken of: flag, curr hex and snap hex joined by
   * ',', then every shadow hex followed by ','. No ',' separates the snap hex
   * from the first shadow hex.
   */
  function HashInput(k: MergeKey, binToHex: Hash -> string): string
  {
    FlagDigit(k.keepDeadEntries) + "," + binToHex(k.inputCurrBucket) + ","
      + binToHex(k.inputSnapBucket) + ShadowsText(k.inputShadowBuckets, binToHex)
  }

  /** The ostringstream loop of std::hash<MergeKey>. */
  method BuildHashInput(k: MergeKey, binToHex: Hash -> string) returns (oss: string)
    ensures oss == HashInput(k, binToHex)
  {
    oss := FlagDigit(k.keepDeadEntries) + "," + binToHex(k.inputCurrBucket) + ","
      + binToHex(k.inputSnapBucket);
    ghost var head := oss;
    var shadows := k.inputShadowBuckets;
    for i := 0 to |shadows|
      invariant oss == head + ShadowsText(shadows[..i], binToHex)
    {
      assert shadows[..i + 1][..i] == shadows[..i];
      oss := oss + binToHex(shadows[i]) + ",";
    }
    assert shadows[..|shadows|] == shadows;
  }

  /** std::hash<MergeKey>: std::hash<std::string> of the serialisation. */
  function KeyHash(k: MergeKey, binToHex: Hash -> string, hashString: string -> bv64): bv64
  {
    hashString(HashInput(k, binToHex))
  }

  /** The memoisation contract: equal keys hash equal. */
  lemma EqualKeysHashEqual(a: MergeKey, b: MergeKey, binToHex: Hash -> string, hashString: string -> bv64)
    requires Equal(a, b)
    ensures KeyHash(a, binToHex, hashString) == KeyHash(b, binToHex, hashString)
  {
  }

  /** binToHex renders every digest as a string of one fixed width. */
  ghost predicate FixedWidth(binToHex: Hash -> string, width: nat)
  {
    forall h :: |binToHex(h)| == width
  }

  /** binToHex maps distinct digests to distinct strings. */
  ghost predicate Injective(binToHex: Hash -> string)
  {
    forall g, h :: binToHex(g) == binToHex(h) ==> g == h
  }

  lemma {:induction false} ShadowsTextLength(shadows: seq<Hash>, binToHex: Hash -> string, width: nat)
    requires FixedWidth(binToHex, width)
    ensures |ShadowsText(shadows, binToHex)| == |shadows| * (width + 1)
  {
    if |shadows| > 0 {
      ShadowsTextLength(shadows[..|shadows| - 1], binToHex, width);
    }
  }

  /** Cancelling a positive factor on both sides of a product. */
  lemma MulCancel(a: nat, b: nat, c: nat)
    requires a * c == b * c && c > 0
    ensures a == b
  {
  }

  lemma {:induction false} ShadowsTextInjective(xs: seq<Hash>, ys: seq<Hash>, binToHex: Hash -> string, width: nat)
    requires FixedWidth(binToHex, width) && Injective(binToHex)
    requires ShadowsText(xs, binToHex) == ShadowsText(ys, binToHex)
    ensures xs == ys
  {
    ShadowsTextLength(xs, binToHex, width);
    ShadowsTextLength(ys, binToHex, width);
    MulCancel(|xs|, |ys|, width + 1);
    if |xs| > 0 {
      var n := |xs| - 1;
      var tx, ty := ShadowsText(xs[..n], binToHex), ShadowsText(ys[..n], binToHex);
      ShadowsTextLength(xs[..n], binToHex, width);
      ShadowsTextLength(ys[..n], binToHex, width);
      var s := ShadowsText(xs, binToHex);
      assert s == tx + binToHex(xs[n]) + ",";
      assert s == ty + binToHex(ys[n]) + ",";
      assert |tx| == |ty|;
      assert tx == s[..|tx|] == ty;
      assert binToHex(xs[n]) == s[|tx|..|tx| + width] == binToHex(ys[n]);
      ShadowsTextInjective(xs[..n], ys[..n], binToHex, width);
      assert xs == xs[..n] + [xs[n]];
      assert ys == ys[..n] + [ys[n]];
    }
  }

  /**
   * The serialisation is injective whenever binToHex is injective and of a
   * fixed width (as hex of a 32-byte digest is): keys that differ in any
   * field, including the order of their shadows, hash from different strings,
   * and so collide only where std::hash<std::string> does.
   */
  lemma HashInputInjective(a: MergeKey, b: MergeKey, binToHex: Hash -> string, width: nat)
    requires FixedWidth(binToHex, width) && Injective(binToHex)
    ensures HashInput(a, binToHex) == HashInput(b, binToHex) <==> Equal(a, b)
  {
    if HashInput(a, binToHex) == HashInput(b, binToHex) {
      var s := HashInput(a, binToHex);
      var w := width;
      assert s == HashInput(b, binToHex);
      assert s[0] == FlagDigit(a.keepDeadEntries)[0] == FlagDigit(b.keepDeadEntries)[0];
      assert binToHex(a.inputCurrBucket) == s[2..2 + w] == binToHex(b.inputCurrBucket);
      assert binToHex(a.inputSnapBucket) == s[3 + w..3 + 2 * w] == binToHex(b.inputSnapBucket);
      assert ShadowsText(a.inputShadowBuckets, binToHex) == s[3 + 2 * w..]
          == ShadowsText(b.inputShadowBuckets, binToHex);
      ShadowsTextInjective(a.inputShadowBuckets, b.inputShadowBuckets, binToHex, width);
    }
  }

  // ----- operator<< -----

  /** How fmt's "{}" prints a bool. */
  function BoolWord(b: bool): string
  {
    if b then "true" else "false"
  }

  function Abbreviations(shadows: seq<Hash>, hexAbbrev: Hash -> string): (r: seq<string>)
    ensures |r| == |shadows| && forall i :: 0 <= i < |shadows| ==> r[i] == hexAbbrev(shadows[i])
  {
    seq(|shadows|, i requires 0 <= i < |shadows| => hexAbbrev(shadows[i]))
  }

  /** The diagnostic form "[curr=…, snap=…, shadows=[…, …], keep=…]". */
  function Printed(k: MergeKey, hexAbbrev: Hash -> string): string
  {
    "[curr=" + hexAbbrev(k.inputCurrBucket) + ", snap=" + hexAbbrev(k.inputSnapBucket)
      + ", shadows=[" + Text.Join(Abbreviations(k.inputShadowBuckets, hexAbbrev), ", ")
      + "], keep=" + BoolWord(k.keepDeadEntries) + "]"
  }

  /** operator<<: the shadow loop writes ", " before every shadow but the first. */
  method Print(k: MergeKey, hexAbbrev: Hash -> string) returns (out: string)
    ensures out == Printed(k, hexAbbrev)
  {
    out := "[curr=" + hexAbbrev(k.inputCurrBucket) + ", snap=" + hexAbbrev(k.inputSnapBucket)
      + ", shadows=[";
    ghost var head := out;
    ghost var all := Abbreviations(k.inputShadowBuckets, hexAbbrev);
    var shadows := k.inputShadowBuckets;
    var first := true;
    for i := 0 to |shadows|
      invariant first <==> i == 0
      invariant out == head + Text.Join(all[..i], ", ")
    {
      assert all[..i + 1][..i] == all[..i];
      if !first {
        out := out + ", ";
      }
      first := false;
      out := out + hexAbbrev(shadows[i]);
    }
    assert all[..|shadows|] == all;
    out := out + "], keep=" + BoolWord(k.keepDeadEntries) + "]";
  }

  /** With several shadows, the first is printed right after "shadows=[" and every later one after ", ". */
  lemma PrintedShadowList(k: MergeKey, hexAbbrev: Hash -> string)
    requires |k.inputShadowBuckets| > 1
    ensures var s := k.inputShadowBuckets;
      Printed(k, hexAbbrev) ==
        "[curr=" + hexAbbrev(k.inputCurrBucket) + ", snap=" + hexAbbrev(k.inputSnapBucket)
        + ", shadows=[" + hexAbbrev(s[0]) + ", "
        + Text.Join(Abbreviations(s[1..], hexAbbrev), ", ")
        + "], keep=" + BoolWord(k.keepDeadEntries) + "]"
  {
    var s := k.inputShadowBuckets;
    assert Abbreviations(s, hexAbbrev) == [hexAbbrev(s[0])] + Abbreviations(s[1..], hexAbbrev);
    Text.JoinCons(hexAbbrev(s[0]), Abbreviations(s[1..], hexAbbrev), ", ");
  }
}
