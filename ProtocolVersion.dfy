/**
 * The three protocol-version gates (src/util/ProtocolVersion.cpp) that every
 * protocol-dependent branch of the node goes through.
 */
module ProtocolVersions {
  import opened Types

  /**
   * An enumerator V_n of the ProtocolVersion enum class; its underlying
   * uint32 value is n (ProtocolVersion.h is not part of this model).
   */
  datatype ProtocolVersion = V(number: uint32)

  const V_8: ProtocolVersion := V(8)
  const V_11: ProtocolVersion := V(11)
  const V_13: ProtocolVersion := V(13)

  /** protocolVersionIsBefore: the gate is still closed. */
  function IsBefore(protocolVersion: uint32, beforeVersion: ProtocolVersion): (b: bool)
    ensures b <==> !StartsFrom(protocolVersion, beforeVersion)
    ensures b ==> !Equals(protocolVersion, beforeVersion)
  {
    protocolVersion < beforeVersion.number
  }

  /** protocolVersionStartsFrom: the gate is open, at its own version or later. */
  function StartsFrom(protocolVersion: uint32, fromVersion: ProtocolVersion): (b: bool)
    ensures Equals(protocolVersion, fromVersion) ==> b
    ensures b && !Equals(protocolVersion, fromVersion) ==> protocolVersion > fromVersion.number
  {
    protocolVersion >= fromVersion.number
  }

  /** protocolVersionEquals: exactly the gate's own version. */
  function Equals(protocolVersion: uint32, equalsVersion: ProtocolVersion): (b: bool)
    ensures b <==> protocolVersion == equalsVersion.number
    ensures b <==> V(protocolVersion) == equalsVersion
  {
    protocolVersion == equalsVersion.number
  }

  /** A version either precedes a gate or starts from it, never both. */
  lemma StartsFromIsComplement(p: uint32, v: ProtocolVersion)
    ensures StartsFrom(p, v) <==> !IsBefore(p, v)
    ensures IsBefore(p, v) <==> p < v.number
  {
  }

  /** Exactly one of: before the gate, at the gate, after the gate. */
  lemma Trichotomy(p: uint32, v: ProtocolVersion)
    ensures Equals(p, v) ==> StartsFrom(p, v) && !IsBefore(p, v)
    ensures IsBefore(p, v) || Equals(p, v) || (StartsFrom(p, v) && !Equals(p, v))
    ensures Equals(p, v) <==> p == v.number
  {
  }

  /** Once a gate is open it stays open for every later version. */
  lemma StartsFromMonotone(p: uint32, p': uint32, v: ProtocolVersion)
    requires StartsFrom(p, v) && p <= p'
    ensures StartsFrom(p', v)
  {
  }

  /** A gate that is open for `v` is open for every earlier gate too. */
  lemma StartsFromEarlierGate(p: uint32, v: ProtocolVersion, w: ProtocolVersion)
    requires StartsFrom(p, v) && w.number <= v.number
    ensures StartsFrom(p, w) && !IsBefore(p, w)
  {
  }
}
