/**
 * `TransportId`: the origin, destination and (legacy) type of a transport, compared by value, used to
 * exclude particular transports when alternative paths are computed.
 */
module TransportIds {
  import opened Wrappers
  import opened JavaStrings
  import opened JavaInts
  import opened LegacyTransportTypes

  datatype TransportId = TransportId(origin: Int32, destination: Int32, transportType: Option<LegacyTransportType>)

  /** The argument of `equals(Object)`: `null`, a `TransportId`, or an object of some other class. */
  datatype Candidate = NullObject | AnId(id: TransportId) | OtherClass

  /** `new TransportId(transport)`: the three fields copied from the transport's getters. */
  function Of(origin: Int32, destination: Int32, transportType: Option<LegacyTransportType>): (id: TransportId)
    ensures id.origin == origin && id.destination == destination && id.transportType == transportType
  {
    TransportId(origin, destination, transportType)
  }

  /** `equals(o)`. */
  function Equals(a: TransportId, o: Candidate): (eq: bool)
    ensures o.NullObject? || o.OtherClass? ==> !eq
  {
    match o
    case NullObject => false
    case OtherClass => false
    case AnId(b) => a.origin == b.origin && a.destination == b.destination && a.transportType == b.transportType
  }

  /**
   * `hashCode()`: `Objects.hash(origin, destination, type)`, i.e. `31 * (31 * (31 + origin) +
   * destination) + h` in int arithmetic, where `h` is the type's hash (0 for `null`). An enum's hash is
   * its identity hash, which is not part of this model: `typeHash` supplies it.
   */
  function Hash(a: TransportId, typeHash: LegacyTransportType -> Int32): (h: int)
    ensures IsInt32(h)
  {
    var th: int := if a.transportType.None? then 0 else typeHash(a.transportType.value);
    Wrap32(31 * Wrap32(31 * Wrap32(31 + a.origin) + a.destination) + th)
  }

  /** `equals` is value equality of the three fields, hence an equivalence relation. */
  lemma EqualsIsValueEquality(a: TransportId, b: TransportId)
    ensures Equals(a, AnId(b)) <==> a == b
    ensures Equals(a, AnId(a))
    ensures Equals(a, AnId(b)) == Equals(b, AnId(a))
  {
  }

  /** Equal ids have equal hash codes, whatever the enum hashes are. */
  lemma HashConsistentWithEquals(a: TransportId, b: TransportId, typeHash: LegacyTransportType -> Int32)
    requires Equals(a, AnId(b))
    ensures Hash(a, typeHash) == Hash(b, typeHash)
  {
  }
}
