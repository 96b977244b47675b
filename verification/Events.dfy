/** Addresses and path manager events. */
module Events {
  import opened Words

  /** An IP address as its 4 or 16 octets; no octets is the zero value, not an address. */
  datatype Address = Address(octets: seq<Byte>)

  const NO_ADDRESS: Address := Address([])

  predicate MappedIPv4(a: Address) {
    && |a.octets| == 16
    && a.octets[10] == 0xff && a.octets[11] == 0xff
    && forall i :: 0 <= i < 10 ==> a.octets[i] == 0
  }

  /** The canonical form: an IPv4-mapped IPv6 address is its IPv4 address. */
  function Unmap(a: Address): Address {
    if MappedIPv4(a) then Address(a.octets[12..]) else a
  }

  const ESTABLISHED: Byte := 2
  const CLOSED: Byte := 3
  const SUB_ESTABLISHED: Byte := 10
  const SUB_CLOSED: Byte := 11

  datatype PMEvent = PMEvent(
    kind: Byte, token: U32, localId: Byte, remoteId: Byte,
    localAddress: Address, destinationAddress: Address,
    localPort: U16, destinationPort: U16, ifIndex: S32)

  predicate Relevant(kind: Byte) {
    kind == ESTABLISHED || kind == CLOSED || kind == SUB_ESTABLISHED || kind == SUB_CLOSED
  }

  /** What identifies a subflow among the events of one connection. */
  datatype ObservedFlow = ObservedFlow(
    localAddress: Address, destinationAddress: Address,
    localPort: U16, destinationPort: U16, localId: Byte, remoteId: Byte)

  function EventFlow(e: PMEvent): ObservedFlow {
    ObservedFlow(e.localAddress, e.destinationAddress, e.localPort, e.destinationPort, e.localId, e.remoteId)
  }

  /** The events of the path manager that are looked into: established, closed, subflow
      established, subflow closed, as numbered in linux/mptcp_pm.h. */
  lemma RelevantKinds(kind: Byte)
    ensures Relevant(kind) <==> kind in {2, 3, 10, 11}
  {
  }

  /** The same host: equal octets, except that an IPv4-mapped IPv6 address stands for its last
      four. */
  predicate SameHost(raw: Address, stored: Address) {
    stored.octets ==
      if |raw.octets| == 16 && raw.octets[..12] == [0, 0, 0, 0, 0, 0, 0, 0, 0, 0, 0xff, 0xff] then raw.octets[12..]
      else raw.octets
  }

  lemma UnmapIsSameHost(a: Address)
    ensures SameHost(a, Unmap(a))
  {
    if |a.octets| == 16 {
      var prefix := [0, 0, 0, 0, 0, 0, 0, 0, 0, 0, 0xff, 0xff];
      assert a.octets[..12] == prefix <==> forall i :: 0 <= i < 12 ==> a.octets[..12][i] == prefix[i];
      assert forall i :: 0 <= i < 12 ==> a.octets[..12][i] == a.octets[i];
    }
  }

  /** Subflows are told apart by all six fields: addresses, ports and IDs. */
  lemma SameFlowExactly(e: PMEvent, f: PMEvent)
    ensures EventFlow(e) == EventFlow(f) <==>
      && e.localAddress == f.localAddress && e.destinationAddress == f.destinationAddress
      && e.localPort == f.localPort && e.destinationPort == f.destinationPort
      && e.localId == f.localId && e.remoteId == f.remoteId
  {
  }
}
