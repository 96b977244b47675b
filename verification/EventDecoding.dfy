/** Path manager events out of generic netlink payloads. */
module EventDecoding {
  import opened Words
  import opened Events
  import opened Netlink

  const AF_INET: U16 := 2
  const AF_INET6: U16 := 10

  predicate Has(m: Attributes, id: U16, v: Bytes) {
    id in m && m[id] == v
  }

  predicate Sized(m: Attributes, id: U16, n: nat) {
    id in m && |m[id]| == n
  }

  predicate HasAddress(m: Attributes, id: U16, size: nat, a: Address) {
    Sized(m, id, size) && a == Unmap(Address(m[id]))
  }

  /** What the event would carry in the fields a closing connection does not report. */
  function Bare(kind: Byte, token: U32): PMEvent {
    PMEvent(kind, token, 0, 0, NO_ADDRESS, NO_ADDRESS, 0, 0, 0)
  }

  /** The kernel's layout: the attributes lay out event `ev`. Token, family and interface
      index are in native order, ports in network order. */
  predicate LaysOut(en: Endian, m: Attributes, ev: PMEvent) {
    && Has(m, 1, Bytes32(en, ev.token))
    && if ev.kind == CLOSED then ev == Bare(CLOSED, ev.token)
       else
         && (|| (Has(m, 2, Bytes16(en, AF_INET)) && HasAddress(m, 5, 4, ev.localAddress)
                 && HasAddress(m, 7, 4, ev.destinationAddress))
             || (Has(m, 2, Bytes16(en, AF_INET6)) && HasAddress(m, 6, 16, ev.localAddress)
                 && HasAddress(m, 8, 16, ev.destinationAddress)))
         && Has(m, 3, [ev.localId]) && Has(m, 4, [ev.remoteId])
         && Has(m, 9, Bytes16(Big, ev.localPort)) && Has(m, 10, Bytes16(Big, ev.destinationPort))
         && (if 15 in m then Has(m, 15, Bytes32(en, WrapU32(ev.ifIndex))) else ev.ifIndex == 0)
  }

  lemma Bytes16Has(en: Endian, m: Attributes, id: U16, x: U16)
    ensures Has(m, id, Bytes16(en, x)) <==> Sized(m, id, 2) && Word16(en, m[id]) == x
  {
    Word16Inverts(en, x);
    if Sized(m, id, 2) { Bytes16Inverts(en, m[id]); }
    assert |Bytes16(en, x)| == 2;
  }

  lemma Bytes32Has(en: Endian, m: Attributes, id: U16, x: U32)
    ensures Has(m, id, Bytes32(en, x)) <==> Sized(m, id, 4) && Word32(en, m[id]) == x
  {
    Word32Inverts(en, x);
    if Sized(m, id, 4) { Bytes32Inverts(en, m[id]); }
    assert |Bytes32(en, x)| == 4;
    hide Word32, Bytes32, Word16, Bytes16;
  }

  lemma SignedWord(x: S32, u: U32)
    ensures WrapU32(x) == u <==> x == AsS32(u)
  {
  }

  /** The same layout, read instead of written. */
  predicate Reads(en: Endian, m: Attributes, ev: PMEvent) {
    && Sized(m, 1, 4) && ev.token == Word32(en, m[1])
    && if ev.kind == CLOSED then ev == Bare(CLOSED, ev.token)
       else
         && Sized(m, 2, 2) && AddressesRead(Word16(en, m[2]), m, ev)
         && Sized(m, 3, 1) && ev.localId == m[3][0]
         && Sized(m, 4, 1) && ev.remoteId == m[4][0]
         && Sized(m, 9, 2) && ev.localPort == Word16(Big, m[9])
         && Sized(m, 10, 2) && ev.destinationPort == Word16(Big, m[10])
         && (if 15 in m then Sized(m, 15, 4) && ev.ifIndex == AsS32(Word32(en, m[15])) else ev.ifIndex == 0)
  }

  predicate AddressesRead(family: U16, m: Attributes, ev: PMEvent) {
    if family == AF_INET then HasAddress(m, 5, 4, ev.localAddress) && HasAddress(m, 7, 4, ev.destinationAddress)
    else
      family == AF_INET6 && HasAddress(m, 6, 16, ev.localAddress) && HasAddress(m, 8, 16, ev.destinationAddress)
  }

  /** The families by their numbers: 2 is IPv4, with four octets in attributes 5 and 7; 10 is
      IPv6, with sixteen in attributes 6 and 8. */
  lemma FamiliesByNumber(family: U16, m: Attributes, ev: PMEvent)
    ensures AddressesRead(family, m, ev) <==>
      || (&& family == 2 && 5 in m && 7 in m && |m[5]| == |m[7]| == 4
          && ev.localAddress == Address(m[5]) && ev.destinationAddress == Address(m[7]))
      || (&& family == 10 && 6 in m && 8 in m && |m[6]| == |m[8]| == 16
          && SameHost(Address(m[6]), ev.localAddress) && SameHost(Address(m[8]), ev.destinationAddress))
  {
    if 6 in m && 8 in m {
      UnmapIsSameHost(Address(m[6]));
      UnmapIsSameHost(Address(m[8]));
    }
    hide SameHost;
    OneHost(m, ev);
  }

  lemma OneHost(m: Attributes, ev: PMEvent)
    ensures 6 in m ==> (SameHost(Address(m[6]), ev.localAddress) <==> ev.localAddress == Unmap(Address(m[6])))
    ensures 8 in m ==> (SameHost(Address(m[8]), ev.destinationAddress) <==> ev.destinationAddress == Unmap(Address(m[8])))
  {
    if 6 in m { UnmapIsSameHost(Address(m[6])); }
    if 8 in m { UnmapIsSameHost(Address(m[8])); }
    hide Unmap;
  }

  lemma ReadsIsLaysOut(en: Endian, m: Attributes, ev: PMEvent)
    ensures Reads(en, m, ev) <==> LaysOut(en, m, ev)
  {
    Bytes32Has(en, m, 1, ev.token);
    Bytes16Has(en, m, 2, AF_INET);
    Bytes16Has(en, m, 2, AF_INET6);
    Bytes16Has(Big, m, 9, ev.localPort);
    Bytes16Has(Big, m, 10, ev.destinationPort);
    Bytes32Has(en, m, 15, WrapU32(ev.ifIndex));
    if Sized(m, 15, 4) { SignedWord(ev.ifIndex, Word32(en, m[15])); }
    hide Word32, Bytes32, Word16, Bytes16, AsS32, WrapU32, Unmap;
  }

  /** Sets the fields of the event one by one, giving up at the first unusable attribute. */
  method Fields(en: Endian, kind: Byte, m: Attributes) returns (r: Option<PMEvent>)
    ensures r.Some? ==> r.value.kind == kind && Reads(en, m, r.value)
    ensures r.None? ==> forall ev: PMEvent :: ev.kind == kind ==> !Reads(en, m, ev)
  {
    hide Word32, Word16, AsS32, Unmap;
    if !Sized(m, 1, 4) { return None; }
    var e := Bare(kind, Word32(en, m[1]));
    if kind == CLOSED { return Some(e); }
    if !Sized(m, 2, 2) { return None; }
    var family := Word16(en, m[2]);
    var local: U16, dest: U16, size := 5, 7, 4;
    if family == AF_INET6 {
      local, dest, size := 6, 8, 16;
    } else if family != AF_INET {
      return None;
    }
    if !Sized(m, local, size) { return None; }
    e := e.(localAddress := Unmap(Address(m[local])));
    if !Sized(m, dest, size) { return None; }
    e := e.(destinationAddress := Unmap(Address(m[dest])));
    if !Sized(m, 3, 1) { return None; }
    e := e.(localId := m[3][0]);
    if !Sized(m, 4, 1) { return None; }
    e := e.(remoteId := m[4][0]);
    if !Sized(m, 9, 2) { return None; }
    e := e.(localPort := Word16(Big, m[9]));
    if !Sized(m, 10, 2) { return None; }
    e := e.(destinationPort := Word16(Big, m[10]));
    if 15 in m {
      if |m[15]| != 4 { return None; }
      e := e.(ifIndex := AsS32(Word32(en, m[15])));
    }
    r := Some(e);
  }

  /** The payload is event `ev`: a four-octet header, then attributes laying it out. Events
      of other kinds are not looked into. */
  ghost predicate Carries(en: Endian, data: Bytes, ev: PMEvent) {
    && |data| >= 4 && ev.kind == data[0]
    && if !Relevant(ev.kind) then ev == Bare(ev.kind, 0)
       else var m := Parse(en, data[4..], map[]); m.Some? && LaysOut(en, m.value, ev)
  }

  method DecodePMEvent(en: Endian, data: Bytes) returns (r: Option<PMEvent>)
    ensures r.Some? ==> Carries(en, data, r.value)
    ensures r.None? ==> forall ev: PMEvent :: !Carries(en, data, ev)
  {
    hide Parse, LaysOut, Reads;
    if |data| < 4 {
      return None;
    }
    var kind := data[0];
    if !Relevant(kind) {
      return Some(Bare(kind, 0));
    }
    var m := NetlinkAttrs(en, data[4..]);
    if m.None? {
      return None;
    }
    r := Fields(en, kind, m.value);
    forall ev: PMEvent
      ensures Reads(en, m.value, ev) <==> LaysOut(en, m.value, ev)
    {
      ReadsIsLaysOut(en, m.value, ev);
    }
  }

  /** A payload carries at most one event. */
  lemma CarriesOne(en: Endian, data: Bytes, e: PMEvent, f: PMEvent)
    requires Carries(en, data, e) && Carries(en, data, f)
    ensures e == f
  {
    if Relevant(e.kind) {
      var m := Parse(en, data[4..], map[]).value;
      ReadsIsLaysOut(en, m, e);
      ReadsIsLaysOut(en, m, f);
      hide Parse, LaysOut, Word32, Word16, AsS32, Unmap;
    }
  }

  /** An event as the kernel reports it: canonical addresses of one family. */
  predicate Reportable(e: PMEvent) {
    && Relevant(e.kind)
    && if e.kind == CLOSED then e == Bare(CLOSED, e.token)
       else
         && |e.localAddress.octets| == |e.destinationAddress.octets|
         && |e.localAddress.octets| in {4, 16}
         && !MappedIPv4(e.localAddress) && !MappedIPv4(e.destinationAddress)
  }

  function Attribute(typ: U16, payload: Bytes): Raw {
    Raw(typ, payload, Zeros(Align(|payload|) - |payload|))
  }

  function AttributesOf(en: Endian, e: PMEvent): seq<Raw> {
    if e.kind == CLOSED then [Attribute(1, Bytes32(en, e.token))]
    else
      var v6 := |e.localAddress.octets| == 16;
      [Attribute(1, Bytes32(en, e.token)),
       Attribute(2, Bytes16(en, if v6 then AF_INET6 else AF_INET)),
       Attribute(3, [e.localId]), Attribute(4, [e.remoteId]),
       Attribute(if v6 then 6 else 5, e.localAddress.octets),
       Attribute(if v6 then 8 else 7, e.destinationAddress.octets),
       Attribute(9, Bytes16(Big, e.localPort)), Attribute(10, Bytes16(Big, e.destinationPort)),
       Attribute(15, Bytes32(en, WrapU32(e.ifIndex)))]
  }

  lemma {:induction false} IncreasingIsDistinct(rs: seq<Raw>, i: nat, j: nat)
    requires forall k :: 0 <= k < |rs| - 1 ==> Masked(rs[k].typ) < Masked(rs[k + 1].typ)
    requires i < j < |rs|
    ensures Masked(rs[i].typ) < Masked(rs[j].typ)
  {
    if i + 1 < j {
      IncreasingIsDistinct(rs, i, j - 1);
    }
    assert Masked(rs[j - 1].typ) < Masked(rs[j - 1 + 1].typ);
  }

  lemma AttributeWellFormed(typ: U16, payload: Bytes)
    requires |payload| <= 16
    ensures WellFormed(Attribute(typ, payload)) && Attribute(typ, payload).typ == typ
    ensures Attribute(typ, payload).payload == payload
  {
  }

  lemma AttributesWellFormed(en: Endian, e: PMEvent)
    requires Reportable(e)
    ensures forall r :: r in AttributesOf(en, e) ==> WellFormed(r)
  {
    assert |Bytes32(en, e.token)| == 4 == |Bytes32(en, WrapU32(e.ifIndex))|;
    assert |Bytes16(en, AF_INET)| == |Bytes16(en, AF_INET6)| == 2;
    assert |Bytes16(Big, e.localPort)| == |Bytes16(Big, e.destinationPort)| == 2;
    hide Bytes32, Bytes16, MappedIPv4, Attribute, WellFormed;
    AttributeWellFormed(1, Bytes32(en, e.token));
    if e.kind != CLOSED {
      var v6 := |e.localAddress.octets| == 16;
      AttributeWellFormed(2, Bytes16(en, if v6 then AF_INET6 else AF_INET));
      AttributeWellFormed(3, [e.localId]);
      AttributeWellFormed(4, [e.remoteId]);
      AttributeWellFormed(if v6 then 6 else 5, e.localAddress.octets);
      AttributeWellFormed(if v6 then 8 else 7, e.destinationAddress.octets);
      AttributeWellFormed(9, Bytes16(Big, e.localPort));
      AttributeWellFormed(10, Bytes16(Big, e.destinationPort));
      AttributeWellFormed(15, Bytes32(en, WrapU32(e.ifIndex)));
    }
  }

  lemma TypesIncrease(en: Endian, e: PMEvent, k: nat)
    requires k + 1 < |AttributesOf(en, e)|
    ensures Masked(AttributesOf(en, e)[k].typ) < Masked(AttributesOf(en, e)[k + 1].typ)
  {
    hide Bytes32, Bytes16, Zeros, Align;
  }

  lemma AttributesDistinct(en: Endian, e: PMEvent)
    requires Reportable(e)
    ensures Distinct(AttributesOf(en, e))
    ensures forall r :: r in AttributesOf(en, e) ==> WellFormed(r)
  {
    AttributesWellFormed(en, e);
    var rs := AttributesOf(en, e);
    forall k | 0 <= k < |rs| - 1
      ensures Masked(rs[k].typ) < Masked(rs[k + 1].typ)
    {
      TypesIncrease(en, e, k);
    }
    hide AttributesOf, Masked, WellFormed;
    forall i, j | 0 <= i < j < |rs|
      ensures Masked(rs[i].typ) != Masked(rs[j].typ)
    {
      IncreasingIsDistinct(rs, i, j);
    }
  }

  lemma FieldAt(m: Attributes, rs: seq<Raw>, i: nat, typ: U16, payload: Bytes)
    requires IsTable(m, rs) && i < |rs| && rs[i] == Attribute(typ, payload) && typ < 0x4000
    ensures Has(m, typ, payload)
  {
    assert rs[i] in rs;
  }

  lemma TableLaysOut(en: Endian, m: Attributes, e: PMEvent)
    requires Reportable(e) && IsTable(m, AttributesOf(en, e))
    ensures LaysOut(en, m, e)
  {
    var rs := AttributesOf(en, e);
    hide Bytes32, Bytes16, MappedIPv4, Attribute, IsTable;
    FieldAt(m, rs, 0, 1, Bytes32(en, e.token));
    if e.kind != CLOSED {
      var v6 := |e.localAddress.octets| == 16;
      FieldAt(m, rs, 1, 2, Bytes16(en, if v6 then AF_INET6 else AF_INET));
      FieldAt(m, rs, 2, 3, [e.localId]);
      FieldAt(m, rs, 3, 4, [e.remoteId]);
      FieldAt(m, rs, 4, if v6 then 6 else 5, e.localAddress.octets);
      FieldAt(m, rs, 5, if v6 then 8 else 7, e.destinationAddress.octets);
      FieldAt(m, rs, 6, 9, Bytes16(Big, e.localPort));
      FieldAt(m, rs, 7, 10, Bytes16(Big, e.destinationPort));
      FieldAt(m, rs, 8, 15, Bytes32(en, WrapU32(e.ifIndex)));
    }
  }

  /** Round trip: every reportable event is what its payload decodes to, for every order of
      its attributes and whatever the rest of the header is. */
  lemma EventRoundTrip(en: Endian, e: PMEvent, header: Bytes, rs: seq<Raw>)
    requires Reportable(e) && |header| == 4 && header[0] == e.kind
    requires multiset(rs) == multiset(AttributesOf(en, e))
    ensures forall r :: r in rs ==> WellFormed(r)
    ensures Carries(en, header + Join(en, rs), e)
  {
    var ts := AttributesOf(en, e);
    AttributesDistinct(en, e);
    ParseJoin(en, ts);
    OrderIndependent(en, ts, rs);
    var data := header + Join(en, rs);
    assert data[4..] == Join(en, rs);
    TableLaysOut(en, Parse(en, Join(en, ts), map[]).value, e);
    hide Parse, Join, LaysOut, AttributesOf;
  }

  /** An event, octet by octet, as a little-endian kernel sends it: the header and four
      attributes, then the addresses, the ports and the interface. */
  const KERNEL_EVENT: Bytes :=
    [2, 1, 0, 0]
    + ([8, 0, 1, 0, 120, 86, 52, 18]
    + ([6, 0, 2, 0, 2, 0, 0, 0]
    + ([5, 0, 3, 0, 1, 0, 0, 0]
    + ([5, 0, 4, 0, 2, 0, 0, 0]
    + (KERNEL_TUPLE)))))

  const KERNEL_TUPLE: Bytes :=
    [8, 0, 5, 0, 10, 1, 0, 2]
    + ([8, 0, 7, 0, 10, 3, 0, 2]
    + ([6, 0, 9, 0, 156, 64, 0, 0]
    + ([6, 0, 10, 0, 20, 81, 0, 0]
    + ([8, 0, 15, 0, 3, 0, 0, 0]
    + ([])))))

  const KERNEL_ATTRIBUTES: seq<Raw> :=
    [Raw(1, [120, 86, 52, 18], [])]
    + ([Raw(2, [2, 0], [0, 0])]
    + ([Raw(3, [1], [0, 0, 0])]
    + ([Raw(4, [2], [0, 0, 0])]
    + (TUPLE_ATTRIBUTES))))

  const TUPLE_ATTRIBUTES: seq<Raw> :=
    [Raw(5, [10, 1, 0, 2], [])]
    + ([Raw(7, [10, 3, 0, 2], [])]
    + ([Raw(9, [156, 64], [0, 0])]
    + ([Raw(10, [20, 81], [0, 0])]
    + ([Raw(15, [3, 0, 0, 0], [])]
    + ([])))))

  /** An event as a little-endian kernel sends it: the establishment of connection 0x12345678
      from 10.1.0.2:40000 to 10.3.0.2:5201 with IDs 1 and 2 over interface 3. */
  lemma KernelEvent()
    ensures Carries(Little, KERNEL_EVENT,
                    PMEvent(2, 0x1234_5678, 1, 2, Address([10, 1, 0, 2]), Address([10, 3, 0, 2]), 40000, 5201, 3))
  {
    var e := PMEvent(2, 0x1234_5678, 1, 2, Address([10, 1, 0, 2]), Address([10, 3, 0, 2]), 40000, 5201, 3);
    KernelAttributesOf(e);
    hide Carries, AttributesOf, Join;
    EventRoundTrip(Little, e, [2, 1, 0, 0], KERNEL_ATTRIBUTES);
    KernelJoin();
  }

  lemma KernelAttributesOf(e: PMEvent)
    requires e == PMEvent(2, 0x1234_5678, 1, 2, Address([10, 1, 0, 2]), Address([10, 3, 0, 2]), 40000, 5201, 3)
    ensures AttributesOf(Little, e) == KERNEL_ATTRIBUTES && Reportable(e)
  {
    KernelWords();
    KernelPadding();
    hide Bytes16, Bytes32, Attribute;
  }

  lemma KernelPadding()
    ensures forall typ: U16, a: Byte :: Attribute(typ, [a]) == Raw(typ, [a], [0, 0, 0])
    ensures forall typ: U16, a: Byte, b: Byte :: Attribute(typ, [a, b]) == Raw(typ, [a, b], [0, 0])
    ensures forall typ: U16, a: Byte, b: Byte, c: Byte, d: Byte :: Attribute(typ, [a, b, c, d]) == Raw(typ, [a, b, c, d], [])
  {
  }

  /** One more short attribute in front of encoded ones. */
  lemma Prepend(r: Raw, octets: Bytes, rest: seq<Raw>, tail: Bytes) returns (all: seq<Raw>, data: Bytes)
    requires r.typ < 0x100 && |r.payload| <= 4 && WellFormed(r)
    requires octets == [|r.payload| + 4, 0, r.typ, 0] + r.payload + r.padding
    requires (forall x :: x in rest ==> WellFormed(x)) && Join(Little, rest) == tail
    ensures all == [r] + rest && forall x :: x in all ==> WellFormed(x)
    ensures data == octets + tail && Join(Little, all) == data
  {
    hide Encode, Join;
    ShortAttribute(r.typ, r.payload, r.padding);
    JoinStep(Little, r, rest);
    all, data := [r] + rest, octets + tail;
  }

  lemma TupleJoin()
    ensures forall r :: r in TUPLE_ATTRIBUTES ==> WellFormed(r)
    ensures Join(Little, TUPLE_ATTRIBUTES) == KERNEL_TUPLE
  {
    var rest: seq<Raw>, tail: Bytes := [], [];
    Nothing(Little, map[]);
    hide Encode, Join;
    rest, tail := Prepend(Raw(15, [3, 0, 0, 0], []), [8, 0, 15, 0, 3, 0, 0, 0], rest, tail);
    rest, tail := Prepend(Raw(10, [20, 81], [0, 0]), [6, 0, 10, 0, 20, 81, 0, 0], rest, tail);
    rest, tail := Prepend(Raw(9, [156, 64], [0, 0]), [6, 0, 9, 0, 156, 64, 0, 0], rest, tail);
    rest, tail := Prepend(Raw(7, [10, 3, 0, 2], []), [8, 0, 7, 0, 10, 3, 0, 2], rest, tail);
    rest, tail := Prepend(Raw(5, [10, 1, 0, 2], []), [8, 0, 5, 0, 10, 1, 0, 2], rest, tail);
  }

  lemma KernelJoin()
    ensures forall r :: r in KERNEL_ATTRIBUTES ==> WellFormed(r)
    ensures [2, 1, 0, 0] + Join(Little, KERNEL_ATTRIBUTES) == KERNEL_EVENT
  {
    TupleJoin();
    hide Encode, Join, TUPLE_ATTRIBUTES, KERNEL_TUPLE;
    var rest, tail := TUPLE_ATTRIBUTES, KERNEL_TUPLE;
    rest, tail := Prepend(Raw(4, [2], [0, 0, 0]), [5, 0, 4, 0, 2, 0, 0, 0], rest, tail);
    rest, tail := Prepend(Raw(3, [1], [0, 0, 0]), [5, 0, 3, 0, 1, 0, 0, 0], rest, tail);
    rest, tail := Prepend(Raw(2, [2, 0], [0, 0]), [6, 0, 2, 0, 2, 0, 0, 0], rest, tail);
    rest, tail := Prepend(Raw(1, [120, 86, 52, 18], []), [8, 0, 1, 0, 120, 86, 52, 18], rest, tail);
  }

  lemma KernelWords()
    ensures Bytes32(Little, 0x1234_5678) == [0x78, 0x56, 0x34, 0x12] && Bytes32(Little, 3) == [3, 0, 0, 0]
    ensures Bytes16(Little, 2) == [2, 0] && Bytes16(Big, 40000) == [0x9c, 0x40] && Bytes16(Big, 5201) == [0x14, 0x51]
  {
  }
}
