/** The control-plane objects exchanged by the SMF and the agent, and their validation. */
module ControlPlane {
  import opened Words
  import opened Events
  import opened Live
  import opened Maps

  datatype Leg = Leg(ifName: string, localAddress: Address)

  datatype Flow = Flow(destinationAddress: Address, destinationPort: U16)

  datatype ContextSpec = ContextSpec(id: string, dnn: string, legA: Leg, legB: Leg, flow: Flow)

  datatype SteerPolicy = SteerPolicy(enabled: bool, mode: string, weightA: U32, weightB: U32, rttDeltaUs: U32)

  datatype Assignment = Assignment(spec: ContextSpec, policy: SteerPolicy, generation: U32)

  predicate ValidName(s: string) {
    && 1 <= |s| <= 128 && s != "." && s != ".."
    && forall i :: 0 <= i < |s| ==>
         'a' <= s[i] <= 'z' || 'A' <= s[i] <= 'Z' || '0' <= s[i] <= '9' || s[i] in {'.', '_', '-'}
  }

  /** The length of a name in octets, as UTF-8. */
  function Octets(s: string): nat {
    if s == "" then 0
    else Octets(s[..|s|-1]) + var n := s[|s|-1] as int; if n < 0x80 then 1 else if n < 0x800 then 2 else if n < 0x1_0000 then 3 else 4
  }

  lemma {:induction false} AsciiOctets(s: string)
    requires forall i :: 0 <= i < |s| ==> s[i] as int < 0x80
    ensures Octets(s) == |s|
  {
    if s != "" {
      AsciiOctets(s[..|s|-1]);
    }
  }

  predicate ValidIfName(s: string) {
    s != "" && Octets(s) <= 15 && forall i :: 0 <= i < |s| ==> s[i] !in {' ', '/', '\t', '\r', '\n'}
  }

  /** A unicast address: neither unspecified nor multicast. */
  predicate Unicast(a: Address) {
    && |a.octets| in {4, 16}
    && (exists i :: 0 <= i < |a.octets| && a.octets[i] != 0)
    && (var o := Unmap(a).octets;
        |o| > 0 && if |o| == 4 then o[0] / 0x10 != 0xe else o[0] != 0xff)
  }

  predicate ValidPolicy(p: SteerPolicy) {
    && (p.mode == LOAD_BALANCE || p.mode == LOWEST_RTT)
    && p.weightA <= 100 && p.weightB <= 100 && p.weightA + p.weightB == 100
  }

  predicate ValidSpec(s: ContextSpec) {
    && ValidName(s.id) && ValidName(s.dnn)
    && ValidIfName(s.legA.ifName) && Unicast(s.legA.localAddress)
    && ValidIfName(s.legB.ifName) && Unicast(s.legB.localAddress)
    && Unmap(s.legA.localAddress) != Unmap(s.legB.localAddress) && s.legA.ifName != s.legB.ifName
    && Unicast(s.flow.destinationAddress) && s.flow.destinationPort != 0
  }

  predicate ValidAssignment(a: Assignment) {
    ValidSpec(a.spec) && ValidPolicy(a.policy) && a.generation != 0
  }

  /** One spelling per address: IPv4-mapped addresses become their IPv4 form. */
  function CanonicalLeg(l: Leg): Leg {
    l.(localAddress := Unmap(l.localAddress))
  }

  function CanonicalSpec(s: ContextSpec): ContextSpec {
    s.(legA := CanonicalLeg(s.legA), legB := CanonicalLeg(s.legB),
       flow := s.flow.(destinationAddress := Unmap(s.flow.destinationAddress)))
  }

  function Canonical(a: Assignment): Assignment {
    a.(spec := CanonicalSpec(a.spec))
  }

  /** What becomes of a leg, a specification, an assignment when it is stored: everything as
      it was sent, but for the spelling of addresses. */
  predicate LegTakenAs(raw: Leg, stored: Leg) {
    stored.ifName == raw.ifName && SameHost(raw.localAddress, stored.localAddress)
  }

  predicate TakenAs(raw: Assignment, stored: Assignment) {
    && stored.spec.id == raw.spec.id && stored.spec.dnn == raw.spec.dnn
    && LegTakenAs(raw.spec.legA, stored.spec.legA) && LegTakenAs(raw.spec.legB, stored.spec.legB)
    && SameHost(raw.spec.flow.destinationAddress, stored.spec.flow.destinationAddress)
    && stored.spec.flow.destinationPort == raw.spec.flow.destinationPort
    && stored.policy == raw.policy && stored.generation == raw.generation
  }

  lemma CanonicalIsTakenAs(raw: Assignment)
    ensures TakenAs(raw, Canonical(raw))
  {
    UnmapIsSameHost(raw.spec.legA.localAddress);
    UnmapIsSameHost(raw.spec.legB.localAddress);
    UnmapIsSameHost(raw.spec.flow.destinationAddress);
    hide Unmap;
  }

  /** Unicast, on the octets: IPv4 other than 0.0.0.0 and 224.0.0.0/4, IPv6 other than :: and
      ff00::/8, and not the mapped form of an IPv4 multicast address. */
  lemma UnicastOnOctets(a: Address)
    ensures Unicast(a) <==>
      var o := a.octets;
      || (|o| == 4 && o != [0, 0, 0, 0] && !(224 <= o[0] <= 239))
      || (|o| == 16 && o != [0, 0, 0, 0, 0, 0, 0, 0, 0, 0, 0, 0, 0, 0, 0, 0] && o[0] != 255
          && (o[..12] == [0, 0, 0, 0, 0, 0, 0, 0, 0, 0, 0xff, 0xff] ==> !(224 <= o[12] <= 239)))
  {
    var o := a.octets;
    UnmapIsSameHost(a);
    hide Unmap;
    if |o| == 4 {
      assert o == [o[0], o[1], o[2], o[3]];
    } else if |o| == 16 {
      assert o[12..][0] == o[12] && o[..12][0] == o[0] && o[..12][11] == o[11];
      if forall i :: 0 <= i < 16 ==> o[i] == 0 {
        assert o == [0, 0, 0, 0, 0, 0, 0, 0, 0, 0, 0, 0, 0, 0, 0, 0];
      }
    }
  }

  /** What an assignment the agent can take looks like, field by field. */
  lemma ValidOnFields(a: Assignment)
    ensures ValidAssignment(a) <==>
      && (forall s | s in {a.spec.id, a.spec.dnn} :: 1 <= |s| <= 128 && s !in {".", ".."} && forall c :: c in s ==> NameChar(c as int))
      && (forall l | l in {a.spec.legA, a.spec.legB} ::
            1 <= Octets(l.ifName) <= 15 && Unicast(l.localAddress) && forall c :: c in l.ifName ==> c as int !in {9, 10, 13, 32, 47})
      && a.spec.legA.ifName != a.spec.legB.ifName
      && Unmap(a.spec.legA.localAddress) != Unmap(a.spec.legB.localAddress)
      && Unicast(a.spec.flow.destinationAddress) && a.spec.flow.destinationPort > 0
      && a.policy.mode in {"load-balance", "lowest-rtt"} && a.policy.weightA + a.policy.weightB == 100
      && a.generation > 0
  {
    NameOnCharacters(a.spec.id);
    NameOnCharacters(a.spec.dnn);
    IfNameOnCharacters(a.spec.legA.ifName);
    IfNameOnCharacters(a.spec.legB.ifName);
    hide Unicast, Unmap, ValidName, ValidIfName, NameChar;
  }

  /** Digits, letters, dot, hyphen and underscore, by their code points. */
  predicate NameChar(c: int) {
    48 <= c <= 57 || 65 <= c <= 90 || 97 <= c <= 122 || c in {45, 46, 95}
  }

  lemma NameOnCharacters(s: string)
    ensures ValidName(s) <==> 1 <= |s| <= 128 && s !in {".", ".."} && forall c :: c in s ==> NameChar(c as int)
  {
    forall i | 0 <= i < |s|
      ensures NameChar(s[i] as int) <==>
        'a' <= s[i] <= 'z' || 'A' <= s[i] <= 'Z' || '0' <= s[i] <= '9' || s[i] in {'.', '_', '-'}
    {
      OneNameChar(s[i]);
    }
    assert forall i :: 0 <= i < |s| ==> s[i] in s;
    hide NameChar;
    if ValidName(s) {
      forall c | c in s
        ensures NameChar(c as int)
      {
        var i :| 0 <= i < |s| && s[i] == c;
      }
    }
  }

  lemma OneNameChar(c: char)
    ensures NameChar(c as int) <==>
      'a' <= c <= 'z' || 'A' <= c <= 'Z' || '0' <= c <= '9' || c in {'.', '_', '-'}
  {
  }

  lemma IfNameOnCharacters(s: string)
    ensures ValidIfName(s) <==> 1 <= Octets(s) <= 15 && forall c :: c in s ==> c as int !in {9, 10, 13, 32, 47}
  {
    forall i | 0 <= i < |s|
      ensures s[i] !in {' ', '/', '\t', '\r', '\n'} <==> s[i] as int !in {9, 10, 13, 32, 47}
    {
    }
    assert forall i :: 0 <= i < |s| ==> s[i] in s;
    if ValidIfName(s) {
      forall c | c in s
        ensures c as int !in {9, 10, 13, 32, 47}
      {
        var i :| 0 <= i < |s| && s[i] == c;
      }
    }
  }

  /** The live policy an assignment stands for, given the endpoints observed on each leg. */
  function LivePolicyOf(a: Assignment, epsA: seq<Endpoint>, epsB: seq<Endpoint>): LivePolicy {
    LivePolicy(a.policy.enabled, a.generation, a.policy.mode, a.policy.rttDeltaUs,
               PlanLeg(a.spec.legA.ifName, a.policy.weightA, epsA),
               PlanLeg(a.spec.legB.ifName, a.policy.weightB, epsB))
  }

  /** The map value derived from an assignment. */
  function Derived(a: Assignment): MapPolicy {
    MapPolicyOf(LivePolicyOf(a, [], []))
  }

  /** The addresses assigned to the interfaces, with each interface's index. */
  type Interfaces = map<Leg, int>

  /** An assignment the agent has admitted. */
  predicate Admitted(a: Assignment, ifs: Interfaces) {
    && ValidPolicy(a.policy) && a.generation != 0 && a.spec.id != ""
    && a.spec.legA.localAddress != a.spec.legB.localAddress && a.spec.legA.ifName != a.spec.legB.ifName
    && a.spec.legA in ifs && a.spec.legB in ifs
  }

  /** Both interface names pass the live transaction's validator as well. */
  predicate NamesTrimmed(a: Assignment) {
    TrimmedName(a.spec.legA.ifName) && TrimmedName(a.spec.legB.ifName)
  }

  lemma AdmittedCanonical(a: Assignment, ifs: Interfaces)
    requires ValidAssignment(a)
    requires Canonical(a).spec.legA in ifs && Canonical(a).spec.legB in ifs
    ensures Admitted(Canonical(a), ifs)
  {
  }

  /** The two validators of interface names disagree. Of an admitted assignment, with any
      endpoints a plan can have, the live transaction accepts the policy if and only if both
      names are free of surrounding white space; the control plane checks less. */
  lemma LiveAcceptsExactly(a: Assignment, ifs: Interfaces, epsA: seq<Endpoint>, epsB: seq<Endpoint>)
    requires Admitted(a, ifs)
    requires forall ep :: ep in epsA + epsB ==> ep.localId <= 255 && ep.remoteId <= 255
    requires NoDuplicates(epsA + epsB)
    ensures ConfigValid(LivePolicyOf(a, epsA, epsB)) <==> NamesTrimmed(a)
  {
  }

  /** Of the white space at either end of an admitted name, exactly the characters that the
      control plane does not look for are left to disagree about. */
  lemma NamesDisagreeExactly(s: string)
    requires ValidIfName(s)
    ensures TrimmedName(s) <==> !UnseenSpace(s[0]) && !UnseenSpace(s[|s|-1])
  {
    assert s[0] !in {' ', '\t', '\r', '\n'} && s[|s|-1] !in {' ', '\t', '\r', '\n'};
  }

  predicate UnseenSpace(c: char) {
    IsSpace(c) && c !in {' ', '\t', '\r', '\n'}
  }

  /** A concrete disagreement: an em space in front. */
  lemma NameValidatorsDiffer()
    ensures ValidIfName(['\U{2003}', 'a']) && !TrimmedName(['\U{2003}', 'a'])
    ensures exists s :: TrimmedName(s) && !ValidIfName(s)
  {
    var space, slash := ['\U{2003}', 'a'], "a/b";
    assert space[..1] == ['\U{2003}'] && space[..1][..0] == "";
    assert Octets(space) == 4;
    assert slash[1] == '/';
    assert TrimmedName(slash) && !ValidIfName(slash);
  }
}
