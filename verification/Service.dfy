/** What the maps give to each connection, said on the fields of assignments, events and map
    entries alone. */
module Service {
  import opened Words
  import opened Events
  import opened Maps
  import opened Live
  import opened ControlPlane
  import opened Planning
  import opened AgentState

  /** The event carries the local address of the leg. */
  predicate On(e: PMEvent, l: Leg) {
    e.localAddress == l.localAddress
  }

  /** The context serves the connection: it is not being deleted, the connection is open, and
      its establishment went to the context's flow from either of its legs. */
  predicate Serves(v: Agent, id: string, token: U32) {
    && id in v.contexts && !v.contexts[id].deleting
    && token in v.connections && !v.connections[token].closed && v.connections[token].initial.Some?
    && var spec, e := v.contexts[id].assignment.spec, v.connections[token].initial.value;
       && e.destinationAddress == spec.flow.destinationAddress && e.destinationPort == spec.flow.destinationPort
       && (On(e, spec.legA) || On(e, spec.legB))
  }

  /** The recorded subflows can be steered: some on each leg, none over another interface than
      the leg's, no pair of IDs on both, and names that the live transaction takes. */
  ghost predicate Steerable(events: set<PMEvent>, a: Assignment, ifs: Interfaces)
    requires a.spec.legA in ifs && a.spec.legB in ifs
  {
    && TrimmedName(a.spec.legA.ifName) && TrimmedName(a.spec.legB.ifName)
    && (exists e :: e in events && On(e, a.spec.legA)) && (exists e :: e in events && On(e, a.spec.legB))
    && (forall e :: e in events && On(e, a.spec.legA) ==> e.ifIndex == 0 || e.ifIndex == ifs[a.spec.legA])
    && (forall e :: e in events && On(e, a.spec.legB) ==> e.ifIndex == 0 || e.ifIndex == ifs[a.spec.legB])
    && (forall e, f :: e in events && f in events && On(e, a.spec.legA) && On(f, a.spec.legB) ==>
          e.localId != f.localId || e.remoteId != f.remoteId)
  }

  /** The binding of a connection: the assignment's policy, and one path for the IDs of each
      subflow on a leg, marked 0 on leg A and 1 on leg B. */
  ghost predicate Bound(m: Content, key: ConnKey, a: Assignment, events: set<PMEvent>) {
    && key in m.policies
    && m.policies[key] == MapPolicy(a.generation, if a.policy.enabled then 1 else 0,
                                    if a.policy.mode == "lowest-rtt" then 2 else 1,
                                    a.policy.weightA, a.policy.weightB, a.policy.rttDeltaUs)
    && (forall e :: e in events && On(e, a.spec.legA) ==> Marked(m, PathKey(key, e.localId, e.remoteId), a.generation, 0))
    && (forall e :: e in events && On(e, a.spec.legB) ==> Marked(m, PathKey(key, e.localId, e.remoteId), a.generation, 1))
    && (forall k :: k in m.paths && k.conn == key ==> Recorded(events, a, k))
  }

  predicate Marked(m: Content, k: PathKey, generation: U32, access: U32) {
    k in m.paths && m.paths[k] == MapPath(generation, access)
  }

  /** Some recorded subflow on a leg has these IDs. */
  ghost predicate Recorded(events: set<PMEvent>, a: Assignment, k: PathKey) {
    exists e :: e in events && (On(e, a.spec.legA) || On(e, a.spec.legB))
                && e.localId == k.localId && e.remoteId == k.remoteId
  }

  /** Nothing in either map belongs to the connection. */
  ghost predicate Unbound(m: Content, key: ConnKey) {
    key !in m.policies && forall k :: k in m.paths ==> k.conn != key
  }

  /** Each connection has what its context asks for, and nothing if no context serves it or
      its subflows cannot be steered. */
  ghost predicate WellServed(v: Agent) {
    forall token: U32 :: TokenServed(v, token)
  }

  ghost predicate TokenServed(v: Agent, token: U32) {
    var key := ConnKey(v.netns, token, 0);
    && (forall id :: Serves(v, id, token) ==>
          var a, events := v.contexts[id].assignment, v.connections[token].flows.Values;
          && a.spec.legA in v.ifs && a.spec.legB in v.ifs
          && if Steerable(events, a, v.ifs) then Bound(v.maps, key, a, events) else Unbound(v.maps, key))
    && ((forall id :: !Serves(v, id, token)) ==> Unbound(v.maps, key))
  }

  lemma ClaimsIsServes(v: Agent, id: string, token: U32)
    requires token in v.connections
    ensures Serves(v, id, token) <==> id in v.contexts && Claims(v.contexts[id], v.connections[token])
  {
  }

  lemma LegOfIsOn(a: Assignment, e: PMEvent)
    requires a.spec.legA.localAddress != a.spec.legB.localAddress
    ensures LegOf(a, e.localAddress) == Some(0) <==> On(e, a.spec.legA)
    ensures LegOf(a, e.localAddress) == Some(1) <==> On(e, a.spec.legB)
    ensures LegOf(a, e.localAddress).Some? ==> LegOf(a, e.localAddress).value < 2
  {
  }

  /** The endpoints of a leg are the IDs of the subflows on it. */
  lemma EndpointsOnFields(events: set<PMEvent>, a: Assignment, ep: Endpoint)
    requires a.spec.legA.localAddress != a.spec.legB.localAddress
    ensures ep in EndpointsOn(events, a, 0) <==>
      exists e :: e in events && On(e, a.spec.legA) && Endpoint(e.localId, e.remoteId) == ep
    ensures ep in EndpointsOn(events, a, 1) <==>
      exists e :: e in events && On(e, a.spec.legB) && Endpoint(e.localId, e.remoteId) == ep
  {
    forall e | e in events
      ensures LegOf(a, e.localAddress) == Some(0) <==> On(e, a.spec.legA)
      ensures LegOf(a, e.localAddress) == Some(1) <==> On(e, a.spec.legB)
    {
      LegOfIsOn(a, e);
    }
    hide LegOf, On;
  }

  lemma BindableOnFields(events: set<PMEvent>, a: Assignment, ifs: Interfaces)
    requires Admitted(a, ifs)
    ensures Bindable(events, a, ifs) <==> Steerable(events, a, ifs)
  {
    forall ep: Endpoint
      ensures ep in EndpointsOn(events, a, 0) <==>
        exists e :: e in events && On(e, a.spec.legA) && Endpoint(e.localId, e.remoteId) == ep
      ensures ep in EndpointsOn(events, a, 1) <==>
        exists e :: e in events && On(e, a.spec.legB) && Endpoint(e.localId, e.remoteId) == ep
    {
      EndpointsOnFields(events, a, ep);
    }
    ClashOnFields(events, a);
    SomeOnFields(events, a);
    DisagreementOnFields(events, a, ifs);
    hide EndpointsOn, IndexDisagrees, On, TrimmedName;
  }

  lemma SomeOnFields(events: set<PMEvent>, a: Assignment)
    requires a.spec.legA.localAddress != a.spec.legB.localAddress
    ensures EndpointsOn(events, a, 0) != {} <==> exists e :: e in events && On(e, a.spec.legA)
    ensures EndpointsOn(events, a, 1) != {} <==> exists e :: e in events && On(e, a.spec.legB)
  {
    hide EndpointsOn, On;
    if ep :| ep in EndpointsOn(events, a, 0) { EndpointsOnFields(events, a, ep); }
    if ep :| ep in EndpointsOn(events, a, 1) { EndpointsOnFields(events, a, ep); }
    if e :| e in events && On(e, a.spec.legA) { EndpointsOnFields(events, a, Endpoint(e.localId, e.remoteId)); }
    if e :| e in events && On(e, a.spec.legB) { EndpointsOnFields(events, a, Endpoint(e.localId, e.remoteId)); }
  }

  lemma ClashOnFields(events: set<PMEvent>, a: Assignment)
    requires a.spec.legA.localAddress != a.spec.legB.localAddress
    ensures EndpointsOn(events, a, 0) !! EndpointsOn(events, a, 1) <==>
      forall e, f :: e in events && f in events && On(e, a.spec.legA) && On(f, a.spec.legB) ==>
        e.localId != f.localId || e.remoteId != f.remoteId
  {
    hide EndpointsOn, On;
    if ep :| ep in EndpointsOn(events, a, 0) && ep in EndpointsOn(events, a, 1) {
      EndpointsOnFields(events, a, ep);
    }
    if e, f :| e in events && f in events && On(e, a.spec.legA) && On(f, a.spec.legB)
               && e.localId == f.localId && e.remoteId == f.remoteId {
      EndpointsOnFields(events, a, Endpoint(e.localId, e.remoteId));
    }
  }

  lemma DisagreementOnFields(events: set<PMEvent>, a: Assignment, ifs: Interfaces)
    requires Admitted(a, ifs)
    ensures (exists e :: e in events && IndexDisagrees(e, a, ifs)) <==>
      !(&& (forall e :: e in events && On(e, a.spec.legA) ==> e.ifIndex == 0 || e.ifIndex == ifs[a.spec.legA])
        && (forall e :: e in events && On(e, a.spec.legB) ==> e.ifIndex == 0 || e.ifIndex == ifs[a.spec.legB]))
  {
    forall e | e in events
      ensures IndexDisagrees(e, a, ifs) <==>
        || (On(e, a.spec.legA) && e.ifIndex != 0 && e.ifIndex != ifs[a.spec.legA])
        || (On(e, a.spec.legB) && e.ifIndex != 0 && e.ifIndex != ifs[a.spec.legB])
    {
      LegOfIsOn(a, e);
    }
    hide IndexDisagrees, On;
  }

  lemma BoundOnFields(m: Content, key: ConnKey, events: set<PMEvent>, a: Assignment, ifs: Interfaces)
    requires Admitted(a, ifs) && Bindable(events, a, ifs)
    requires SlotOf(m, key) == Slot(Some(Derived(a)), WantedPaths(events, a, key))
    ensures Bound(m, key, a, events)
  {
    assert forall k :: k in m.paths && k.conn == key <==> k in SlotOf(m, key).paths;
    var want := WantedPaths(events, a, key);
    forall e | e in events && (On(e, a.spec.legA) || On(e, a.spec.legB))
      ensures Marked(m, PathKey(key, e.localId, e.remoteId), a.generation, if On(e, a.spec.legA) then 0 else 1)
    {
      var ep := Endpoint(e.localId, e.remoteId);
      EndpointsOnFields(events, a, ep);
      WantedAt(EndpointsOn(events, a, 0), EndpointsOn(events, a, 1), a.generation, key, ep);
    }
    forall k | k in m.paths && k.conn == key
      ensures Recorded(events, a, k)
    {
      var ep := WantedFrom(EndpointsOn(events, a, 0), EndpointsOn(events, a, 1), a.generation, key, k);
      EndpointsOnFields(events, a, ep);
    }
    hide EndpointsOn, Conflict, Wanted;
  }

  lemma WantedAt(epsA: set<Endpoint>, epsB: set<Endpoint>, generation: U32, key: ConnKey, ep: Endpoint)
    requires epsA !! epsB
    ensures var k := PathKey(key, ep.localId, ep.remoteId); var want := Wanted(epsA, epsB, generation, key);
      && (ep in epsA ==> k in want && want[k] == MapPath(generation, 0))
      && (ep in epsB ==> k in want && want[k] == MapPath(generation, 1))
  {
    var k := PathKey(key, ep.localId, ep.remoteId);
    forall x | x in epsA + epsB && PathKey(key, x.localId, x.remoteId) == k
      ensures x == ep
    {
    }
  }

  lemma WantedFrom(epsA: set<Endpoint>, epsB: set<Endpoint>, generation: U32, key: ConnKey, k: PathKey)
    returns (ep: Endpoint)
    requires k in Wanted(epsA, epsB, generation, key)
    ensures ep == Endpoint(k.localId, k.remoteId) && (ep in epsA || ep in epsB)
  {
    ep := Endpoint(k.localId, k.remoteId);
  }

  lemma UnboundOnFields(m: Content, key: ConnKey)
    requires SlotOf(m, key) == EMPTY_SLOT
    ensures Unbound(m, key)
  {
    forall k | k in m.paths
      ensures k.conn != key
    {
      assert k.conn == key ==> k in SlotOf(m, key).paths;
    }
  }

  /** Maps at the target serve every connection as said above. */
  lemma TargetServes(v: Agent)
    requires AtTarget(v, v.contexts, v.connections)
    ensures WellServed(v)
  {
    forall token: U32
      ensures TokenServed(v, token)
    {
      TargetServesToken(v, token);
    }
  }

  lemma TargetServesToken(v: Agent, token: U32)
    requires AtTarget(v, v.contexts, v.connections)
    ensures TokenServed(v, token)
  {
    hide SlotOf, Steerable, Bound, Unbound, Claims, Serves, SlotTarget;
    var key := ConnKey(v.netns, token, 0);
    if token in v.connections {
      var c := v.connections[token];
      forall id
        ensures Serves(v, id, token) <==> id in v.contexts && Claims(v.contexts[id], c)
      {
        ClaimsIsServes(v, id, token);
      }
      forall id | Serves(v, id, token)
        ensures var a, events := v.contexts[id].assignment, c.flows.Values;
          && a.spec.legA in v.ifs && a.spec.legB in v.ifs
          && if Steerable(events, a, v.ifs) then Bound(v.maps, key, a, events) else Unbound(v.maps, key)
      {
        TargetOfContext(v.maps, key, c.flows.Values, v.contexts[id].assignment, v.ifs);
      }
      if forall id :: !Serves(v, id, token) {
        UnboundOnFields(v.maps, key);
      }
    } else {
      UntrackedIsUnserved(v, token);
      UnboundOnFields(v.maps, key);
    }
  }

  lemma UntrackedIsUnserved(v: Agent, token: U32)
    requires token !in v.connections
    ensures forall id :: !Serves(v, id, token)
  {
  }

  lemma TargetOfContext(m: Content, key: ConnKey, events: set<PMEvent>, a: Assignment, ifs: Interfaces)
    requires Admitted(a, ifs) && SlotOf(m, key) == SlotTarget(events, a, ifs, key)
    ensures if Steerable(events, a, ifs) then Bound(m, key, a, events) else Unbound(m, key)
  {
    BindableOnFields(events, a, ifs);
    hide SlotOf, Steerable, Bound, Unbound, Bindable, Derived, WantedPaths;
    if Bindable(events, a, ifs) {
      BoundOnFields(m, key, events, a, ifs);
    } else {
      UnboundOnFields(m, key);
    }
  }
}
