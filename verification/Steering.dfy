/** The parts together: from an assignment and the observed subflows to the scheduler's
    choices. */
module Steering {
  import opened Words
  import opened Events
  import opened Maps
  import opened Live
  import opened ControlPlane
  import opened Planning
  import opened AgentState
  import opened AgentOperations
  import Service
  import Delivery
  import Selection
  import Scheduler
  import Fairness
  import Hysteresis
  import Shares
  import Stability

  /** Some event reported these IDs with the address of leg A (access 0) or leg B. */
  ghost predicate Reported(events: set<PMEvent>, a: Assignment, localId: U32, remoteId: U32, access: U32) {
    exists e ::
      && e in events && e.localId == localId && e.remoteId == remoteId
      && e.localAddress == (if access == 0 then a.spec.legA.localAddress else a.spec.legB.localAddress)
  }

  /** The events behind a planned path: recorded now, with the address of the path's leg. */
  lemma WantedIsRecorded(events: set<PMEvent>, a: Assignment, key: ConnKey, k: PathKey)
    requires k in WantedPaths(events, a, key)
    ensures WantedPaths(events, a, key)[k].access < 2
    ensures Reported(events, a, k.localId, k.remoteId, WantedPaths(events, a, key)[k].access)
  {
    var access: U32 := WantedPaths(events, a, key)[k].access;
    assert Endpoint(k.localId, k.remoteId) in EndpointsOn(events, a, access);
    var e :| e in events && LegOf(a, e.localAddress) == Some(access) && EndpointOf(e) == Endpoint(k.localId, k.remoteId);
    assert e in events;
  }

  /** A call's lookups against the maps of a connection. */
  ghost predicate LooksUp(c: Scheduler.Call, v: Agent, token: U32) {
    && c.Valid()
    && forall i :: 0 <= i < |c.subflows| ==>
         var k := PathKey(KeyOf(v, token), c.subflows[i].localId, c.subflows[i].remoteId);
         c.lookups[i] == if k in v.maps.paths then Some(v.maps.paths[k]) else None
  }

  /** In every reachable state in which a connection is in sync, whatever subflow the
      scheduler can choose for it was reported with its IDs and with the address of exactly
      the leg it is charged to. */
  lemma ChosenIsOnItsLeg(v: Agent, token: U32, c: Scheduler.Call, j: nat)
    requires Inv(v) && AllSynced(v) && Owned(v, token)
    requires !v.connections[token].failed && !v.connections[token].closed && !OwnedByDeleting(v, token)
    requires SlotAt(v, token).policy.Some? && LooksUp(c, v, token)
    requires Scheduler.Choosable(SlotAt(v, token).policy.value, c, j)
    ensures v.connections[token].owner in v.contexts
    ensures Reported(v.connections[token].flows.Values, v.contexts[v.connections[token].owner].assignment,
                     c.subflows[j].localId, c.subflows[j].remoteId, c.lookups[j].value.access)
  {
    ReadyIsSound(v, token);
    var k := PathKey(KeyOf(v, token), c.subflows[j].localId, c.subflows[j].remoteId);
    assert c.lookups[j] == if k in v.maps.paths then Some(v.maps.paths[k]) else None;
    assert k in SlotAt(v, token).paths;
    WantedIsRecorded(v.connections[token].flows.Values, v.contexts[v.connections[token].owner].assignment,
                     KeyOf(v, token), k);
    hide WantedPaths, EndpointsOn, Inv, AllSynced;
  }

  /** From the SMF's record to the scheduler: what the SMF calls leg A is charged as leg A and
      what it calls leg B as leg B. A subflow that the scheduler can choose for a connection of
      a context, and that some event reported with the address the record gives to a leg, is
      looked up as that leg's. */
  lemma RecordedLegIsCharged(records: Delivery.Records, generation: U32, v: Agent, id: string, token: U32,
                             c: Scheduler.Call, j: nat, e: PMEvent)
    requires Delivery.Coupled(records, generation, v.contexts) && id in records
    requires Inv(v) && AllSynced(v) && Owned(v, token) && v.connections[token].owner == id
    requires !v.connections[token].failed && !v.connections[token].closed && !OwnedByDeleting(v, token)
    requires SlotAt(v, token).policy.Some? && LooksUp(c, v, token)
    requires Scheduler.Choosable(SlotAt(v, token).policy.value, c, j)
    requires e in v.connections[token].flows.Values
    requires e.localId == c.subflows[j].localId && e.remoteId == c.subflows[j].remoteId
    ensures SameHost(records[id].assignment.spec.legA.localAddress, e.localAddress) ==> c.lookups[j].value.access == 0
    ensures SameHost(records[id].assignment.spec.legB.localAddress, e.localAddress) ==> c.lookups[j].value.access == 1
  {
    ReadyIsSound(v, token);
    OwnersLegsAreRecorded(records, generation, v, id, token);
    var a, events := v.contexts[id].assignment, v.connections[token].flows.Values;
    var k := PathKey(KeyOf(v, token), e.localId, e.remoteId);
    assert c.lookups[j] == if k in v.maps.paths then Some(v.maps.paths[k]) else None;
    assert k in SlotAt(v, token).paths;
    Service.EndpointsOnFields(events, a, Endpoint(e.localId, e.remoteId));
    Service.WantedAt(EndpointsOn(events, a, 0), EndpointsOn(events, a, 1), a.generation, KeyOf(v, token),
                     Endpoint(e.localId, e.remoteId));
    assert WantedPaths(events, a, KeyOf(v, token)) ==
      Wanted(EndpointsOn(events, a, 0), EndpointsOn(events, a, 1), a.generation, KeyOf(v, token));
    hide EndpointsOn, Wanted, Inv, AllSynced, WantedPaths, Delivery.Coupled, SameHost, Scheduler.Choosable;
  }

  lemma OwnersLegsAreRecorded(records: Delivery.Records, generation: U32, v: Agent, id: string, token: U32)
    requires Delivery.Coupled(records, generation, v.contexts) && id in records
    requires Inv(v) && Owned(v, token) && v.connections[token].owner == id
    ensures id in v.contexts
    ensures var raw, a := records[id].assignment.spec, v.contexts[id].assignment.spec;
      && a.legA.localAddress != a.legB.localAddress
      && (forall x :: SameHost(raw.legA.localAddress, x) <==> x == a.legA.localAddress)
      && (forall x :: SameHost(raw.legB.localAddress, x) <==> x == a.legB.localAddress)
  {
    assert TokenOk(v, token);
    assert Delivery.Echoes(records[id], v.contexts[id]);
    CanonicalIsTakenAs(records[id].assignment);
    hide Unmap, SlotOf, Justified, FlowsSeen;
  }

  /** The same at any moment, in the middle of an update or of a removal too: the entry by
      which the scheduler classifies a subflow, read from whatever content it met, has IDs
      that an opening reported with the address of the leg it is charged to, in the context
      that the connection matches. */
  lemma ChosenWasObserved(v: Agent, m: Content, token: U32, p: Selection.Policy, c: Scheduler.Call, j: nat)
    requires Inv(v) && Accounted(v, m) && c.Valid() && Scheduler.Choosable(p, c, j)
    requires var k := PathKey(KeyOf(v, token), c.subflows[j].localId, c.subflows[j].remoteId);
      c.lookups[j] == if k in m.paths then Some(m.paths[k]) else None
    ensures MatchingContext(v, token)
    ensures var k := PathKey(KeyOf(v, token), c.subflows[j].localId, c.subflows[j].remoteId);
      forall id :: MatchedBy(v, token, id) ==>
        Observed(v.journal, v.contexts[id].assignment, k, c.lookups[j].value.access)
  {
    var k := PathKey(KeyOf(v, token), c.subflows[j].localId, c.subflows[j].remoteId);
    assert k in m.paths;
    EveryPathWasObserved(v, m, k);
  }

  /** The share an operator asks for is the share the connection gets. Under the policy
      derived from a load-balancing assignment, whatever the socket has been through, of any
      100 scheduler calls that decide with a subflow on each leg to choose from, leg A gets
      weightA and leg B gets weightB; and any run of calls is off by less than one. */
  method ShareFollowsAssignment(a: Assignment, storage: Scheduler.SocketStorage, key: ConnKey, turns: seq<Shares.Turn>)
    returns (chosen: seq<Option<nat>>)
    requires ValidPolicy(a.policy) && a.generation != 0
    requires a.policy.enabled && a.policy.mode == LOAD_BALANCE
    requires storage.Valid() && key.netns != 0 && Shares.Steady(Derived(a), turns)
    modifies storage.Repr()
    ensures storage.Valid() && |chosen| == |turns|
    ensures var onA := Shares.OnLeg(turns, chosen, 0);
      && -100 < 100 * onA - Shares.Decided(turns) * a.policy.weightA < 100
      && (Shares.Decided(turns) == 100 ==> onA == a.policy.weightA && Shares.OnLeg(turns, chosen, 1) == a.policy.weightB)
  {
    assert LOAD_BALANCE != LOWEST_RTT;
    assert Fairness.Weighted(Derived(a));
    chosen := Shares.TakeTurns(storage, key, Derived(a), turns);
  }

  /** And the margin an operator asks for bounds the flapping: under the policy derived from a
      lowest-RTT assignment with a margin, over any run of scheduler calls with measured
      subflows on both legs to choose from or on none, k changes of leg cost at least
      2 * (margin + 1) * (k - 1) of variation in the difference of the legs' best RTTs. */
  method MarginBoundsFlapping(a: Assignment, storage: Scheduler.SocketStorage, key: ConnKey, turns: seq<Shares.Turn>)
    returns (chosen: seq<Option<nat>>, ghost ts: Hysteresis.Trace)
    requires ValidPolicy(a.policy) && a.generation != 0
    requires a.policy.enabled && a.policy.mode == LOWEST_RTT && a.policy.rttDeltaUs > 0
    requires storage.Valid() && key.netns != 0 && Stability.Outaged(Derived(a), turns)
    modifies storage.Repr()
    ensures storage.Valid() && |chosen| == |turns| && Stability.Sampled(Derived(a), turns, ts)
    ensures var k := Stability.Changes(Stability.Legs(turns, chosen));
      k > 0 ==> Hysteresis.Variation(ts) >= 2 * (a.policy.rttDeltaUs + 1) * (k - 1)
  {
    assert Hysteresis.Lowest(Derived(a));
    chosen, ts := Stability.TakeRttTurns(storage, key, Derived(a), turns);
  }
}
